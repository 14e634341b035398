/** What the allocator does to the heap, on values: the chunks between the start of the heap
    and the program break, the free list, and the chunks in use with the sizes asked for. Sizes
    wrap modulo 2^64 as size_t does, and those that the code keeps in an int are cut to an int. */
module HeapModel {

  const LEN_SIZE: nat := 8
  const FREE_L_SIZE: nat := 24

  /** `chunks` maps the address of a chunk's header to its chunk_size, which does not count the
      length field; `free` is the free list, head first; `live` maps the chunks in use to the
      sizes requested. */
  datatype Heap = Heap(base: nat, brk: nat, chunks: map<nat, nat>, free: seq<nat>, live: map<nat, nat>)

  function Start(base: nat): Heap { Heap(base, base, map[], [], map[]) }

  function End(chunks: map<nat, nat>, a: nat): nat
    requires a in chunks
  {
    a + LEN_SIZE + chunks[a]
  }

  // ----- sizes kept in an int -----

  const SIZE_RANGE: nat := 0x1_0000_0000_0000_0000
  const INT_RANGE: nat := 0x1_0000_0000
  const INT_MAX: nat := 0x7fff_ffff
  const LONG_MAX: nat := 0x7fff_ffff_ffff_ffff

  /** size_t */
  type Size = x: nat | x < SIZE_RANGE

  /** A 64-bit unsigned number stored in an int. */
  function ToInt(x: nat): (r: int)
    ensures r <= x && (x <= INT_MAX ==> r == x) && -(INT_MAX as int) - 1 <= r <= INT_MAX
  {
    if x % INT_RANGE <= INT_MAX then x % INT_RANGE else x % INT_RANGE - INT_RANGE
  }

  /** `int hole_sz = chunk_size - size` */
  function HoleSize(chunkSize: nat, size: nat): int {
    ToInt((chunkSize as int - size as int) % SIZE_RANGE)
  }

  /** `size_t blob_size = size + FREE_L_SIZE` */
  function BlobSize(size: Size): Size {
    if size + FREE_L_SIZE < SIZE_RANGE then size + FREE_L_SIZE else size + FREE_L_SIZE - SIZE_RANGE
  }

  /** What `sbrk(blob_size)` is asked for: its parameter is signed. */
  function Increment(size: Size): int {
    if BlobSize(size) <= LONG_MAX then BlobSize(size) else BlobSize(size) - SIZE_RANGE
  }

  /** `entry->chunk_size = blob_size - LEN_SIZE` */
  function NewChunkSize(size: Size): Size {
    if BlobSize(size) >= LEN_SIZE then BlobSize(size) - LEN_SIZE else BlobSize(size) - LEN_SIZE + SIZE_RANGE
  }

  /** A request for which none of this wraps or turns negative. */
  predicate Fits(size: nat) { size + FREE_L_SIZE <= LONG_MAX }

  /** How far `sbrk(-blob_size)` lowers the break for a chunk of chunkSize bytes: blob_size is
      an int, and the least int is its own negation. */
  function Shrinkage(chunkSize: nat): (d: int)
    ensures d <= LEN_SIZE + chunkSize
  {
    var blobSize := ToInt(LEN_SIZE + chunkSize);
    if blobSize == -(INT_MAX as int) - 1 then INT_MAX + 1 else blobSize
  }

  // ----- operations -----

  predicate AllIn(free: seq<nat>, chunks: map<nat, nat>) {
    forall k :: 0 <= k < |free| ==> free[k] in chunks
  }

  /** What `hole_sz` is for each chunk of the list. */
  function Holes(free: seq<nat>, chunks: map<nat, nat>, size: nat): seq<int>
    requires AllIn(free, chunks)
  {
    seq(|free|, k requires 0 <= k < |free| => HoleSize(chunks[free[k]], size))
  }

  /** The search: a later hole replaces the candidate only if it is strictly smaller and not negative. */
  function FirstLeast(holes: seq<int>): (b: int)
    ensures -1 <= b < |holes|
  {
    if holes == [] then -1 else
      var last := |holes| - 1;
      var b := FirstLeast(holes[..last]);
      if (b == -1 || holes[last] < holes[b]) && holes[last] >= 0 then last else b
  }

  /** The position in the list of the chunk that the search finds, or -1. */
  function Best(free: seq<nat>, chunks: map<nat, nat>, size: nat): (b: int)
    requires AllIn(free, chunks)
    ensures -1 <= b < |free|
  {
    FirstLeast(Holes(free, chunks, size))
  }

  /** The break is never moved below the start of the heap. */
  predicate SbrkRefuses(h: Heap, size: Size) { h.brk + Increment(size) < h.base }

  /** When sbrk refuses, it answers (void*)-1, which the code takes for the address of a header. */
  datatype Reply = Served(ptr: nat) | Fault

  /** Taking a chunk off the list drops every entry ahead of it too: no listed chunk but the
      one just freed has a back link. */
  function Malloc(h: Heap, size: Size): (Reply, Heap)
    requires AllIn(h.free, h.chunks)
  {
    var b := Best(h.free, h.chunks, size);
    if b >= 0 then (Served(h.free[b] + LEN_SIZE), Reused(h, size, b))
    else if SbrkRefuses(h, size) then (Fault, h)
    else (Served(h.brk + LEN_SIZE), Grown(h, size))
  }

  function Grown(h: Heap, size: Size): Heap
    requires !SbrkRefuses(h, size)
  {
    h.(brk := h.brk + Increment(size),
       chunks := h.chunks[h.brk := NewChunkSize(size)],
       live := h.live[h.brk := size])
  }

  function Reused(h: Heap, size: nat, b: nat): Heap
    requires b < |h.free|
  {
    h.(free := h.free[b + 1..], live := h.live[h.free[b] := size])
  }

  /** The first listed chunk that ends at the break, or the length of the list. */
  function TopIndex(h: Heap): (i: nat)
    requires AllIn(h.free, h.chunks)
    ensures i <= |h.free|
    ensures i < |h.free| ==> End(h.chunks, h.free[i]) == h.brk
    ensures forall k :: 0 <= k < i ==> End(h.chunks, h.free[k]) != h.brk
    decreases |h.free|
  {
    if h.free == [] || End(h.chunks, h.free[0]) == h.brk then 0
    else 1 + TopIndex(h.(free := h.free[1..]))
  }

  function Release(h: Heap, i: nat): Heap
    requires i < |h.free| && h.free[i] in h.chunks && End(h.chunks, h.free[i]) == h.brk
  {
    h.(brk := h.brk - Shrinkage(h.chunks[h.free[i]]), chunks := h.chunks - {h.free[i]}, free := h.free[i + 1..])
  }

  predicate Distinct(s: seq<nat>) { forall i, j :: 0 <= i < j < |s| ==> s[i] != s[j] }

  /** Gives free chunks at the top back to the system until none ends at the break. */
  function Trim(h: Heap): Heap
    requires AllIn(h.free, h.chunks) && Distinct(h.free)
    decreases |h.free|
  {
    var i := TopIndex(h);
    if i == |h.free| then h else Trim(Release(h, i))
  }

  function Unlist(h: Heap, p: nat): Heap {
    h.(free := [p] + h.free, live := h.live - {p})
  }

  /** `ptr` was returned by Malloc and not freed since, or is NULL. */
  function Free(h: Heap, ptr: nat): Heap
    requires Inv(h) && (ptr == 0 || (ptr >= LEN_SIZE && ptr - LEN_SIZE in h.live))
  {
    if ptr == 0 then h
    else
      UnlistInv(h, ptr - LEN_SIZE);
      Trim(Unlist(h, ptr - LEN_SIZE))
  }

  // ----- the invariants -----

  predicate Inside(h: Heap, a: nat)
    requires a in h.chunks
  {
    h.base <= a && End(h.chunks, a) <= h.brk
  }

  predicate Before(h: Heap, a: nat, b: nat)
    requires a in h.chunks
  {
    End(h.chunks, a) <= b
  }

  /** Where chunk a ends the heap ends or the next chunk begins. */
  predicate Adjoined(h: Heap, a: nat)
    requires a in h.chunks
  {
    End(h.chunks, a) == h.brk || End(h.chunks, a) in h.chunks
  }

  /** The chunks lie between the start of the heap and the break and do not overlap. */
  predicate Packed(h: Heap) {
    && h.base <= h.brk
    && (forall a {:trigger Inside(h, a)} :: a in h.chunks ==> Inside(h, a))
    && (forall a, b {:trigger Before(h, a, b)} :: a in h.chunks && b in h.chunks && a < b ==> Before(h, a, b))
  }

  /** They leave no gap, up to the break. */
  predicate NoGap(h: Heap) {
    && (h.base < h.brk ==> h.base in h.chunks)
    && (forall a {:trigger Adjoined(h, a)} :: a in h.chunks ==> Adjoined(h, a))
  }

  /** The free list repeats nothing and lists no chunk in use. */
  predicate Listing(h: Heap) {
    && AllIn(h.free, h.chunks) && Distinct(h.free)
    && (forall k :: 0 <= k < |h.free| ==> h.free[k] !in h.live)
  }

  predicate LiveIn(h: Heap) { forall a :: a in h.live ==> a in h.chunks }

  const LINKS_SIZE: nat := FREE_L_SIZE - LEN_SIZE

  predicate RoomyAt(h: Heap, a: nat) { a in h.chunks ==> h.chunks[a] >= LINKS_SIZE }

  /** Every chunk has room for the two links that freeing it writes. */
  predicate Roomy(h: Heap) { forall a {:trigger RoomyAt(h, a)} :: a in h.chunks ==> RoomyAt(h, a) }

  /** What freeing keeps, and every request that does not wrap. */
  predicate Inv(h: Heap) { h.base > 0 && Packed(h) && Roomy(h) && Listing(h) && LiveIn(h) }

  predicate SizedAt(h: Heap, a: nat) { a in h.live && a in h.chunks ==> h.live[a] <= h.chunks[a] }

  /** Every chunk in use is as large as the request it answers. */
  ghost predicate Sized(h: Heap) { forall a {:trigger SizedAt(h, a)} :: SizedAt(h, a) }

  predicate IntSizedAt(h: Heap, a: nat) { a in h.chunks ==> LEN_SIZE + h.chunks[a] <= INT_MAX }

  /** Every chunk, with its length field, has an int for a size. */
  ghost predicate IntSized(h: Heap) { forall a {:trigger IntSizedAt(h, a)} :: IntSizedAt(h, a) }

  /** What runs with int-sized requests keep besides. */
  ghost predicate Regular(h: Heap) { NoGap(h) && Sized(h) && IntSized(h) }

  /** A request that, with its header, is an int. */
  const MAX_REQUEST: nat := INT_MAX - FREE_L_SIZE

  // ----- the search -----

  /** The search finds the first of the smallest holes that are not negative. */
  lemma {:induction false} FirstLeastMeaning(holes: seq<int>)
    ensures var b := FirstLeast(holes);
            && (b == -1 <==> forall k :: 0 <= k < |holes| ==> holes[k] < 0)
            && (b >= 0 ==>
                  && holes[b] >= 0
                  && (forall k :: 0 <= k < |holes| && holes[k] >= 0 ==> holes[b] <= holes[k])
                  && (forall k :: 0 <= k < b && holes[k] >= 0 ==> holes[b] < holes[k]))
  {
    if holes != [] { FirstLeastMeaning(holes[..|holes| - 1]); }
  }

  /** The int holds the true difference exactly when that is an int. */
  lemma {:induction false} HoleSizeExact(chunkSize: nat, size: nat)
    requires chunkSize < SIZE_RANGE && size < SIZE_RANGE
    ensures HoleSize(chunkSize, size) == chunkSize as int - size as int <==>
            -(INT_MAX as int) - 1 <= chunkSize as int - size as int <= INT_MAX
  {
  }

  /** Exactly when the test for a fit is right: what the int loses of the difference must not
      turn its sign. */
  lemma {:induction false} FitTestRightIff(chunkSize: nat, size: nat)
    requires chunkSize < SIZE_RANGE && size < SIZE_RANGE
    ensures (HoleSize(chunkSize, size) >= 0 <==> chunkSize >= size) <==>
            if chunkSize >= size then (chunkSize - size) % INT_RANGE <= INT_MAX
            else (size - chunkSize) % INT_RANGE != 0 && (size - chunkSize) % INT_RANGE <= INT_MAX + 1
  {
  }

  /** A chunk that is too small and passes the test. */
  predicate Misfit(chunkSize: nat, size: nat) { chunkSize < size && HoleSize(chunkSize, size) >= 0 }

  lemma {:induction false} NoSmallMisfit(chunkSize: nat, size: nat)
    requires chunkSize <= INT_MAX && size <= INT_MAX
    ensures HoleSize(chunkSize, size) == chunkSize - size && !Misfit(chunkSize, size)
  {
    HoleSizeExact(chunkSize, size);
  }

  /** For int sizes it is the first of the smallest chunks that are big enough. */
  lemma {:induction false} BestFit(free: seq<nat>, chunks: map<nat, nat>, size: nat)
    requires AllIn(free, chunks) && size <= INT_MAX && forall k :: 0 <= k < |free| ==> chunks[free[k]] <= INT_MAX
    ensures var b := Best(free, chunks, size);
            && (b == -1 <==> forall k :: 0 <= k < |free| ==> chunks[free[k]] < size)
            && (b >= 0 ==>
                  && chunks[free[b]] >= size
                  && (forall k :: 0 <= k < |free| && chunks[free[k]] >= size ==> chunks[free[b]] <= chunks[free[k]])
                  && (forall k :: 0 <= k < b && chunks[free[k]] >= size ==> chunks[free[b]] < chunks[free[k]]))
  {
    FirstLeastMeaning(Holes(free, chunks, size));
    forall k | 0 <= k < |free| ensures Holes(free, chunks, size)[k] == chunks[free[k]] - size {
      NoSmallMisfit(chunks[free[k]], size);
    }
  }

  // ----- every operation keeps the invariants -----

  /** Every byte of the heap belongs to exactly one chunk. */
  lemma {:induction false} EveryByteInOneChunk(h: Heap, x: nat) returns (a: nat)
    requires Packed(h) && NoGap(h) && h.base <= x < h.brk
    ensures a in h.chunks && a <= x < End(h.chunks, a)
    ensures forall b :: b in h.chunks && b <= x < End(h.chunks, b) ==> b == a
  {
    a := h.base;
    while End(h.chunks, a) <= x
      invariant a in h.chunks && a <= x
      decreases x - a
    {
      assert Adjoined(h, a);
      a := End(h.chunks, a);
    }
    forall b | b in h.chunks && b <= x < End(h.chunks, b)
      ensures b == a
    {
      assert b < a ==> Before(h, b, a);
      assert a < b ==> Before(h, a, b);
    }
  }

  /** Chunks in use lie inside the heap, apart from each other and from every header. */
  lemma {:induction false} ChunksDisjoint(h: Heap, a: nat, b: nat)
    requires Inv(h) && a in h.live && b in h.chunks && a != b
    ensures h.base <= a && End(h.chunks, a) <= h.brk
    ensures End(h.chunks, a) <= b || End(h.chunks, b) <= a
  {
    assert Inside(h, a);
    assert a < b ==> Before(h, a, b);
    assert b < a ==> Before(h, b, a);
  }

  lemma {:induction false} NullIsNoChunk(h: Heap)
    requires Packed(h) && h.base > 0
    ensures 0 !in h.chunks
  {
    assert 0 in h.chunks ==> Inside(h, 0);
  }

  lemma {:induction false} BreakIsFree(h: Heap)
    requires Packed(h)
    ensures h.brk !in h.chunks
  {
    assert h.brk in h.chunks ==> Inside(h, h.brk);
  }

  lemma {:induction false} FitsExactly(size: Size)
    ensures Fits(size) ==> Increment(size) == size + FREE_L_SIZE && NewChunkSize(size) == size + LINKS_SIZE
    ensures !Fits(size) ==>
              NewChunkSize(size) < LINKS_SIZE || Increment(size) < LEN_SIZE + NewChunkSize(size)
  {
  }

  /** The heap with a new chunk, where nothing wraps. */
  function Extended(h: Heap, size: nat): Heap {
    h.(brk := h.brk + size + FREE_L_SIZE,
       chunks := h.chunks[h.brk := size + LINKS_SIZE],
       live := h.live[h.brk := size])
  }

  lemma {:induction false} GrownIsExtended(h: Heap, size: Size)
    requires Fits(size) && h.base <= h.brk
    ensures !SbrkRefuses(h, size) && Grown(h, size) == Extended(h, size)
  {
    FitsExactly(size);
  }

  lemma {:induction false} GrownPacked(h: Heap, size: Size)
    requires Packed(h) && Roomy(h) && Fits(size)
    ensures !SbrkRefuses(h, size) && Packed(Grown(h, size)) && Roomy(Grown(h, size))
    ensures NoGap(h) ==> NoGap(Grown(h, size))
  {
    FitsExactly(size);
    var h' := Grown(h, size);
    BreakIsFree(h);
    forall a | a in h'.chunks
      ensures Inside(h', a) && RoomyAt(h', a) && (NoGap(h) ==> Adjoined(h', a))
    {
      if a in h.chunks {
        assert Inside(h, a) && RoomyAt(h, a);
        assert NoGap(h) ==> Adjoined(h, a);
      }
    }
    forall a, b | a in h'.chunks && b in h'.chunks && a < b
      ensures Before(h', a, b)
    {
      assert a in h.chunks ==> Inside(h, a);
      assert b in h.chunks ==> Inside(h, b);
      assert a in h.chunks && b in h.chunks ==> Before(h, a, b);
    }
  }

  lemma {:induction false} SameChunks(h: Heap, h': Heap)
    requires Packed(h) && h'.base == h.base && h'.brk == h.brk && h'.chunks == h.chunks
    ensures Packed(h') && (Roomy(h) ==> Roomy(h')) && (NoGap(h) ==> NoGap(h')) && (IntSized(h) ==> IntSized(h'))
  {
    forall a | a in h'.chunks
      ensures Inside(h', a) && (Roomy(h) ==> RoomyAt(h', a)) && (NoGap(h) ==> Adjoined(h', a))
    {
      assert Inside(h, a);
      assert Roomy(h) ==> RoomyAt(h, a);
      assert NoGap(h) ==> Adjoined(h, a);
    }
    forall a, b | a in h'.chunks && b in h'.chunks && a < b ensures Before(h', a, b) { assert Before(h, a, b); }
    forall a ensures IntSized(h) ==> IntSizedAt(h', a) { assert IntSized(h) ==> IntSizedAt(h, a); }
  }

  /** The heap after a request: one more chunk in use, and every chunk where and as it was. */
  ghost predicate Granted(h: Heap, size: nat, p: nat, h': Heap) {
    && p >= LEN_SIZE && p - LEN_SIZE !in h.live && p - LEN_SIZE in h'.chunks
    && h'.live == h.live[p - LEN_SIZE := size]
    && (forall a :: a in h.chunks ==> a in h'.chunks && h'.chunks[a] == h.chunks[a])
  }

  /** A new chunk keeps the invariant exactly when the request does not wrap: otherwise its size
      field is too large for where the break went, or it has no room for the links. */
  lemma {:induction false} GrownInv(h: Heap, size: Size)
    requires Inv(h) && !SbrkRefuses(h, size)
    ensures Inv(Grown(h, size)) <==> Fits(size)
    ensures Granted(h, size, h.brk + LEN_SIZE, Grown(h, size))
  {
    var h' := Grown(h, size);
    FitsExactly(size);
    BreakIsFree(h);
    if Fits(size) { GrownPacked(h, size); } else { assert !RoomyAt(h', h.brk) || !Inside(h', h.brk); }
    assert forall k :: 0 <= k < |h.free| ==> h.free[k] in h.chunks;
  }

  lemma {:induction false} ReusedInv(h: Heap, size: nat, b: nat)
    requires Inv(h) && b < |h.free|
    ensures Inv(Reused(h, size, b)) && Granted(h, size, h.free[b] + LEN_SIZE, Reused(h, size, b))
  {
    var h' := Reused(h, size, b);
    SameChunks(h, h');
    forall k | 0 <= k < |h'.free| ensures h'.free[k] == h.free[b + 1 + k] && h'.free[k] != h.free[b] {}
  }

  /** A request that wraps, or is negative for sbrk, comes to a new chunk. */
  predicate Overflows(h: Heap, size: Size)
    requires AllIn(h.free, h.chunks)
  {
    !Fits(size) && Best(h.free, h.chunks, size) == -1 && !SbrkRefuses(h, size)
  }

  lemma {:induction false} MallocReuses(h: Heap, size: Size)
    requires AllIn(h.free, h.chunks) && Best(h.free, h.chunks, size) >= 0
    ensures var b := Best(h.free, h.chunks, size);
            Malloc(h, size) == (Served(h.free[b] + LEN_SIZE), Reused(h, size, b))
  {
  }

  lemma {:induction false} MallocGrows(h: Heap, size: Size)
    requires AllIn(h.free, h.chunks) && Best(h.free, h.chunks, size) == -1
    ensures Malloc(h, size) ==
            if SbrkRefuses(h, size) then (Fault, h) else (Served(h.brk + LEN_SIZE), Grown(h, size))
  {
  }

  /** A request of any size that is answered gets a chunk that was not in use. */
  lemma {:induction false} MallocGrants(h: Heap, size: Size)
    requires Inv(h)
    ensures var (r, h') := Malloc(h, size);
            if r.Served? then Granted(h, size, r.ptr, h') else h' == h && !Fits(size)
  {
    var b := Best(h.free, h.chunks, size);
    if b >= 0 {
      MallocReuses(h, size);
      ReusedInv(h, size, b);
    } else {
      MallocGrows(h, size);
      if SbrkRefuses(h, size) {
        if Fits(size) { GrownIsExtended(h, size); }
      } else {
        GrownInv(h, size);
      }
    }
  }

  /** A request of any size keeps the invariant exactly when it does not overflow. */
  lemma {:induction false} MallocInv(h: Heap, size: Size)
    requires Inv(h)
    ensures Inv(Malloc(h, size).1) <==> !Overflows(h, size)
  {
    var b := Best(h.free, h.chunks, size);
    if b >= 0 {
      MallocReuses(h, size);
      ReusedInv(h, size, b);
    } else {
      MallocGrows(h, size);
      if !SbrkRefuses(h, size) { GrownInv(h, size); }
    }
  }

  /** The chunk given is as large as the request, and all others stay so, exactly when the
      chunk found is big enough. */
  lemma {:induction false} SizedAfter(h: Heap, size: Size)
    requires Inv(h) && Sized(h) && Fits(size)
    ensures var b := Best(h.free, h.chunks, size);
            Malloc(h, size).0.Served? &&
            (Sized(Malloc(h, size).1) <==> b == -1 || h.chunks[h.free[b]] >= size)
  {
    var b, h' := Best(h.free, h.chunks, size), Malloc(h, size).1;
    var p := if b == -1 then h.brk else h.free[b];
    FitsExactly(size);
    BreakIsFree(h);
    forall a | a != p ensures SizedAt(h', a) { assert SizedAt(h, a); }
    assert SizedAt(h', p) <==> b == -1 || h.chunks[h.free[b]] >= size;
  }

  /** In a regular heap a request that wraps is not answered in order: a listed chunk is too small for it. */
  lemma {:induction false} WrappedNotSized(h: Heap, size: Size)
    requires Inv(h) && IntSized(h) && !Fits(size)
    ensures var (r, h') := Malloc(h, size); !(r.Served? && Inv(h') && Sized(h'))
  {
    var b := Best(h.free, h.chunks, size);
    MallocInv(h, size);
    if b >= 0 {
      assert IntSizedAt(h, h.free[b]);
      assert !SizedAt(Malloc(h, size).1, h.free[b]);
    }
  }

  /** What the search finds is big enough exactly when no listed chunk is a misfit. */
  lemma {:induction false} FoundFitsIff(h: Heap, size: nat)
    requires Inv(h) && IntSized(h)
    ensures var b := Best(h.free, h.chunks, size);
            (b == -1 || h.chunks[h.free[b]] >= size) <==>
            forall k :: 0 <= k < |h.free| ==> !Misfit(h.chunks[h.free[k]], size)
  {
    var b, holes := Best(h.free, h.chunks, size), Holes(h.free, h.chunks, size);
    FirstLeastMeaning(holes);
    forall k | 0 <= k < |h.free|
      ensures h.chunks[h.free[k]] <= INT_MAX && (size <= INT_MAX ==> !Misfit(h.chunks[h.free[k]], size))
      ensures Misfit(h.chunks[h.free[k]], size) ==> holes[k] >= 0
    {
      assert IntSizedAt(h, h.free[k]);
      if size <= INT_MAX { NoSmallMisfit(h.chunks[h.free[k]], size); }
    }
    if b >= 0 { assert holes[b] == HoleSize(h.chunks[h.free[b]], size); }
  }

  /** In a regular heap, a request of any size is answered with a chunk that is large enough, in a
      heap that is still in order, exactly when the request does not wrap and no listed chunk that
      is too small passes the test. */
  lemma {:induction false} MallocSizedIff(h: Heap, size: Size)
    requires Inv(h) && Regular(h)
    ensures var (r, h') := Malloc(h, size);
            r.Served? && Inv(h') && Sized(h') <==>
            Fits(size) && forall k :: 0 <= k < |h.free| ==> !Misfit(h.chunks[h.free[k]], size)
  {
    if Fits(size) {
      MallocInv(h, size);
      SizedAfter(h, size);
      FoundFitsIff(h, size);
    } else {
      WrappedNotSized(h, size);
    }
  }

  /** An int-sized request keeps a heap regular. */
  lemma {:induction false} MallocRegular(h: Heap, size: Size)
    requires Inv(h) && Regular(h) && size <= MAX_REQUEST
    ensures Malloc(h, size).0.Served? && Regular(Malloc(h, size).1)
  {
    var b := Best(h.free, h.chunks, size);
    forall k | 0 <= k < |h.free| ensures !Misfit(h.chunks[h.free[k]], size) {
      assert IntSizedAt(h, h.free[k]);
      NoSmallMisfit(h.chunks[h.free[k]], size);
    }
    MallocSizedIff(h, size);
    FitsExactly(size);
    var h' := Malloc(h, size).1;
    if b == -1 { GrownPacked(h, size); } else { SameChunks(h, h'); }
    forall a ensures IntSizedAt(h', a) { assert IntSizedAt(h, a); }
  }

  /** A listed chunk at the break lies above all others. */
  lemma {:induction false} TopIsLast(h: Heap, e: nat)
    requires Packed(h) && e in h.chunks && End(h.chunks, e) == h.brk
    ensures forall a :: a in h.chunks && a != e ==> a < e && End(h.chunks, a) <= e
  {
    forall a | a in h.chunks && a != e
      ensures a < e && End(h.chunks, a) <= e
    {
      assert Inside(h, a);
      assert a < e ==> Before(h, a, e);
      assert e < a ==> Before(h, e, a);
    }
    assert Inside(h, e);
  }

  lemma {:induction false} ReleasePacked(h: Heap, i: nat)
    requires Packed(h) && i < |h.free| && h.free[i] in h.chunks && End(h.chunks, h.free[i]) == h.brk
    ensures Packed(Release(h, i)) && (Roomy(h) ==> Roomy(Release(h, i)))
  {
    var h' := Release(h, i);
    TopIsLast(h, h.free[i]);
    assert Inside(h, h.free[i]);
    forall a | a in h'.chunks ensures Inside(h', a) && (Roomy(h) ==> RoomyAt(h', a)) {
      assert Inside(h, a);
      assert Roomy(h) ==> RoomyAt(h, a);
    }
    forall a, b | a in h'.chunks && b in h'.chunks && a < b ensures Before(h', a, b) { assert Before(h, a, b); }
  }

  /** Releasing the top chunk leaves no gap exactly when its size, with the length field, is an
      int or the negative of one. */
  lemma {:induction false} ReleaseLeavesNoGapIff(h: Heap, i: nat)
    requires Packed(h) && NoGap(h) && i < |h.free| && h.free[i] in h.chunks && End(h.chunks, h.free[i]) == h.brk
    ensures NoGap(Release(h, i)) <==> LEN_SIZE + h.chunks[h.free[i]] <= INT_MAX + 1
  {
    var e, h' := h.free[i], Release(h, i);
    TopIsLast(h, e);
    ShrinkageExact(h.chunks[e]);
    ReleasePacked(h, i);
    assert Inside(h, e);
    if h'.brk == e {
      forall a | a in h'.chunks ensures Adjoined(h', a) { assert Adjoined(h, a); }
    } else {
      GapBelowBreak(h', e);
    }
  }

  /** The break comes down to the chunk exactly then. */
  lemma {:induction false} ShrinkageExact(chunkSize: nat)
    ensures Shrinkage(chunkSize) == LEN_SIZE + chunkSize <==> LEN_SIZE + chunkSize <= INT_MAX + 1
  {
  }

  lemma {:induction false} GapBelowBreak(h: Heap, e: nat)
    requires Packed(h) && h.base <= e < h.brk && forall a :: a in h.chunks ==> a < e && End(h.chunks, a) <= e
    ensures !NoGap(h)
  {
    if NoGap(h) { var a := EveryByteInOneChunk(h, e); }
  }

  lemma {:induction false} ReleaseListing(h: Heap, i: nat)
    requires Listing(h) && LiveIn(h) && i < |h.free| && End(h.chunks, h.free[i]) == h.brk
    ensures Listing(Release(h, i)) && LiveIn(Release(h, i))
    ensures Sized(h) ==> Sized(Release(h, i))
    ensures IntSized(h) ==> IntSized(Release(h, i))
  {
    var h', f := Release(h, i), h.free[i + 1..];
    forall k | 0 <= k < |f| ensures f[k] == h.free[i + 1 + k] && f[k] != h.free[i] {}
    forall a ensures Sized(h) ==> SizedAt(h', a) { assert Sized(h) ==> SizedAt(h, a); }
    forall a ensures IntSized(h) ==> IntSizedAt(h', a) { assert IntSized(h) ==> IntSizedAt(h, a); }
  }

  predicate IsSuffix(s: seq<nat>, t: seq<nat>) { |t| <= |s| && t == s[|s| - |t|..] }

  ghost predicate Listed(h: Heap, a: nat) { a in h.free }

  /** The heap after trimming: all that was released was listed, and the rest is as it was. */
  ghost predicate Trimmed(h: Heap, h': Heap) {
    && h'.live == h.live && h'.base == h.base && IsSuffix(h.free, h'.free)
    && (forall a :: a in h'.chunks ==> a in h.chunks && h'.chunks[a] == h.chunks[a])
    && (forall a :: a in h.chunks && a !in h'.chunks ==> Listed(h, a))
  }

  lemma {:induction false} SuffixTwice(s: seq<nat>, i: nat, t: seq<nat>)
    requires i < |s| && IsSuffix(s[i + 1..], t)
    ensures IsSuffix(s, t)
  {
  }

  lemma {:induction false} StillListed(h: Heap, i: nat, a: nat)
    requires i < |h.free| && a in h.free[i + 1..]
    ensures Listed(h, a)
  {
  }

  lemma {:induction false} TrimmedOne(h: Heap, i: nat, h': Heap)
    requires i < |h.free| && h.free[i] in h.chunks && End(h.chunks, h.free[i]) == h.brk
    requires Trimmed(Release(h, i), h')
    ensures Trimmed(h, h')
  {
    SuffixTwice(h.free, i, h'.free);
    forall a | a in h.chunks && a !in h'.chunks ensures Listed(h, a) {
      if a != h.free[i] {
        assert Listed(Release(h, i), a);
        StillListed(h, i, a);
      }
    }
  }

  /** Trimming keeps the invariants, whatever the sizes, and ends when no listed chunk ends at
      the break. */
  lemma {:induction false} TrimInv(h: Heap)
    requires Inv(h)
    ensures Inv(Trim(h)) && Trimmed(h, Trim(h)) && TopIndex(Trim(h)) == |Trim(h).free|
    ensures Sized(h) ==> Sized(Trim(h))
    decreases |h.free|
  {
    var i := TopIndex(h);
    if i < |h.free| {
      ReleasePacked(h, i);
      ReleaseListing(h, i);
      TrimInv(Release(h, i));
      TrimmedOne(h, i, Trim(h));
    }
  }

  /** In a regular heap it releases exactly the chunks above the new break. */
  lemma {:induction false} TrimRegular(h: Heap)
    requires Inv(h) && Regular(h)
    ensures var h' := Trim(h);
            Regular(h') && h'.brk <= h.brk && forall a :: a in h'.chunks <==> a in h.chunks && a < h'.brk
    decreases |h.free|
  {
    var i := TopIndex(h);
    if i == |h.free| {
      forall a | a in h.chunks ensures a < h.brk { assert Inside(h, a); }
    } else {
      var e := h.free[i];
      assert IntSizedAt(h, e);
      ReleasePacked(h, i);
      ReleaseListing(h, i);
      ReleaseLeavesNoGapIff(h, i);
      ShrinkageExact(h.chunks[e]);
      TopIsLast(h, e);
      TrimRegular(Release(h, i));
    }
  }

  /** Freeing takes exactly the freed chunk out of use, and releases no chunk in use. */
  lemma {:induction false} FreeInv(h: Heap, ptr: nat)
    requires Inv(h) && (ptr == 0 || (ptr >= LEN_SIZE && ptr - LEN_SIZE in h.live))
    ensures var h' := Free(h, ptr);
            && Inv(h') && (Sized(h) ==> Sized(h')) && (Regular(h) ==> Regular(h') && h'.brk <= h.brk)
            && (ptr != 0 ==> h'.live == h.live - {ptr - LEN_SIZE})
            && (forall a :: a in h'.live ==> a in h.chunks && h'.chunks[a] == h.chunks[a])
  {
    if ptr != 0 {
      var h1 := Unlist(h, ptr - LEN_SIZE);
      UnlistInv(h, ptr - LEN_SIZE);
      TrimInv(h1);
      if Regular(h) { TrimRegular(h1); }
    }
  }

  lemma {:induction false} UnlistInv(h: Heap, p: nat)
    requires Inv(h) && p in h.live
    ensures Inv(Unlist(h, p)) && (Sized(h) ==> Sized(Unlist(h, p))) && (Regular(h) ==> Regular(Unlist(h, p)))
  {
    var h', f := Unlist(h, p), [p] + h.free;
    forall i, j | 0 <= i < j < |f| ensures f[i] != f[j] { assert f[j] == h.free[j - 1]; }
    forall k | 0 <= k < |f| ensures f[k] in h.chunks && f[k] !in h.live - {p} {}
    SameChunks(h, h');
    forall a ensures Sized(h) ==> SizedAt(h', a) { assert Sized(h) ==> SizedAt(h, a); }
  }

  // ----- sizes, requests and frees spelled out -----

  /** The same number to a machine that keeps numbers modulo n. */
  predicate SameModulo(x: int, y: int, n: nat) { n > 0 && (x - y) % n == 0 }

  predicate IsInt(x: int) { -0x8000_0000 <= x <= 0x7fff_ffff }

  lemma {:induction false} AddRanges(x: int, k: int)
    ensures (x + k * 0x1_0000_0000) % 0x1_0000_0000 == x % 0x1_0000_0000
  {
  }

  lemma {:induction false} ToIntWraps(x: nat)
    ensures IsInt(ToInt(x)) && SameModulo(ToInt(x), x, 0x1_0000_0000)
  {
    var q := x / INT_RANGE;
    assert x == q * INT_RANGE + x % INT_RANGE;
    AddRanges(0, -q);
    AddRanges(0, -q - 1);
  }

  lemma {:induction false} HoleSizeWraps(chunkSize: Size, size: Size)
    ensures IsInt(HoleSize(chunkSize, size)) && SameModulo(HoleSize(chunkSize, size), chunkSize - size, 0x1_0000_0000)
  {
    var d := chunkSize as int - size as int;
    var x := d % SIZE_RANGE;
    assert x == if d >= 0 then d else d + SIZE_RANGE;
    ToIntWraps(x);
    AddRanges(ToInt(x) - x, 0x1_0000_0000);
  }

  lemma {:induction false} ShrinkageWraps(chunkSize: Size)
    ensures SameModulo(Shrinkage(chunkSize), chunkSize + 8, 0x1_0000_0000)
    ensures -0x8000_0000 < Shrinkage(chunkSize) <= 0x8000_0000
  {
    ToIntWraps(LEN_SIZE + chunkSize);
    AddRanges(ToInt(LEN_SIZE + chunkSize) - (chunkSize + 8), 1);
  }

  lemma {:induction false} IncrementWraps(size: Size)
    ensures SameModulo(Increment(size), size + 24, 0x1_0000_0000_0000_0000)
    ensures -0x8000_0000_0000_0000 <= Increment(size) <= 0x7fff_ffff_ffff_ffff
  {
  }

  lemma {:induction false} NewChunkWraps(size: Size)
    ensures SameModulo(NewChunkSize(size), size + 16, 0x1_0000_0000_0000_0000)
  {
  }

  /** The sizes the code works with are the sizes of the memory layout as far as 64 bits, or the 32
      of an int, hold them: 24 bytes for the header of a listed chunk, 8 of them for the length. */
  lemma {:induction false} SizesWrap(chunkSize: Size, size: Size)
    ensures SameModulo(Increment(size), size + 24, 0x1_0000_0000_0000_0000)
    ensures -0x8000_0000_0000_0000 <= Increment(size) <= 0x7fff_ffff_ffff_ffff
    ensures SameModulo(NewChunkSize(size), size + 16, 0x1_0000_0000_0000_0000)
    ensures IsInt(HoleSize(chunkSize, size)) && SameModulo(HoleSize(chunkSize, size), chunkSize - size, 0x1_0000_0000)
    ensures SameModulo(Shrinkage(chunkSize), chunkSize + 8, 0x1_0000_0000)
    ensures -0x8000_0000 < Shrinkage(chunkSize) <= 0x8000_0000
  {
    IncrementWraps(size);
    NewChunkWraps(size);
    HoleSizeWraps(chunkSize, size);
    ShrinkageWraps(chunkSize);
  }

  /** The first of the smallest listed chunks of at least this size is at position b. */
  ghost predicate Fittest(h: Heap, size: nat, b: nat)
    requires AllIn(h.free, h.chunks)
  {
    && b < |h.free| && h.chunks[h.free[b]] >= size
    && (forall k :: 0 <= k < |h.free| && h.chunks[h.free[k]] >= size ==> h.chunks[h.free[b]] <= h.chunks[h.free[k]])
    && (forall k :: 0 <= k < b && h.chunks[h.free[k]] >= size ==> h.chunks[h.free[b]] < h.chunks[h.free[k]])
  }

  /** Where an int-sized request is placed: in the first of the smallest listed chunks that hold
      it, which leaves the list together with all ahead of it, or, if none does, in a new chunk at
      the break with room for the two links. */
  lemma {:induction false} MallocPlaces(h: Heap, size: Size) returns (b: int)
    requires Inv(h) && IntSized(h) && size <= MAX_REQUEST
    ensures b == -1 <==> forall k :: 0 <= k < |h.free| ==> h.chunks[h.free[k]] < size
    ensures var (r, h') := Malloc(h, size);
            if b >= 0 then
              && Fittest(h, size, b) && r == Served(h.free[b] + 8)
              && h' == h.(free := h.free[b + 1..], live := h.live[h.free[b] := size])
            else
              && b == -1 && r == Served(h.brk + 8)
              && h' == h.(brk := h.brk + size + 24, chunks := h.chunks[h.brk := size + 16],
                          live := h.live[h.brk := size])
  {
    forall k | 0 <= k < |h.free| ensures h.chunks[h.free[k]] <= INT_MAX { assert IntSizedAt(h, h.free[k]); }
    BestFit(h.free, h.chunks, size);
    b := Best(h.free, h.chunks, size);
    if b == -1 { GrownIsExtended(h, size); }
  }

  /** No listed chunk ends at the break. */
  predicate NoneAtBreak(h: Heap)
    requires AllIn(h.free, h.chunks)
  {
    forall k :: 0 <= k < |h.free| ==> End(h.chunks, h.free[k]) != h.brk
  }

  /** What a free leaves listed: of the freed chunk and the list behind it an end part, of which no
      chunk ends at the break; all of it, and the heap otherwise as it was, exactly if none of them
      ended at the break before. */
  lemma {:induction false} FreeLists(h: Heap, ptr: nat)
    requires Inv(h) && ptr >= LEN_SIZE && ptr - LEN_SIZE in h.live
    ensures var h1, h' := h.(free := [ptr - 8] + h.free, live := h.live - {ptr - 8}), Free(h, ptr);
            && Inv(h1) && Inv(h') && IsSuffix(h1.free, h'.free) && NoneAtBreak(h')
            && (h'.free == h1.free <==> NoneAtBreak(h1)) && (NoneAtBreak(h1) ==> h' == h1)
  {
    UnlistInv(h, ptr - LEN_SIZE);
    TrimLists(Unlist(h, ptr - LEN_SIZE));
  }

  lemma {:induction false} TrimLists(h: Heap)
    requires Inv(h)
    ensures var h' := Trim(h);
            && Inv(h') && IsSuffix(h.free, h'.free) && NoneAtBreak(h')
            && (h'.free == h.free <==> NoneAtBreak(h)) && (NoneAtBreak(h) ==> h' == h)
  {
    TrimInv(h);
    TopIndexNone(h);
    TopIndexNone(Trim(h));
    TrimShortens(h);
  }

  lemma {:induction false} TopIndexNone(h: Heap)
    requires AllIn(h.free, h.chunks)
    ensures TopIndex(h) == |h.free| <==> NoneAtBreak(h)
  {
    var i := TopIndex(h);
    if i < |h.free| { assert End(h.chunks, h.free[i]) == h.brk; }
  }

  lemma {:induction false} TrimShortens(h: Heap)
    requires Inv(h)
    ensures Trim(h).free == h.free <==> TopIndex(h) == |h.free|
    ensures Trim(h).free == h.free ==> Trim(h) == h
  {
    var i := TopIndex(h);
    if i < |h.free| {
      ReleasePacked(h, i);
      ReleaseListing(h, i);
      TrimInv(Release(h, i));
      assert |Release(h, i).free| < |h.free|;
    }
  }
}
