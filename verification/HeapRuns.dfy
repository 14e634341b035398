/** Runs of requests and frees from an empty heap: what all of them keep, and what goes wrong
    in some. */
module HeapRuns {
  import opened HeapModel

  datatype Op = OpMalloc(size: Size) | OpFree(ptr: nat)

  /** A program frees what it was given and has not freed since, or NULL; it does not go on after a fault. */
  predicate Allowed(h: Heap, op: Op)
    requires AllIn(h.free, h.chunks)
  {
    match op
    case OpMalloc(size) => Malloc(h, size).0.Served?
    case OpFree(ptr) => ptr == 0 || (ptr >= LEN_SIZE && ptr - LEN_SIZE in h.live)
  }

  function Apply(h: Heap, op: Op): Heap
    requires Inv(h) && Allowed(h, op)
  {
    match op
    case OpMalloc(size) => Malloc(h, size).1
    case OpFree(ptr) => Free(h, ptr)
  }

  lemma {:induction false} ApplyInv(h: Heap, op: Op)
    requires Inv(h) && Allowed(h, op)
    ensures Inv(Apply(h, op)) <==> !(op.OpMalloc? && Overflows(h, op.size))
    ensures Regular(h) && SmallRequest(op) ==> Inv(Apply(h, op)) && Regular(Apply(h, op))
  {
    match op
    case OpMalloc(size) =>
      MallocInv(h, size);
      if Regular(h) && SmallRequest(op) { MallocRegular(h, size); }
    case OpFree(ptr) => FreeInv(h, ptr);
  }

  predicate SmallRequest(op: Op) { op.OpMalloc? ==> op.size <= MAX_REQUEST }

  predicate SmallRequests(ops: seq<Op>) { forall k :: 0 <= k < |ops| ==> SmallRequest(ops[k]) }

  predicate FittingRequest(op: Op) { op.OpMalloc? ==> Fits(op.size) }

  predicate FittingRequests(ops: seq<Op>) { forall k :: 0 <= k < |ops| ==> FittingRequest(ops[k]) }

  /** Runs ops from h; stops at an op that is not allowed, and when the heap is no longer in order. */
  function Run(h: Heap, ops: seq<Op>): Heap
    requires Inv(h)
    decreases |ops|
  {
    if ops == [] || !Allowed(h, ops[0]) then h
    else
      var h' := Apply(h, ops[0]);
      if Inv(h') then Run(h', ops[1..]) else h'
  }

  /** The run comes to a request that overflows. */
  predicate Overruns(h: Heap, ops: seq<Op>)
    requires Inv(h)
    decreases |ops|
  {
    && ops != [] && Allowed(h, ops[0])
    && ((ops[0].OpMalloc? && Overflows(h, ops[0].size)) ||
        (Inv(Apply(h, ops[0])) && Overruns(Apply(h, ops[0]), ops[1..])))
  }

  lemma {:induction false} RunInv(h: Heap, ops: seq<Op>)
    requires Inv(h)
    ensures Inv(Run(h, ops)) <==> !Overruns(h, ops)
    ensures Regular(h) && SmallRequests(ops) ==> Inv(Run(h, ops)) && Regular(Run(h, ops))
    decreases |ops|
  {
    if ops != [] && Allowed(h, ops[0]) {
      ApplyInv(h, ops[0]);
      if Inv(Apply(h, ops[0])) { RunInv(Apply(h, ops[0]), ops[1..]); }
    }
  }

  lemma {:induction false} FittingNeverOverrun(h: Heap, ops: seq<Op>)
    requires Inv(h) && FittingRequests(ops)
    ensures !Overruns(h, ops)
    decreases |ops|
  {
    if ops != [] && Allowed(h, ops[0]) {
      assert FittingRequest(ops[0]);
      ApplyInv(h, ops[0]);
      FittingNeverOverrun(Apply(h, ops[0]), ops[1..]);
    }
  }

  ghost predicate InChunk(h: Heap, x: nat) { exists a :: a in h.chunks && a <= x < End(h.chunks, a) }

  /** The two words that freeing the chunk at a writes: a link back and a link on. */
  predicate InLinks(a: nat, x: nat) { a + LEN_SIZE <= x < a + FREE_L_SIZE }

  /** The chunks in use lie below the break and do not overlap, the free list repeats nothing and
      lists no chunk in use, and freeing a chunk writes only inside that chunk. */
  ghost predicate Safe(h: Heap) {
    && (forall a, b :: a in h.live && b in h.live && a < b ==> a in h.chunks && End(h.chunks, a) <= b)
    && (forall a :: a in h.live ==> a in h.chunks && h.base <= a && End(h.chunks, a) <= h.brk)
    && Distinct(h.free) && (forall k :: 0 <= k < |h.free| ==> h.free[k] !in h.live)
    && (forall a, x: nat :: a in h.live && InLinks(a, x) ==> x < End(h.chunks, a))
  }

  lemma {:induction false} InvIsSafe(h: Heap)
    requires Inv(h)
    ensures Safe(h)
  {
    forall a, b | a in h.live && b in h.live && a < b ensures End(h.chunks, a) <= b { ChunksDisjoint(h, a, b); }
    forall a | a in h.live
      ensures h.base <= a && End(h.chunks, a) <= h.brk && End(h.chunks, a) >= a + FREE_L_SIZE
    {
      assert Inside(h, a) && RoomyAt(h, a);
    }
  }

  /** Every run of requests that do not wrap, and of frees, is safe. Any other run keeps the heap in
      order exactly as long as no request overflows. */
  lemma {:induction false} EveryRunIsSafe(base: nat, ops: seq<Op>)
    requires base > 0
    ensures var h := Run(Start(base), ops);
            && (FittingRequests(ops) ==> Inv(h))
            && (Inv(h) <==> !Overruns(Start(base), ops))
            && (Inv(h) ==> h.base == base && Safe(h))
  {
    var h := Run(Start(base), ops);
    RunInv(Start(base), ops);
    if FittingRequests(ops) { FittingNeverOverrun(Start(base), ops); }
    if Inv(h) {
      RunBase(Start(base), ops);
      InvIsSafe(h);
    }
  }

  lemma {:induction false} RunBase(h: Heap, ops: seq<Op>)
    requires Inv(h)
    ensures Run(h, ops).base == h.base
    decreases |ops|
  {
    if ops != [] && Allowed(h, ops[0]) {
      ApplyInv(h, ops[0]);
      if ops[0].OpFree? && ops[0].ptr != 0 {
        UnlistInv(h, ops[0].ptr - LEN_SIZE);
        TrimInv(Unlist(h, ops[0].ptr - LEN_SIZE));
      }
      if Inv(Apply(h, ops[0])) { RunBase(Apply(h, ops[0]), ops[1..]); }
    }
  }

  /** In every run of int-sized requests each chunk in use is moreover as large as its request,
      and every byte up to the break lies in exactly one chunk. */
  lemma {:induction false} SmallRunsAreExact(base: nat, ops: seq<Op>, x: nat)
    requires base > 0 && SmallRequests(ops)
    ensures var h := Run(Start(base), ops);
            && Inv(h) && Regular(h)
            && (forall a :: a in h.live ==> a in h.chunks && h.live[a] <= h.chunks[a])
            && (h.base <= x < h.brk ==> InChunk(h, x))
  {
    var h := Run(Start(base), ops);
    RunInv(Start(base), ops);
    forall a | a in h.live ensures h.live[a] <= h.chunks[a] { assert SizedAt(h, a); }
    if h.base <= x < h.brk { var a := EveryByteInOneChunk(h, x); }
  }

  /** After any run of int-sized requests, the next request, of whatever size, is given a chunk
      that is large enough, in a heap still in order, exactly when it does not wrap and no listed
      chunk is a misfit for it. */
  lemma {:induction false} NextRequestSizedIff(base: nat, ops: seq<Op>, size: Size)
    requires base > 0 && SmallRequests(ops)
    ensures var h := Run(Start(base), ops);
            && Inv(h)
            && (Malloc(h, size).0.Served? && Inv(Malloc(h, size).1) && Sized(Malloc(h, size).1) <==>
                Fits(size) && forall k :: 0 <= k < |h.free| ==> !Misfit(h.chunks[h.free[k]], size))
  {
    RunInv(Start(base), ops);
    MallocSizedIff(Run(Start(base), ops), size);
  }

  // ----- runs that go wrong -----

  lemma {:induction false} RunCons(h: Heap, op: Op, rest: seq<Op>)
    requires Inv(h) && Allowed(h, op) && (op.OpMalloc? ==> !Overflows(h, op.size))
    ensures Inv(Apply(h, op)) && Run(h, [op] + rest) == Run(Apply(h, op), rest)
  {
    ApplyInv(h, op);
    assert ([op] + rest)[1..] == rest;
  }

  lemma {:induction false} RequestExtends(h: Heap, size: Size, rest: seq<Op>)
    requires Inv(h) && Fits(size) && Best(h.free, h.chunks, size) == -1
    ensures Inv(Extended(h, size)) && Run(h, [OpMalloc(size)] + rest) == Run(Extended(h, size), rest)
  {
    GrownIsExtended(h, size);
    RunCons(h, OpMalloc(size), rest);
  }

  /** Two chunks, the lower one of `size` bytes; the upper one keeps the break up. */
  function TwoChunks(base: nat, size: nat): Heap { Extended(Extended(Start(base), size), 1) }

  lemma {:induction false} AllocateTwo(base: nat, size: Size, rest: seq<Op>)
    requires base > 0 && Fits(size)
    ensures Inv(TwoChunks(base, size))
    ensures Run(Start(base), [OpMalloc(size)] + ([OpMalloc(1)] + rest)) == Run(TwoChunks(base, size), rest)
  {
    RequestExtends(Start(base), size, [OpMalloc(1)] + rest);
    RequestExtends(Extended(Start(base), size), 1, rest);
  }

  /** Freeing a chunk below one that is in use, on an empty list. */
  lemma {:induction false} FreeBelow(h: Heap, p: nat)
    requires Inv(h) && p in h.live && h.free == [] && End(h.chunks, p) != h.brk
    ensures Free(h, p + LEN_SIZE) == Unlist(h, p)
  {
    UnlistInv(h, p);
    assert Unlist(h, p).free == [p];
    assert TopIndex(Unlist(h, p)) == 1;
  }

  /** A request of 4 GiB is given a chunk of 40 bytes: it was freed below one in use. */
  lemma {:induction false} HugeRequestGetsSmallChunk(base: nat)
    requires base > 0
    ensures var h := Run(Start(base),
              [OpMalloc(24)] + ([OpMalloc(1)] + ([OpFree(base + LEN_SIZE)] + ([OpMalloc(INT_RANGE)] + []))));
            base in h.live && base in h.chunks && h.live[base] == INT_RANGE && h.chunks[base] == 40
  {
    var last := [OpMalloc(INT_RANGE)] + [];
    AllocateTwo(base, 24, [OpFree(base + LEN_SIZE)] + last);
    var h2 := TwoChunks(base, 24);
    FreeBelow(h2, base);
    RunCons(h2, OpFree(base + LEN_SIZE), last);
    var h3 := Unlist(h2, base);
    assert h3.free == [base] && h3.chunks[base] == 40;
    assert HoleSize(40, INT_RANGE) == 40;
    assert Best(h3.free, h3.chunks, INT_RANGE) == 0 by { assert Holes(h3.free, h3.chunks, INT_RANGE) == [40]; }
    RunCons(h3, OpMalloc(INT_RANGE), []);
  }

  /** Freeing a chunk of 2 GiB at the top raises the break, and leaves bytes that belong to no chunk. */
  lemma {:induction false} HugeFreeRaisesBreak(base: nat)
    requires base > 0
    ensures var h := Run(Start(base), [OpMalloc(INT_MAX + 1)] + []);
            var h' := Run(Start(base), [OpMalloc(INT_MAX + 1)] + ([OpFree(base + LEN_SIZE)] + []));
            h'.chunks == map[] && h'.brk > h.brk > h'.base
  {
    var h1 := Extended(Start(base), INT_MAX + 1);
    RequestExtends(Start(base), INT_MAX + 1, []);
    RequestExtends(Start(base), INT_MAX + 1, [OpFree(base + LEN_SIZE)] + []);
    RunCons(h1, OpFree(base + LEN_SIZE), []);
    var h2 := Unlist(h1, base);
    UnlistInv(h1, base);
    assert h2.free == [base] && TopIndex(h2) == 0;
    var h3 := Release(h2, 0);
    assert h3.free == [] && h3.chunks == map[];
    assert Trim(h2) == Trim(h3) == h3;
  }

  const WRAPPING: Size := SIZE_RANGE - 16

  /** A request of 2^64 - 16 bytes is given a chunk of none, and a request of 8 the chunk right
      behind its length field: freeing the first writes its links over the length field of the
      second, which is in use, and over the first word of its payload. */
  lemma {:induction false} WrappedRequestOverlaps(base: nat)
    requires base > 0
    ensures var (r1, h1) := Malloc(Start(base), WRAPPING); var (r2, h2) := Malloc(h1, 8);
            && r1 == Served(base + LEN_SIZE) && r2 == Served(base + 2 * LEN_SIZE)
            && base in h2.live && r2.ptr - LEN_SIZE in h2.live && InLinks(base, r2.ptr - LEN_SIZE)
            && InLinks(base, r2.ptr) && !Safe(h2)
            && Run(Start(base), [OpMalloc(WRAPPING)] + [OpMalloc(8)]) == h1 && !Inv(h1)
  {
    var h1 := Malloc(Start(base), WRAPPING).1;
    assert Increment(WRAPPING) == 8 && NewChunkSize(WRAPPING) == 0;
    assert h1 == Heap(base, base + 8, map[base := 0], [], map[base := WRAPPING]);
    FitsExactly(8);
    assert Malloc(h1, 8).1 == Extended(h1, 8);
    assert InLinks(base, base + 2 * LEN_SIZE);
    MallocInv(Start(base), WRAPPING);
    assert ([OpMalloc(WRAPPING)] + [OpMalloc(8)])[0] == OpMalloc(WRAPPING);
  }

  lemma {:induction false} NegativeRequest(h: Heap) returns (h': Heap)
    requires Inv(h) && h.free == [] && h.brk >= h.base + 8
    ensures Malloc(h, SIZE_RANGE - 32) == (Served(h.brk + LEN_SIZE), h') && !Inv(h')
    ensures h'.brk == h.brk - 8 && h'.live == h.live[h.brk := SIZE_RANGE - 32]
    ensures h'.chunks == h.chunks[h.brk := SIZE_RANGE - 16]
  {
    assert Increment(SIZE_RANGE - 32) == -8 && NewChunkSize(SIZE_RANGE - 32) == SIZE_RANGE - 16;
    h' := Malloc(h, SIZE_RANGE - 32).1;
    assert h' == Grown(h, SIZE_RANGE - 32);
    assert !Fits(SIZE_RANGE - 32) && !SbrkRefuses(h, SIZE_RANGE - 32);
    MallocInv(h, SIZE_RANGE - 32);
  }

  /** A request of 2^64 - 32 bytes lowers the break into a chunk in use. */
  lemma {:induction false} WrappedRequestLowersBreak(base: nat)
    requires base > 0
    ensures var h := Run(Start(base), [OpMalloc(1)] + ([OpMalloc(SIZE_RANGE - 32)] + []));
            base in h.live && base in h.chunks && base < h.brk < End(h.chunks, base) && !Inv(h)
  {
    var last := [OpMalloc(SIZE_RANGE - 32)] + [];
    var h1 := Extended(Start(base), 1);
    RequestExtends(Start(base), 1, last);
    var h2 := NegativeRequest(h1);
    assert h1.free == [] && h1.brk == base + 25;
    assert last[0] == OpMalloc(SIZE_RANGE - 32) && Allowed(h1, last[0]) && Apply(h1, last[0]) == h2;
    assert Run(h1, last) == h2;
  }

  /** A first request faults exactly when, with its header, it is a negative long. */
  lemma {:induction false} FirstRequestFaultsIff(base: nat, size: Size)
    ensures Malloc(Start(base), size).0 == Fault <==> !Fits(size) && size + FREE_L_SIZE < SIZE_RANGE
  {
    assert Best([], map[], size) == -1;
  }

  // ----- chunks that are lost -----

  /** Neither in use nor on the free list. */
  predicate Lost(h: Heap, a: nat) { a in h.chunks && a !in h.live && a !in h.free }

  /** A lost chunk stays lost in every run: it is never handed out again, and never released. */
  lemma {:induction false} LostForever(h: Heap, a: nat, ops: seq<Op>)
    requires Inv(h) && Lost(h, a)
    ensures Lost(Run(h, ops), a)
    decreases |ops|
  {
    if ops != [] && Allowed(h, ops[0]) {
      ApplyInv(h, ops[0]);
      LostStep(h, a, ops[0]);
      if Inv(Apply(h, ops[0])) { LostForever(Apply(h, ops[0]), a, ops[1..]); }
    }
  }

  lemma {:induction false} LostStep(h: Heap, a: nat, op: Op)
    requires Inv(h) && Lost(h, a) && Allowed(h, op)
    ensures Lost(Apply(h, op), a)
  {
    match op
    case OpMalloc(size) =>
      BreakIsFree(h);
      MallocKeepsLost(h, a, size);
    case OpFree(ptr) => if ptr != 0 { FreeKeepsLost(h, a, ptr - LEN_SIZE); }
  }

  lemma {:induction false} FreeKeepsLost(h: Heap, a: nat, p: nat)
    requires Inv(h) && Lost(h, a) && p in h.live
    ensures Lost(Free(h, p + LEN_SIZE), a)
  {
    var h1 := Unlist(h, p);
    UnlistInv(h, p);
    TrimInv(h1);
    StaysLost(h, a, p);
    TrimKeepsLost(h1, a, Trim(h1));
  }

  lemma {:induction false} StaysLost(h: Heap, a: nat, p: nat)
    requires Lost(h, a) && p in h.live
    ensures Lost(Unlist(h, p), a)
  {
  }

  lemma {:induction false} MallocKeepsLost(h: Heap, a: nat, size: Size)
    requires AllIn(h.free, h.chunks) && h.brk !in h.chunks && Lost(h, a)
    ensures Lost(Malloc(h, size).1, a)
  {
  }

  lemma {:induction false} TrimKeepsLost(h: Heap, a: nat, h': Heap)
    requires Trimmed(h, h') && Lost(h, a)
    ensures Lost(h', a)
  {
    assert !Listed(h, a);
    assert a !in h.free[|h.free| - |h'.free|..];
  }

  lemma {:induction false} ReuseLoses(h: Heap, size: nat, b: nat, a: nat)
    requires Listing(h) && !Lost(h, a) && b < |h.free|
    ensures Lost(Reused(h, size, b), a) <==> a in h.free[..b]
  {
    assert h.free == h.free[..b] + [h.free[b]] + h.free[b + 1..];
    forall j, k | 0 <= j < b < k < |h.free| ensures h.free[j] != h.free[k] && h.free[j] != h.free[b] {}
  }

  /** The chunks a request loses are exactly the listed ones ahead of the one it gets. */
  lemma {:induction false} MallocLoses(h: Heap, size: Size, a: nat)
    requires Listing(h) && !Lost(h, a) && h.brk !in h.chunks
    ensures var b := Best(h.free, h.chunks, size);
            Lost(Malloc(h, size).1, a) <==> b >= 0 && a in h.free[..b]
  {
    var b := Best(h.free, h.chunks, size);
    if b >= 0 {
      MallocReuses(h, size);
      ReuseLoses(h, size, b, a);
    } else {
      MallocGrows(h, size);
    }
  }

  /** Three chunks, of 24, 116 and 17 bytes. */
  function ThreeChunks(base: nat): Heap { Extended(Extended(Extended(Start(base), 8), 100), 1) }

  /** A run that loses a chunk: of three, the middle one is freed, then the lowest, which heads
      the list; a request that fits the middle one drops the lowest. */
  lemma {:induction false} LosingRun(base: nat)
    requires base > 0
    ensures var b := base + 32;
            var h := Run(Start(base), [OpMalloc(8)] + ([OpMalloc(100)] + ([OpMalloc(1)] +
                       ([OpFree(b + LEN_SIZE)] + ([OpFree(base + LEN_SIZE)] + ([OpMalloc(100)] + []))))));
            Lost(h, base) && h.chunks[base] == 24
  {
    var b := base + 32;
    var last := [OpMalloc(100)] + [];
    AllocateThree(base, [OpFree(b + LEN_SIZE)] + ([OpFree(base + LEN_SIZE)] + last));
    FreeMiddle(base, [OpFree(base + LEN_SIZE)] + last);
    FreeLowest(base, last);
    TakeMiddle(base);
  }

  function MiddleFree(base: nat): Heap { Unlist(ThreeChunks(base), base + 32) }

  function LowestFree(base: nat): Heap { Unlist(MiddleFree(base), base) }

  lemma {:induction false} FreeMiddle(base: nat, rest: seq<Op>)
    requires base > 0 && Inv(ThreeChunks(base))
    ensures Inv(MiddleFree(base))
    ensures Run(ThreeChunks(base), [OpFree(base + 32 + LEN_SIZE)] + rest) == Run(MiddleFree(base), rest)
  {
    FreeBelow(ThreeChunks(base), base + 32);
    RunCons(ThreeChunks(base), OpFree(base + 32 + LEN_SIZE), rest);
  }

  lemma {:induction false} FreeLowest(base: nat, rest: seq<Op>)
    requires base > 0 && Inv(MiddleFree(base))
    ensures Inv(LowestFree(base))
    ensures Run(MiddleFree(base), [OpFree(base + LEN_SIZE)] + rest) == Run(LowestFree(base), rest)
  {
    assert MiddleFree(base).free == [base + 32];
    FreeBelowTwo(MiddleFree(base), base, base + 32);
    RunCons(MiddleFree(base), OpFree(base + LEN_SIZE), rest);
  }

  lemma {:induction false} TakeMiddle(base: nat)
    requires base > 0 && Inv(LowestFree(base))
    ensures var h := Run(LowestFree(base), [OpMalloc(100)] + []); Lost(h, base) && h.chunks[base] == 24
  {
    var h := LowestFree(base);
    assert h.free == [base, base + 32] && h.chunks[base] == 24 && h.chunks[base + 32] == 116;
    SearchTwo(h, base, base + 32);
    MallocReuses(h, 100);
    RunCons(h, OpMalloc(100), []);
    assert Reused(h, 100, 1).free == [];
  }

  lemma {:induction false} AllocateThree(base: nat, rest: seq<Op>)
    requires base > 0
    ensures Inv(ThreeChunks(base))
    ensures Run(Start(base), [OpMalloc(8)] + ([OpMalloc(100)] + ([OpMalloc(1)] + rest))) == Run(ThreeChunks(base), rest)
  {
    var h1 := Extended(Start(base), 8);
    RequestExtends(Start(base), 8, [OpMalloc(100)] + ([OpMalloc(1)] + rest));
    RequestExtends(h1, 100, [OpMalloc(1)] + rest);
    RequestExtends(Extended(h1, 100), 1, rest);
  }

  lemma {:induction false} FreeBelowTwo(h: Heap, p: nat, q: nat)
    requires Inv(h) && p in h.live && h.free == [q] && q in h.chunks && p != q
    requires End(h.chunks, p) != h.brk && End(h.chunks, q) != h.brk
    ensures Free(h, p + LEN_SIZE) == Unlist(h, p)
  {
    UnlistInv(h, p);
    assert Unlist(h, p).free == [p, q];
    assert TopIndex(Unlist(h, p).(free := [q])) == 1;
    assert [p, q][1..] == [q];
    assert TopIndex(Unlist(h, p)) == 2;
  }

  lemma {:induction false} SearchTwo(h: Heap, p: nat, q: nat)
    requires h.free == [p, q] && p in h.chunks && q in h.chunks && h.chunks[p] == 24 && h.chunks[q] == 116
    ensures Best(h.free, h.chunks, 100) == 1
  {
    NoSmallMisfit(24, 100);
    NoSmallMisfit(116, 100);
    assert Holes(h.free, h.chunks, 100) == [-76, 16];
    assert [-76, 16][..1] == [-76];
    assert FirstLeast([-76]) == -1;
  }
}
