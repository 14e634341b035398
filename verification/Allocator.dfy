/** The allocator over memory that is written in place: chunk headers, the links that a free
    chunk keeps in its payload, the head of the free list and the program break. Every call
    is proved to do to the heap what module HeapModel says. */
module Allocator {
  import opened HeapModel

  const NULL: nat := 0

  /** struct free_l; `previous` and `next` overlap the payload. */
  datatype Header = Header(chunkSize: nat, previous: nat, next: nat)

  class Allocator {
    const base: nat
    var head: nat
    var brk: nat
    var mem: map<nat, Header>
    ghost var free: seq<nat>
    ghost var live: map<nat, nat>

    ghost function Sizes(): (r: map<nat, nat>)
      reads this`mem
      ensures r.Keys == mem.Keys
    {
      map a | a in mem :: mem[a].chunkSize
    }

    ghost function Abs(): Heap
      reads this
    {
      Heap(base, brk, Sizes(), free, live)
    }

    /** The free list in memory is `free`, and no listed chunk has a back link. */
    ghost predicate Linked()
      reads this
    {
      && (forall k :: 0 <= k < |free| ==> free[k] in mem)
      && head == NodeAt(0)
      && (forall k :: 0 <= k < |free| ==> mem[free[k]].next == NodeAt(k + 1) && mem[free[k]].previous == NULL)
    }

    ghost function NodeAt(k: nat): nat
      reads this`free
    {
      if k < |free| then free[k] else NULL
    }

    ghost predicate Valid()
      reads this
    {
      Inv(Abs()) && Linked()
    }

    /** `start` is the program break before the first call. */
    constructor (start: nat)
      requires start > 0
      ensures Valid() && Abs() == Start(start)
    {
      base, brk, head := start, start, NULL;
      mem := map[];
      free, live := [], map[];
      new;
      assert Abs().chunks == map[];
    }

    /** Moves the break by `bytes` and returns the old one, unless it would go below the heap. */
    method Sbrk(bytes: int) returns (ok: bool, was: nat)
      requires base <= brk
      modifies this`brk
      ensures ok == (old(brk) + bytes >= base) && was == old(brk)
      ensures brk == if ok then old(brk) + bytes else old(brk)
    {
      ok, was := brk + bytes >= base, brk;
      if ok { brk := brk + bytes; }
    }

    /** Unlinks the entry through the links it holds. */
    method PopFromFreeList(entry: nat)
      requires entry in mem && (mem[entry].previous == NULL || mem[entry].previous in mem)
      requires mem[entry].next == NULL || mem[entry].next in mem
      modifies this`head, this`mem
      ensures Sizes() == old(Sizes())
      ensures head == if old(mem)[entry].previous == NULL then old(mem)[entry].next else old(head)
      ensures forall a :: a in mem && a != old(mem)[entry].previous ==> mem[a].next == old(mem)[a].next
      ensures forall a :: a in mem && a != old(mem)[entry].next ==> mem[a].previous == old(mem)[a].previous
      ensures old(mem)[entry].previous != NULL ==> mem[old(mem)[entry].previous].next == old(mem)[entry].next
      ensures old(mem)[entry].next != NULL ==> mem[old(mem)[entry].next].previous == old(mem)[entry].previous
    {
      var previous, next := mem[entry].previous, mem[entry].next;
      if previous == NULL {
        head := next;
      } else {
        mem := mem[previous := mem[previous].(next := next)];
      }
      if next != NULL {
        mem := mem[next := mem[next].(previous := previous)];
      }
    }

    /** Since no entry has a back link, unlinking the k-th leaves what follows it. */
    method Unlink(entry: nat, ghost k: nat)
      requires Linked() && NULL !in mem && Distinct(free) && k < |free| && entry == free[k]
      modifies this`head, this`mem, this`free
      ensures free == old(free)[k + 1..] && Linked() && Sizes() == old(Sizes())
    {
      PopFromFreeList(entry);
      free := free[k + 1..];
    }

    /** Walks the free list for the best fit, with an int for each hole and a long for the best. */
    method FindBest(size: nat) returns (best: nat)
      requires Linked() && NULL !in mem
      ensures var b := Best(free, Sizes(), size); best == if b == -1 then NULL else free[b]
    {
      best := NULL;
      var bestGap := LONG_MAX;
      var curr := head;
      ghost var holes := Holes(free, Sizes(), size);
      ghost var b, k := -1, 0;
      while curr != NULL
        invariant 0 <= k <= |free| && curr == NodeAt(k)
        invariant b == FirstLeast(holes[..k])
        invariant if b == -1 then best == NULL && bestGap == LONG_MAX else best == free[b] && bestGap == holes[b]
        decreases |free| - k
      {
        var holeSize := HoleSize(mem[curr].chunkSize, size);
        HoleAt(free, Sizes(), size, k);
        OneMore(holes, k);
        if holeSize < bestGap && holeSize >= 0 {
          bestGap := holeSize;
          best := curr;
          b := k;
        }
        curr := mem[curr].next;
        k := k + 1;
      }
      assert holes[..k] == holes;
    }

    /** Writes the header of a new chunk. */
    method AddChunk(entry: nat, chunkSize: nat, previous: nat, next: nat)
      requires Linked() && entry !in mem
      modifies this`mem
      ensures Linked() && Sizes() == old(Sizes())[entry := chunkSize]
    {
      mem := mem[entry := Header(chunkSize, previous, next)];
    }

    /** Extends the heap by a chunk in use, with blob_size as it wraps. */
    method NewChunk(size: Size, previous: nat, next: nat) returns (r: Reply)
      requires Linked() && brk !in mem && base <= brk
      modifies this
      ensures Linked()
      ensures if SbrkRefuses(old(Abs()), size) then r == Fault && Abs() == old(Abs())
              else r == Served(old(brk) + LEN_SIZE) && Abs() == Grown(old(Abs()), size)
    {
      var blobSize := BlobSize(size);
      var ok, entry := Sbrk(if blobSize <= LONG_MAX then blobSize else blobSize - SIZE_RANGE);
      if !ok { return Fault; }
      AddChunk(entry, if blobSize >= LEN_SIZE then blobSize - LEN_SIZE else blobSize - LEN_SIZE + SIZE_RANGE,
        previous, next);
      live := live[entry := size];
      r := Served(entry + LEN_SIZE);
      assert Sizes() == Grown(old(Abs()), size).chunks;
    }

    /** When no listed chunk passes the test. */
    method Extend(size: Size, previous: nat, next: nat) returns (r: Reply)
      requires Valid() && Best(free, Sizes(), size) == -1
      modifies this
      ensures Linked() && r == Malloc(old(Abs()), size).0 && Abs() == Malloc(old(Abs()), size).1
    {
      MallocGrows(Abs(), size);
      BreakIsFree(Abs());
      r := NewChunk(size, previous, next);
    }

    /** Takes the k-th listed chunk into use. */
    method TakeChunk(best: nat, size: nat, ghost k: nat)
      requires Linked() && NULL !in mem && Distinct(free) && k < |free| && best == free[k]
      modifies this
      ensures Linked() && Abs() == Reused(old(Abs()), size, k)
    {
      Unlink(best, k);
      live := live[best := size];
    }

    /** The links of a chunk that is not the first are whatever the memory holds. */
    method FindOrExtend(size: Size) returns (r: Reply)
      requires Valid()
      modifies this
      ensures Linked() && r == Malloc(old(Abs()), size).0 && Abs() == Malloc(old(Abs()), size).1
    {
      NullIsNoChunk(Abs());
      var best := FindBest(size);
      if best == NULL {
        var previous: nat, next: nat := *, *;
        r := Extend(size, previous, next);
      } else {
        MallocReuses(Abs(), size);
        TakeChunk(best, size, Best(free, Sizes(), size));
        r := Served(best + LEN_SIZE);
      }
    }

    /** Requests of every size. The heap is still in order exactly if the request does not overflow. */
    method CMalloc(size: Size) returns (r: Reply)
      requires Valid()
      modifies this
      ensures r == Malloc(old(Abs()), size).0 && Abs() == Malloc(old(Abs()), size).1
      ensures Valid() <==> !Overflows(old(Abs()), size)
    {
      MallocInv(Abs(), size);
      if head == NULL {
        NullIsNoChunk(Abs());
        assert free == [] && Holes(free, Sizes(), size) == [];
        r := Extend(size, NULL, NULL);
      } else {
        r := FindOrExtend(size);
      }
    }

    /** Puts the chunk at the head of the list; the old head gets no back link. */
    method Push(entry: nat)
      requires Valid() && entry in live
      modifies this`head, this`mem, this`free, this`live
      ensures Valid() && Abs() == Unlist(old(Abs()), entry)
    {
      UnlistInv(Abs(), entry);
      mem := mem[entry := mem[entry].(previous := NULL, next := head)];
      head := entry;
      free := [entry] + free;
      live := live - {entry};
      assert Sizes() == old(Sizes());
    }

    /** Looks for a listed chunk that ends at the break. */
    method FindTop() returns (entry: nat)
      requires Valid()
      ensures entry == NodeAt(TopIndex(Abs()))
    {
      NullIsNoChunk(Abs());
      entry := head;
      ghost var i := 0;
      while entry != NULL && brk != entry + LEN_SIZE + mem[entry].chunkSize
        invariant 0 <= i <= |free| && entry == NodeAt(i)
        invariant forall k :: 0 <= k < i ==> End(Sizes(), free[k]) != brk
        decreases |free| - i
      {
        entry := mem[entry].next;
        i := i + 1;
      }
      TopIndexUnique(Abs(), i);
    }

    /** sbrk(-blob_size), with an int for blob_size; the least int is its own negation. */
    method Shrink(entry: nat)
      requires Linked() && entry in mem && entry !in free && brk == End(Sizes(), entry)
      modifies this`brk, this`mem
      ensures Linked() && brk == old(brk) - Shrinkage(old(mem)[entry].chunkSize)
      ensures Sizes() == old(Sizes()) - {entry}
    {
      var blobSize := ToInt(LEN_SIZE + mem[entry].chunkSize);
      brk := if blobSize == -(INT_MAX as int) - 1 then brk + blobSize else brk - blobSize;
      mem := mem - {entry};
      assert forall k :: 0 <= k < |free| ==> free[k] != entry;
    }

    /** Takes the chunk off the list and gives it back to the system. */
    method ReleaseTop(entry: nat, ghost i: nat)
      requires Valid() && i == TopIndex(Abs()) && i < |free| && entry == free[i]
      modifies this`head, this`brk, this`mem, this`free
      ensures Valid() && Abs() == Release(old(Abs()), i)
    {
      ghost var h := Abs();
      ReleaseInv(h, i);
      NullIsNoChunk(h);
      ReleasedOnce(h, i);
      Unlink(entry, i);
      assert Sizes() == h.chunks && mem[entry].chunkSize == Sizes()[entry];
      Shrink(entry);
      assert Abs() == Release(h, i);
    }

    method CFree(ptr: nat)
      requires Valid() && (ptr == NULL || (ptr >= LEN_SIZE && ptr - LEN_SIZE in live))
      modifies this
      ensures Valid() && Abs() == Free(old(Abs()), ptr)
    {
      if ptr == NULL { return; }
      Push(ptr - LEN_SIZE);
      TrimTop();
    }

    /** The do-while loop of c_free. */
    method TrimTop()
      requires Valid()
      modifies this`head, this`brk, this`mem, this`free
      ensures Valid() && Abs() == Trim(old(Abs()))
    {
      ghost var goal := Trim(Abs());
      var found := true;
      while found
        invariant Valid() && Trim(Abs()) == goal && live == old(live)
        invariant !found ==> TopIndex(Abs()) == |free|
        decreases |free|, found
      {
        found := false;
        NullIsNoChunk(Abs());
        var entry := FindTop();
        if entry != NULL {
          found := true;
          ReleaseTop(entry, TopIndex(Abs()));
        }
      }
    }

    /** A caller may overwrite the payload of a chunk in use, and with it both links. */
    method WritePayload(ptr: nat, previous: nat, next: nat)
      requires Valid() && ptr >= LEN_SIZE && ptr - LEN_SIZE in live
      modifies this`mem
      ensures Valid() && Abs() == old(Abs())
    {
      var entry := ptr - LEN_SIZE;
      mem := mem[entry := mem[entry].(previous := previous, next := next)];
      assert Sizes() == old(Sizes());
    }
  }

  lemma {:induction false} ReleaseInv(h: Heap, i: nat)
    requires Inv(h) && i < |h.free| && End(h.chunks, h.free[i]) == h.brk
    ensures Inv(Release(h, i))
  {
    ReleasePacked(h, i);
    ReleaseListing(h, i);
  }

  lemma {:induction false} HoleAt(free: seq<nat>, chunks: map<nat, nat>, size: nat, k: nat)
    requires AllIn(free, chunks) && k < |free|
    ensures Holes(free, chunks, size)[k] == HoleSize(chunks[free[k]], size) < LONG_MAX
  {
  }

  lemma {:induction false} OneMore(holes: seq<int>, k: nat)
    requires k < |holes|
    ensures var b := FirstLeast(holes[..k]);
            FirstLeast(holes[..k + 1]) == if (b == -1 || holes[k] < holes[b]) && holes[k] >= 0 then k else b
  {
    assert holes[..k + 1][..k] == holes[..k];
  }

  lemma {:induction false} ReleasedOnce(h: Heap, i: nat)
    requires Distinct(h.free) && i < |h.free|
    ensures h.free[i] !in h.free[i + 1..]
  {
  }

  lemma {:induction false} TopIndexUnique(h: Heap, i: nat)
    requires AllIn(h.free, h.chunks) && i <= |h.free|
    requires i < |h.free| ==> End(h.chunks, h.free[i]) == h.brk
    requires forall k :: 0 <= k < i ==> End(h.chunks, h.free[k]) != h.brk
    ensures TopIndex(h) == i
  {
    var t := TopIndex(h);
    if t < i { assert false; }
  }
}
