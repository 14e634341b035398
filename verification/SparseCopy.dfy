/** A copy that writes runs of non-NUL bytes and seeks over runs of NUL bytes (exercise 4-2). */
module SparseCopy {
  import opened Files

  /** The length of s without the NUL bytes at its end. */
  function Trimmed(s: seq<Byte>): (n: nat)
    ensures n <= |s|
  {
    if s == [] then 0 else if s[|s| - 1] != NUL then |s| else Trimmed(s[..|s| - 1])
  }

  function Max(a: nat, b: nat): nat { if a < b then b else a }

  /** What copying src over a destination that holds d leaves there: NUL bytes of src change
      nothing, and nothing is cut off. */
  function Overlay(src: seq<Byte>, d: seq<Byte>): seq<Byte> {
    seq(Max(|d|, Trimmed(src)), i requires 0 <= i => ByteAt(src, d, i))
  }

  function ByteAt(src: seq<Byte>, d: seq<Byte>, i: nat): Byte {
    if i < |src| && src[i] != NUL then src[i] else if i < |d| then d[i] else NUL
  }

  lemma {:induction false} TrimmedMeaning(s: seq<Byte>)
    ensures Trimmed(s) > 0 ==> s[Trimmed(s) - 1] != NUL
    ensures forall i :: Trimmed(s) <= i < |s| ==> s[i] == NUL
  {
    if s != [] && s[|s| - 1] == NUL { TrimmedMeaning(s[..|s| - 1]); }
  }

  /** Copying a run without NUL bytes. */
  lemma {:induction false} OverlayRun(src: seq<Byte>, run: seq<Byte>, d: seq<Byte>)
    requires forall i :: 0 <= i < |run| ==> run[i] != NUL
    ensures Overlay(src + run, d) == Written(Overlay(src, d), |src|, run)
  {
    if run == [] {
      assert src + run == src;
    } else {
      var whole := src + run;
      assert whole[|whole| - 1] == run[|run| - 1];
      assert Trimmed(whole) == |whole|;
      TrimmedMeaning(src);
      var a, o := Overlay(whole, d), Overlay(src, d);
      var b := Written(o, |src|, run);
      assert |a| == |b|;
      forall i | 0 <= i < |a| ensures a[i] == b[i] {
        assert a[i] == ByteAt(whole, d, i);
        WrittenAt(o, |src|, run, i);
      }
    }
  }

  /** A byte of a file after a write. */
  lemma {:induction false} WrittenAt(data: seq<Byte>, at: nat, bytes: seq<Byte>, i: nat)
    requires bytes != [] && i < |Written(data, at, bytes)|
    ensures Written(data, at, bytes)[i] ==
            if at <= i < at + |bytes| then bytes[i - at] else if i < |data| then data[i] else NUL
  {
  }

  /** Skipping a run of NUL bytes. */
  lemma {:induction false} OverlayHole(src: seq<Byte>, hole: seq<Byte>, d: seq<Byte>)
    requires forall i :: 0 <= i < |hole| ==> hole[i] == NUL
    ensures Trimmed(src + hole) == Trimmed(src) && Overlay(src + hole, d) == Overlay(src, d)
    decreases |hole|
  {
    if hole == [] {
      assert src + hole == src;
    } else {
      assert (src + hole)[..|src + hole| - 1] == src + hole[..|hole| - 1];
      OverlayHole(src, hole[..|hole| - 1], d);
    }
  }

  /** The end of the run from `index` on of bytes that are NUL, or are not. */
  method SkipRun(buffer: array<Byte>, start: nat, rbytes: nat, nul: bool) returns (index: nat)
    requires start <= rbytes <= buffer.Length
    ensures start <= index <= rbytes
    ensures forall i :: start <= i < index ==> (buffer[i] == NUL) == nul
    ensures index < rbytes ==> (buffer[index] == NUL) != nul
  {
    index := start;
    while index < rbytes && (buffer[index] == NUL) == nul
      invariant start <= index <= rbytes
      invariant forall i :: start <= i < index ==> (buffer[i] == NUL) == nul
    {
      index := index + 1;
    }
  }

  lemma {:induction false} Extend(done: seq<Byte>, b: seq<Byte>, i: nat, j: nat)
    requires i <= j <= |b|
    ensures done + b[..i] + b[i..j] == done + b[..j]
  {
  }

  /** A run of non-NUL bytes, then a run of NUL bytes. */
  lemma {:induction false} RunThenHole(src: seq<Byte>, run: seq<Byte>, hole: seq<Byte>, d: seq<Byte>)
    requires forall x :: 0 <= x < |run| ==> run[x] != NUL
    requires forall x :: 0 <= x < |hole| ==> hole[x] == NUL
    ensures Overlay(src + run + hole, d) == Written(Overlay(src, d), |src|, run)
  {
    OverlayRun(src, run, d);
    OverlayHole(src + run, hole, d);
  }

  /** In a batch, a run from i to j and a hole from there to k. */
  lemma {:induction false} BatchStep(done: seq<Byte>, b: seq<Byte>, i: nat, j: nat, k: nat, d: seq<Byte>)
    requires i <= j <= k <= |b| && (forall x :: i <= x < j ==> b[x] != NUL) && (forall x :: j <= x < k ==> b[x] == NUL)
    ensures Overlay(done + b[..k], d) == Written(Overlay(done + b[..i], d), |done| + i, b[i..j])
  {
    Extend(done, b, i, j);
    Extend(done, b, j, k);
    RunThenHole(done + b[..i], b[i..j], b[j..k], d);
  }

  /** Writes one batch: a run of non-NUL bytes, then over a run of NUL bytes, and so on. */
  method CopyBatch(buffer: array<Byte>, rbytes: nat, dest: Destination, ghost done: seq<Byte>, ghost d: seq<Byte>)
    requires rbytes <= buffer.Length && dest.offset == |done| && dest.data == Overlay(done, d)
    modifies dest
    ensures dest.offset == |done| + rbytes && dest.data == Overlay(done + buffer[..rbytes], d)
  {
    var index := 0;
    assert done + buffer[..0] == done;
    while index < rbytes
      invariant 0 <= index <= rbytes && dest.offset == |done| + index
      invariant dest.data == Overlay(done + buffer[..index], d)
    {
      ghost var start := index;
      var offset := index;
      index := SkipRun(buffer, offset, rbytes, false);
      dest.Write(buffer[offset..index]);
      offset := index;
      index := SkipRun(buffer, offset, rbytes, true);
      dest.SeekForward(index - offset);
      BatchStep(done, buffer[..], start, offset, index, d);
    }
  }

  /** The whole copy, for any batch size and any split of the reads. */
  method Copy(source: Source, dest: Destination, batchSize: nat)
    requires batchSize >= 1 && source.offset == 0 && dest.offset == 0
    modifies source, dest
    ensures dest.data == Overlay(source.content, old(dest.data))
  {
    ghost var d := dest.data;
    var buffer := new Byte[batchSize];
    var rbytes := source.ReadSome(buffer, batchSize);
    assert Overlay([], d) == d;
    ghost var done: seq<Byte> := [];
    while rbytes > 0
      invariant 0 <= rbytes <= batchSize && |done| + rbytes == source.offset <= |source.content|
      invariant done == source.content[..|done|]
      invariant rbytes > 0 ==> buffer[..rbytes] == source.content[|done|..source.offset]
      invariant rbytes == 0 ==> source.offset == |source.content|
      invariant dest.offset == |done| && dest.data == Overlay(done, d)
      decreases |source.content| - |done|
    {
      CopyBatch(buffer, rbytes, dest, done, d);
      done := done + buffer[..rbytes];
      rbytes := source.ReadSome(buffer, batchSize);
    }
    assert source.content[..|done|] == source.content;
  }

  /** Into an empty destination the copy is the source without the NUL bytes at its end; the
      holes inside read back as NUL bytes. */
  lemma {:induction false} CopyIntoEmpty(src: seq<Byte>)
    ensures Overlay(src, []) == src[..Trimmed(src)]
    ensures Overlay(src, []) + Zeros(|src| - Trimmed(src)) == src
  {
    TrimmedMeaning(src);
    ZeroTail(src, Trimmed(src));
    OverlayPrefix(src, [], Overlay(src, []));
  }

  lemma {:induction false} OverlayPrefix(src: seq<Byte>, d: seq<Byte>, o: seq<Byte>)
    requires d == [] && |o| <= |src| && forall i :: 0 <= i < |o| ==> o[i] == ByteAt(src, d, i)
    ensures o == src[..|o|]
  {
  }

  lemma {:induction false} ZeroTail(s: seq<Byte>, t: nat)
    requires t <= |s| && forall i :: t <= i < |s| ==> s[i] == NUL
    ensures s[..t] + Zeros(|s| - t) == s
  {
    var z := Zeros(|s| - t);
    forall i | 0 <= i < |s| ensures (s[..t] + z)[i] == s[i] {}
  }

  /** The copy equals the source exactly when the destination is not longer, reaches over the
      NUL bytes at the end of the source, and is NUL wherever the source is. */
  lemma {:induction false} CopyIsExact(src: seq<Byte>, d: seq<Byte>)
    ensures Overlay(src, d) == src <==>
            && |d| <= |src| && (Trimmed(src) == |src| || |d| == |src|)
            && forall i :: 0 <= i < |d| ==> src[i] == NUL ==> d[i] == NUL
  {
    TrimmedMeaning(src);
    var o := Overlay(src, d);
    if o == src {
      forall i | 0 <= i < |d| && src[i] == NUL ensures d[i] == NUL { assert o[i] == ByteAt(src, d, i); }
    }
  }
}
