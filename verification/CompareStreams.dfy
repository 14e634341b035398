/** A weighted pair stream compared with itself (exercise 3.72), for any weight. */
module CompareStreams {
  import opened PairStreams

  /** The weight of the n-th pair. */
  function W(w: Weight, n: nat): int { w(Nth(w, n)) }

  /** The streams compared start at positions m and n of the pair stream; `out` is what has
      been emitted. */
  datatype Compared = Compared(m: nat, n: nat, out: seq<int>)

  /** One round. Pairs are compared by their components, weights only when the pairs differ. */
  function Round(w: Weight, c: Compared): Compared {
    var p, q := Nth(w, c.m), Nth(w, c.n);
    if p.0 == q.0 && p.1 == q.1 then c.(n := c.n + 1)
    else if w(p) == w(q) then Compared(c.m + 1, c.n + 1, c.out + [w(p)])
    else if w(p) < w(q) then c.(m := c.m + 1)
    else c.(n := c.n + 1)
  }

  /** compare-streams ps ps, after r rounds. */
  function Rounds(w: Weight, r: nat): Compared {
    if r == 0 then Compared(0, 0, []) else Round(w, Rounds(w, r - 1))
  }

  /** The weights of positions below m that are followed by their equal. */
  function Repeats(w: Weight, m: nat): seq<int> {
    if m == 0 then [] else Repeats(w, m - 1) + (if W(w, m - 1) == W(w, m) then [W(w, m - 1)] else [])
  }

  /** When distinct pairs are compared the second stream is exactly one ahead; what has been
      emitted is exactly w_i for every i below m with w_i = w_(i+1), in order; and every two
      rounds the first stream moves on. */
  lemma {:induction false} OneAhead(w: Weight, r: nat)
    requires Ordered(w)
    ensures var c := Rounds(w, r);
            && (c.n == c.m || c.n == c.m + 1)
            && c.out == Repeats(w, c.m)
            && r <= 2 * c.m + (c.n - c.m)
    decreases r
  {
    if r > 0 {
      OneAhead(w, r - 1);
      var c := Rounds(w, r - 1);
      StreamIsSorted(w, c.m, c.n);
      NoPairTwice(w, c.m, c.n);
      RoundOneAhead(w, c);
    }
  }

  lemma {:induction false} RoundOneAhead(w: Weight, c: Compared)
    requires (c.n == c.m || c.n == c.m + 1) && c.out == Repeats(w, c.m) && W(w, c.m) <= W(w, c.n)
    requires Nth(w, c.m) == Nth(w, c.n) ==> c.m == c.n
    ensures var d := Round(w, c);
            && (d.n == d.m || d.n == d.m + 1) && d.out == Repeats(w, d.m)
            && 2 * d.m + (d.n - d.m) >= 2 * c.m + (c.n - c.m) + 1
  {
    assert Repeats(w, c.m) + [] == Repeats(w, c.m);
  }

  // ----- how often a weight is emitted -----

  /** The pairs of weight v among the first n of the stream. */
  function Seen(w: Weight, n: nat, v: int): set<Pair> {
    if n == 0 then {} else Seen(w, n - 1, v) + (if W(w, n - 1) == v then {Nth(w, n - 1)} else {})
  }

  function Count(out: seq<int>, v: int): nat {
    if out == [] then 0 else Count(out[..|out| - 1], v) + (if out[|out| - 1] == v then 1 else 0)
  }

  lemma {:induction false} SeenMember(w: Weight, n: nat, v: int, p: Pair)
    ensures p in Seen(w, n, v) <==> w(p) == v && exists m :: 0 <= m < n && Nth(w, m) == p
    decreases n
  {
    if n > 0 { SeenMember(w, n - 1, v, p); }
  }

  lemma {:induction false} SeenGrows(w: Weight, n: nat, v: int)
    ensures |Seen(w, n + 1, v)| == |Seen(w, n, v)| + (if W(w, n) == v then 1 else 0)
  {
    var p := Nth(w, n);
    SeenMember(w, n, v, p);
    if p in Seen(w, n, v) {
      var m :| 0 <= m < n && Nth(w, m) == p;
      NoPairTwice(w, m, n);
    }
  }

  lemma {:induction false} CountAppend(out: seq<int>, x: int, v: int)
    ensures Count(out + [x], v) == Count(out, v) + (if x == v then 1 else 0)
  {
    assert (out + [x])[..|out|] == out;
  }

  function LessOne(n: nat): nat { if n == 0 then 0 else n - 1 }

  lemma {:induction false} RepeatsStep(w: Weight, m: nat, v: int)
    requires m > 0
    ensures Count(Repeats(w, m), v) == Count(Repeats(w, m - 1), v) + (if W(w, m - 1) == W(w, m) == v then 1 else 0)
  {
    CountAppend(Repeats(w, m - 1), W(w, m - 1), v);
    assert Repeats(w, m - 1) + [] == Repeats(w, m - 1);
  }

  /** The weight of the m-th pair has been seen before exactly if the pair before it has that weight. */
  lemma {:induction false} SeenBefore(w: Weight, m: nat, v: int)
    requires Ordered(w) && m > 0 && W(w, m) == v
    ensures W(w, m - 1) == v <==> |Seen(w, m, v)| > 0
  {
    if W(w, m - 1) == v {
      SeenGrows(w, m - 1, v);
    } else {
      StreamIsSorted(w, m - 1, m);
      NoneSeen(w, m, v);
    }
  }

  /** Among the first m + 1 pairs a weight seen r times is emitted r - 1 times. */
  lemma {:induction false} RepeatsCount(w: Weight, m: nat, v: int)
    requires Ordered(w)
    ensures Count(Repeats(w, m), v) == LessOne(|Seen(w, m + 1, v)|)
    decreases m
  {
    SeenGrows(w, m, v);
    if m == 0 {
      assert |Seen(w, m, v)| == 0;
      assert Repeats(w, m) == [];
    } else {
      RepeatsCount(w, m - 1, v);
      RepeatsStep(w, m, v);
      if W(w, m) == v { SeenBefore(w, m, v); }
    }
  }

  lemma {:induction false} NoneSeen(w: Weight, m: nat, v: int)
    requires Ordered(w) && m > 0 && W(w, m - 1) < v
    ensures Seen(w, m, v) == {}
  {
    if p :| p in Seen(w, m, v) {
      SeenMember(w, m, v, p);
      var k :| 0 <= k < m && Nth(w, k) == p;
      StreamIsSorted(w, k, m - 1);
    }
  }

  /** Past the weight v all pairs of weight v have been seen. */
  lemma {:induction false} AllSeen(w: Weight, m: nat, v: int, p: Pair)
    requires Ordered(w) && DiagonalUnbounded(w) && W(w, m) > v
    ensures p in Seen(w, m + 1, v) <==> 1 <= p.0 <= p.1 && w(p) == v
  {
    SeenMember(w, m + 1, v, p);
    if p in Seen(w, m + 1, v) {
      var n :| 0 <= n < m + 1 && Nth(w, n) == p;
      NoPairTwice(w, n, n);
    } else if 1 <= p.0 <= p.1 && w(p) == v {
      CompleteIffDiagonalUnbounded(w);
      assert Delivered(w, (p.0, p.1));
      var n: nat :| Nth(w, n) == (p.0, p.1);
      if n > m { StreamIsSorted(w, m, n); }
    }
  }

  /** From some round on, the output holds each number v exactly r - 1 times if v is the weight
      of r > 0 pairs, and not at all if it is the weight of none. */
  lemma {:induction false} EmittedOncePerExtraPair(w: Weight, v: int, pairs: set<Pair>) returns (enough: nat)
    requires Ordered(w) && DiagonalUnbounded(w)
    requires forall p :: p in pairs <==> 1 <= p.0 <= p.1 && w(p) == v
    ensures forall r :: r >= enough ==> Count(Rounds(w, r).out, v) == LessOne(|pairs|)
  {
    assert DiagonalExceeds(w, v);
    var k: nat :| 1 <= k && w((k, k)) > v;
    CompleteIffDiagonalUnbounded(w);
    assert Delivered(w, (k, k));
    var n: nat :| Nth(w, n) == (k, k);
    enough := 2 * n + 1;
    forall r | r >= enough
      ensures Count(Rounds(w, r).out, v) == LessOne(|pairs|)
    {
      OneAhead(w, r);
      var m := Rounds(w, r).m;
      StreamIsSorted(w, n, m);
      forall p ensures p in Seen(w, m + 1, v) <==> p in pairs { AllSeen(w, m, v, p); }
      assert Seen(w, m + 1, v) == pairs;
      RepeatsCount(w, m, v);
    }
  }

  /** What is emitted is sorted. */
  lemma {:induction false} RepeatsSorted(w: Weight, m: nat, i: nat)
    requires Ordered(w) && i < |Repeats(w, m)|
    ensures Repeats(w, m)[i] <= W(w, m) && (i > 0 ==> Repeats(w, m)[i - 1] <= Repeats(w, m)[i])
    decreases m
  {
    StreamIsSorted(w, m - 1, m);
    var before := Repeats(w, m - 1);
    if i < |before| { RepeatsSorted(w, m - 1, i); } else if i > 0 { RepeatsSorted(w, m - 1, i - 1); }
  }
}

/** Sums of two cubes with several representations. */
module CubeSums {
  import opened PairStreams
  import opened CompareStreams

  function Cube(p: Pair): int { p.0 * p.0 * p.0 + p.1 * p.1 * p.1 }

  lemma {:induction false} CubeGrows(j: nat)
    ensures j * j * j < (j + 1) * (j + 1) * (j + 1)
  {
    assert (j + 1) * (j + 1) * (j + 1) == j * j * j + 3 * (j * j) + 3 * j + 1;
  }

  lemma {:induction false} CubeAtLeast(j: nat)
    ensures j <= j * j * j
  {
    if j > 0 { assert j * j >= 1; assert j * (j * j) >= j; }
  }

  lemma {:induction false} CubesOrdered()
    ensures Ordered(Cube)
  {
    forall i: nat, j: nat | 1 <= i <= j ensures RowStep(Cube, i, j) { CubeGrows(j); }
    forall i: nat | 1 <= i ensures DiagonalStep(Cube, i) { CubeGrows(i); }
  }

  lemma {:induction false} CubesUnbounded()
    ensures DiagonalUnbounded(Cube)
  {
    forall b: int
      ensures DiagonalExceeds(Cube, b)
    {
      var k: nat := if b < 0 then 1 else b + 1;
      CubeAtLeast(k);
      assert Cube((k, k)) > b;
    }
  }

  /** The ways to write v as a sum of two cubes of positive integers. */
  function Representations(v: int): set<Pair> {
    set i: nat, j: nat | 1 <= i <= j <= v && i * i * i + j * j * j == v :: (i, j)
  }

  lemma {:induction false} RepresentationsComplete(v: int, p: Pair)
    ensures p in Representations(v) <==> 1 <= p.0 <= p.1 && p.0 * p.0 * p.0 + p.1 * p.1 * p.1 == v
  {
    CubeAtLeast(p.0);
    CubeAtLeast(p.1);
  }

  /** Every pair occurs in the stream, once; of the pairs up to it none has a larger sum of cubes,
      and those with the same sum come in the order of their first components. */
  lemma {:induction false} CubeStream(i: nat, j: nat) returns (n: nat)
    requires 1 <= i <= j
    ensures Nth(Cube, n) == (i, j) && forall m :: Nth(Cube, m) == (i, j) ==> m == n
    ensures forall m: nat :: m < n ==>
              var p := Nth(Cube, m);
              var cubes := p.0 * p.0 * p.0 + p.1 * p.1 * p.1;
              cubes < i * i * i + j * j * j || (cubes == i * i * i + j * j * j && p.0 < i)
  {
    CubesOrdered();
    CubesUnbounded();
    CompleteIffDiagonalUnbounded(Cube);
    assert Delivered(Cube, (i, j));
    n :| Nth(Cube, n) == (i, j);
    forall m | Nth(Cube, m) == (i, j) ensures m == n { NoPairTwice(Cube, m, n); }
    assert Cube((i, j)) == i * i * i + j * j * j;
    forall m: nat | m < n
      ensures var p := Nth(Cube, m); Cube(p) < Cube((i, j)) || (Cube(p) == Cube((i, j)) && p.0 < i)
    {
      StreamIsSorted(Cube, m, n);
      if Cube(Nth(Cube, m)) == Cube(Nth(Cube, n)) { TiesByFirst(Cube, m, n); }
    }
  }

  /** ramanujan-numbers: from some round on each v has been emitted exactly r - 1 times if
      i^3 + j^3 == v for r pairs 1 <= i <= j, and not at all if for none. */
  lemma {:induction false} RamanujanNumbers(v: int) returns (enough: nat)
    ensures forall r :: r >= enough ==> Count(Rounds(Cube, r).out, v) == LessOne(|Representations(v)|)
  {
    CubesOrdered();
    CubesUnbounded();
    forall p ensures p in Representations(v) <==> 1 <= p.0 <= p.1 && Cube(p) == v { RepresentationsComplete(v, p); }
    enough := EmittedOncePerExtraPair(Cube, v, Representations(v));
  }

  lemma {:induction false} CubeMonotone(i: nat, j: nat)
    requires i <= j
    ensures i * i * i <= j * j * j
    decreases j - i
  {
    if i < j {
      CubeGrows(i);
      CubeMonotone(i + 1, j);
    }
  }

  lemma {:induction false} SumsTo1729(i: nat, j: nat)
    requires 1 <= i <= j && i * i * i + j * j * j == 1729
    ensures (i, j) == (1, 12) || (i, j) == (9, 10)
  {
    CubeMonotone(i, j);
    if j <= 9 { CubeMonotone(j, 9); } else if j >= 13 { CubeMonotone(13, j); }
    if i <= 7 { CubeMonotone(i, 7); } else if i <= 8 { } else { CubeMonotone(9, i); }
    if 2 <= i { CubeMonotone(2, i); }
    if 10 <= i { CubeMonotone(10, i); }
  }

  /** 1729 is emitted, once, and of its two pairs (1, 12) comes first. */
  lemma {:induction false} Emits1729() returns (enough: nat, m: nat, n: nat)
    ensures forall r :: r >= enough ==> Count(Rounds(Cube, r).out, 1729) == 1
    ensures m < n && Nth(Cube, m) == (1, 12) && Nth(Cube, n) == (9, 10)
  {
    forall p ensures p in Representations(1729) <==> p in {(1, 12), (9, 10)} {
      RepresentationsComplete(1729, p);
      if p in Representations(1729) { SumsTo1729(p.0, p.1); }
    }
    assert Representations(1729) == {(1, 12), (9, 10)};
    enough := RamanujanNumbers(1729);
    m := CubeStream(1, 12);
    n := CubeStream(9, 10);
    assert m != n;
  }
}
