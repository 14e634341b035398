/** Pairs of integers in order of weight (exercise 3.72). A stream is the promise it is built
    from; `Car` and `Cdr` force it one step. The two streams that are paired are the integers
    from k on: pairing other streams s and t is pairing positions, with the weight of
    (s_i, t_j) as the weight of (i, j). */
module PairStreams {

  type Pair = (nat, nat)
  type Weight = Pair -> int

  /** Row: (i, j), (i, j+1), ...; Pairs: (pair integers integers) from k on. */
  datatype Stream = Row(i: nat, j: nat) | Pairs(k: nat) | Merge(a: Stream, b: Stream)

  function Car(s: Stream, w: Weight): Pair {
    match s
    case Row(i, j) => (i, j)
    case Pairs(k) => (k, k)
    case Merge(a, b) => if w(Car(a, w)) <= w(Car(b, w)) then Car(a, w) else Car(b, w)
  }

  function Cdr(s: Stream, w: Weight): Stream {
    match s
    case Row(i, j) => Row(i, j + 1)
    case Pairs(k) => Merge(Row(k, k + 1), Pairs(k + 1))
    case Merge(a, b) => if w(Car(a, w)) <= w(Car(b, w)) then Merge(Cdr(a, w), b) else Merge(a, Cdr(b, w))
  }

  function Drop(s: Stream, w: Weight, n: nat): Stream
    decreases n
  {
    if n == 0 then s else Drop(Cdr(s, w), w, n - 1)
  }

  function Nth(w: Weight, n: nat): Pair { Car(Drop(Pairs(1), w, n), w) }

  /** Strictly increasing along every row, and not decreasing along the diagonal. */
  ghost predicate Ordered(w: Weight) {
    && (forall i: nat, j: nat :: 1 <= i <= j ==> RowStep(w, i, j))
    && (forall i: nat :: 1 <= i ==> DiagonalStep(w, i))
  }

  predicate RowStep(w: Weight, i: nat, j: nat) { w((i, j)) < w((i, j + 1)) }
  predicate DiagonalStep(w: Weight, i: nat) { w((i, i)) <= w((i + 1, i + 1)) }

  /** p is still to come in s. */
  predicate Remains(s: Stream, p: Pair) {
    match s
    case Row(i, j) => p.0 == i && p.1 >= j
    case Pairs(k) => k <= p.0 <= p.1
    case Merge(a, b) => Remains(a, p) || Remains(b, p)
  }

  /** A merge of what is left of the rows from k on and of the pairs beyond them. */
  predicate Shape(s: Stream, k: nat) {
    match s
    case Row(_, _) => false
    case Pairs(m) => m == k
    case Merge(a, b) => a.Row? && a.i == k && a.j > k && Shape(b, k + 1)
  }

  // ----- weights -----

  lemma {:induction false} RowGrows(w: Weight, i: nat, j: nat, d: nat)
    requires Ordered(w) && 1 <= i <= j
    ensures w((i, j)) + d <= w((i, j + d))
    decreases d
  {
    if d > 0 {
      RowGrows(w, i, j, d - 1);
      assert RowStep(w, i, j + d - 1);
    }
  }

  lemma {:induction false} DiagonalGrows(w: Weight, i: nat, d: nat)
    requires Ordered(w) && 1 <= i
    ensures w((i, i)) <= w((i + d, i + d))
    decreases d
  {
    if d > 0 {
      DiagonalGrows(w, i, d - 1);
      assert DiagonalStep(w, i + d - 1);
    }
  }

  // ----- one step -----

  lemma {:induction false} ShapeKept(s: Stream, w: Weight, k: nat)
    requires Shape(s, k)
    ensures Shape(Cdr(s, w), k)
  {
    if s.Merge? { ShapeKept(s.b, w, k + 1); }
  }

  lemma {:induction false} RemainsAbove(s: Stream, k: nat, p: Pair)
    requires Shape(s, k) && Remains(s, p)
    ensures k <= p.0 <= p.1
  {
    if s.Merge? && Remains(s.b, p) { RemainsAbove(s.b, k + 1, p); }
  }

  /** Forcing a stream takes exactly its first pair away from what is still to come. */
  lemma {:induction false} CdrRemoves(s: Stream, w: Weight, k: nat, p: Pair)
    requires Shape(s, k)
    ensures Remains(Cdr(s, w), p) <==> Remains(s, p) && p != Car(s, w)
    ensures Remains(s, Car(s, w))
  {
    if s.Merge? {
      CdrRemoves(s.b, w, k + 1, p);
      CdrRemoves(s.b, w, k + 1, Car(s.b, w));
      RemainsAbove(s.b, k + 1, Car(s.b, w));
      if Remains(s.b, p) { RemainsAbove(s.b, k + 1, p); }
    }
  }

  /** The first pair has the least weight of all that are to come. */
  lemma {:induction false} CarIsLeast(s: Stream, w: Weight, k: nat, p: Pair)
    requires Ordered(w) && 1 <= k && Shape(s, k) && Remains(s, p)
    ensures w(Car(s, w)) <= w(p)
  {
    match s
    case Pairs(m) =>
      DiagonalGrows(w, m, p.0 - m);
      RowGrows(w, p.0, p.0, p.1 - p.0);
    case Merge(a, b) =>
      if Remains(b, p) { CarIsLeast(b, w, k + 1, p); } else { RowGrows(w, a.i, a.j, p.1 - a.j); }
  }

  // ----- the whole stream -----

  lemma {:induction false} DropStep(s: Stream, w: Weight, n: nat)
    ensures Drop(s, w, n + 1) == Cdr(Drop(s, w, n), w)
    decreases n
  {
    if n > 0 { DropStep(Cdr(s, w), w, n - 1); }
  }

  lemma {:induction false} DropShape(w: Weight, n: nat)
    ensures Shape(Drop(Pairs(1), w, n), 1)
  {
    if n > 0 {
      DropShape(w, n - 1);
      DropStep(Pairs(1), w, n - 1);
      ShapeKept(Drop(Pairs(1), w, n - 1), w, 1);
    }
  }

  /** What the stream has not delivered after n steps is what it delivers later. */
  lemma {:induction false} DropRemains(w: Weight, m: nat, n: nat)
    requires m <= n
    ensures Remains(Drop(Pairs(1), w, m), Nth(w, n))
    ensures m < n ==> Nth(w, m) != Nth(w, n)
    decreases n - m
  {
    DropShape(w, m);
    DropStep(Pairs(1), w, m);
    CdrRemoves(Drop(Pairs(1), w, m), w, 1, Nth(w, n));
    if m < n { DropRemains(w, m + 1, n); }
  }

  /** The stream is sorted by weight. */
  lemma {:induction false} StreamIsSorted(w: Weight, m: nat, n: nat)
    requires Ordered(w) && m <= n
    ensures w(Nth(w, m)) <= w(Nth(w, n))
  {
    DropShape(w, m);
    DropRemains(w, m, n);
    CarIsLeast(Drop(Pairs(1), w, m), w, 1, Nth(w, n));
  }

  /** It delivers pairs (i, j) with 1 <= i <= j, and none of them twice. */
  lemma {:induction false} NoPairTwice(w: Weight, m: nat, n: nat)
    ensures 1 <= Nth(w, n).0 <= Nth(w, n).1
    ensures Nth(w, m) == Nth(w, n) ==> m == n
  {
    DropShape(w, 0);
    DropRemains(w, 0, n);
    if m < n { DropRemains(w, m, n); }
    if n < m { DropRemains(w, n, m); }
  }

  /** Of the pairs to come that are as light as the first, the first has the smallest first component. */
  lemma {:induction false} CarIsFirstOfEquals(s: Stream, w: Weight, k: nat, p: Pair)
    requires Ordered(w) && 1 <= k && Shape(s, k) && Remains(s, p) && w(p) == w(Car(s, w)) && p != Car(s, w)
    ensures Car(s, w).0 < p.0
  {
    match s
    case Pairs(m) =>
      DiagonalGrows(w, m, p.0 - m);
      if p.0 == m { RowGrows(w, m, m, p.1 - m); }
    case Merge(a, b) =>
      if Remains(b, p) {
        RemainsAbove(b, k + 1, p);
        if !(w(Car(a, w)) <= w(Car(b, w))) { CarIsFirstOfEquals(b, w, k + 1, p); }
      } else {
        RowGrows(w, a.i, a.j, p.1 - a.j);
      }
  }

  /** Pairs of equal weight come in the order of their first components. */
  lemma {:induction false} TiesByFirst(w: Weight, m: nat, n: nat)
    requires Ordered(w) && m < n && w(Nth(w, m)) == w(Nth(w, n))
    ensures Nth(w, m).0 < Nth(w, n).0
  {
    DropShape(w, m);
    DropRemains(w, m, n);
    CarIsFirstOfEquals(Drop(Pairs(1), w, m), w, 1, Nth(w, n));
  }

  // ----- which pairs are delivered -----

  ghost predicate Delivered(w: Weight, p: Pair) { exists n :: Nth(w, n) == p }

  /** Every pair (i, j) with 1 <= i <= j is delivered. */
  ghost predicate Complete(w: Weight) {
    forall i: nat, j: nat :: 1 <= i <= j ==> Delivered(w, (i, j))
  }

  ghost predicate DiagonalUnbounded(w: Weight) {
    forall b: int :: DiagonalExceeds(w, b)
  }

  ghost predicate DiagonalExceeds(w: Weight, b: int) { exists k: nat :: 1 <= k && w((k, k)) > b }

  /** Bounds the number of pairs of weight at most b still to come, given that the diagonal is
      above b from top on. */
  function Budget(s: Stream, w: Weight, b: int, top: nat): nat
  {
    match s
    case Row(i, j) => Room(w, (i, j), b)
    case Pairs(k) => DiagonalBudget(k, w, b, top)
    case Merge(x, y) => Budget(x, w, b, top) + Budget(y, w, b, top)
  }

  function DiagonalBudget(k: nat, w: Weight, b: int, top: nat): nat
    decreases top - k
  {
    if k >= top then 0 else Room(w, (k, k), b) + DiagonalBudget(k + 1, w, b, top)
  }

  function Room(w: Weight, p: Pair, b: int): nat { if w(p) <= b then b - w(p) + 1 else 0 }

  lemma {:induction false} BudgetShrinks(s: Stream, w: Weight, b: int, top: nat, k: nat)
    requires Ordered(w) && 1 <= top && 1 <= k && w((top, top)) > b && w(Car(s, w)) <= b && Shape(s, k)
    ensures Budget(Cdr(s, w), w, b, top) < Budget(s, w, b, top)
  {
    match s
    case Pairs(m) =>
      if m >= top { DiagonalGrows(w, top, m - top); }
      assert RowStep(w, m, m);
    case Merge(x, y) =>
      assert RowStep(w, x.i, x.j);
      if !(w(Car(x, w)) <= w(Car(y, w))) { BudgetShrinks(y, w, b, top, k + 1); }
  }

  lemma {:induction false} Arrives(w: Weight, p: Pair, top: nat, m: nat) returns (n: nat)
    requires Ordered(w) && 1 <= top && w((top, top)) > w(p) && Remains(Drop(Pairs(1), w, m), p)
    ensures Nth(w, n) == p
    decreases Budget(Drop(Pairs(1), w, m), w, w(p), top)
  {
    var s := Drop(Pairs(1), w, m);
    DropShape(w, m);
    if Car(s, w) == p {
      n := m;
    } else {
      CarIsLeast(s, w, 1, p);
      CdrRemoves(s, w, 1, p);
      BudgetShrinks(s, w, w(p), top, 1);
      DropStep(Pairs(1), w, m);
      n := Arrives(w, p, top, m + 1);
    }
  }

  /** The merged stream never gets past the weight of the next diagonal pair. */
  lemma {:induction false} CarBelowDiagonal(s: Stream, w: Weight, k: nat) returns (m: nat)
    requires 1 <= k && Shape(s, k)
    ensures 1 <= m && w(Car(s, w)) <= w((m, m))
  {
    match s
    case Pairs(n) => m := n;
    case Merge(a, b) => m := CarBelowDiagonal(b, w, k + 1);
  }

  /** The stream contains every pair exactly when the weights of the diagonal are unbounded:
      otherwise the pairs of a row that are heavier than the whole diagonal are never reached. */
  lemma {:induction false} CompleteIffDiagonalUnbounded(w: Weight)
    requires Ordered(w)
    ensures Complete(w) <==> DiagonalUnbounded(w)
  {
    if DiagonalUnbounded(w) {
      forall i: nat, j: nat | 1 <= i <= j
        ensures Delivered(w, (i, j))
      {
        assert DiagonalExceeds(w, w((i, j)));
        var top: nat :| 1 <= top && w((top, top)) > w((i, j));
        var n := Arrives(w, (i, j), top, 0);
      }
    }
    if Complete(w) {
      forall b: int
        ensures DiagonalExceeds(w, b)
      {
        var d: nat := if b < w((1, 1)) then 0 else b - w((1, 1)) + 1;
        RowGrows(w, 1, 1, d);
        assert Delivered(w, (1, 1 + d));
        var n :| Nth(w, n) == (1, 1 + d);
        DropShape(w, n);
        var m := CarBelowDiagonal(Drop(Pairs(1), w, n), w, 1);
      }
    }
  }

  // ----- a diagonal that does not grow -----

  /** For the weight j - i the pair (1, 2) never comes. */
  lemma {:induction false} DifferenceIsIncomplete()
    ensures var w: Weight := (p: Pair) => p.1 - p.0; Ordered(w) && !Complete(w)
  {
    var w: Weight := (p: Pair) => p.1 - p.0;
    CompleteIffDiagonalUnbounded(w);
    assert !DiagonalExceeds(w, 0);
  }
}
