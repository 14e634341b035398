/** All pairs of positive integers, interleaved (exercise 3.67). A stream is the promise it is
    built from; Car and Cdr force it one step. No stream here is ever empty. */
module InterleavedPairs {

  type Pair = (nat, nat)

  /** Row: (i, j), (i, j+1), ...; Column: (i, j), (i+1, j), ...; Pairs: (pair integers integers) from k on. */
  datatype Stream = Row(i: nat, j: nat) | Column(i: nat, j: nat) | Pairs(k: nat) | Interleave(a: Stream, b: Stream)

  function Car(s: Stream): Pair {
    match s
    case Row(i, j) => (i, j)
    case Column(i, j) => (i, j)
    case Pairs(k) => (k, k)
    case Interleave(a, _) => Car(a)
  }

  function Cdr(s: Stream): Stream {
    match s
    case Row(i, j) => Row(i, j + 1)
    case Column(i, j) => Column(i + 1, j)
    case Pairs(k) => Interleave(Interleave(Row(k, k + 1), Column(k + 1, k)), Pairs(k + 1))
    case Interleave(a, b) => Interleave(b, Cdr(a))
  }

  function Nth(s: Stream, n: nat): Pair
    decreases n
  {
    if n == 0 then Car(s) else Nth(Cdr(s), n - 1)
  }

  /** Where (i, j) is in Pairs(k): the rows and columns from k on double the distance at each turn. */
  function Position(k: nat, i: nat, j: nat): nat
    requires k <= i && k <= j
    decreases i + j - 2 * k
  {
    if i == k && j == k then 0
    else if i == k then 1 + 4 * (j - k - 1)
    else if j == k then 3 + 4 * (i - k - 1)
    else 2 + 2 * Position(k + 1, i, j)
  }

  lemma {:induction false} RowNth(i: nat, j: nat, n: nat)
    ensures Nth(Row(i, j), n) == (i, j + n)
    decreases n
  {
    if n > 0 { RowNth(i, j + 1, n - 1); }
  }

  lemma {:induction false} ColumnNth(i: nat, j: nat, n: nat)
    ensures Nth(Column(i, j), n) == (i + n, j)
    decreases n
  {
    if n > 0 { ColumnNth(i + 1, j, n - 1); }
  }

  /** Interleaving takes from its two streams in turn. */
  lemma {:induction false} InterleaveNth(a: Stream, b: Stream, n: nat)
    ensures Nth(Interleave(a, b), 2 * n) == Nth(a, n)
    ensures Nth(Interleave(a, b), 2 * n + 1) == Nth(b, n)
    decreases n
  {
    if n > 0 {
      InterleaveNth(Cdr(a), Cdr(b), n - 1);
      assert Cdr(Cdr(Interleave(a, b))) == Interleave(Cdr(a), Cdr(b));
      assert Nth(Interleave(a, b), 2 * n) == Nth(Interleave(Cdr(a), Cdr(b)), 2 * (n - 1));
      assert Nth(Interleave(a, b), 2 * n + 1) == Nth(Interleave(Cdr(a), Cdr(b)), 2 * (n - 1) + 1);
    }
  }

  /** The pairs from k on: the first, then the row and the column in turn at the odd places,
      and the pairs from k + 1 on at the even ones. */
  lemma {:induction false} PairsNth(k: nat, n: nat)
    ensures Nth(Pairs(k), 4 * n + 1) == (k, k + 1 + n)
    ensures Nth(Pairs(k), 4 * n + 3) == (k + 1 + n, k)
    ensures Nth(Pairs(k), 2 * n + 2) == Nth(Pairs(k + 1), n)
  {
    var lines := Interleave(Row(k, k + 1), Column(k + 1, k));
    InterleaveNth(lines, Pairs(k + 1), 2 * n);
    InterleaveNth(lines, Pairs(k + 1), 2 * n + 1);
    InterleaveNth(lines, Pairs(k + 1), n);
    InterleaveNth(Row(k, k + 1), Column(k + 1, k), n);
    RowNth(k, k + 1, n);
    ColumnNth(k + 1, k, n);
    assert Nth(Pairs(k), 4 * n + 1) == Nth(Interleave(lines, Pairs(k + 1)), 2 * (2 * n));
    assert Nth(Pairs(k), 4 * n + 3) == Nth(Interleave(lines, Pairs(k + 1)), 2 * (2 * n + 1));
    assert Nth(Pairs(k), 2 * n + 2) == Nth(Interleave(lines, Pairs(k + 1)), 2 * n + 1);
  }

  /** Every pair is at its position. */
  lemma {:induction false} PairAtPosition(k: nat, i: nat, j: nat)
    requires k <= i && k <= j
    ensures Nth(Pairs(k), Position(k, i, j)) == (i, j)
    decreases i + j - 2 * k
  {
    if i == k && j == k {
    } else if i == k {
      PairsNth(k, j - k - 1);
    } else if j == k {
      PairsNth(k, i - k - 1);
    } else {
      PairAtPosition(k + 1, i, j);
      PairsNth(k, Position(k + 1, i, j));
    }
  }

  ghost predicate Placed(k: nat, p: Pair, n: nat) { k <= p.0 && k <= p.1 && Position(k, p.0, p.1) == n }

  /** Every place holds the pair whose position it is. */
  lemma {:induction false} PositionOfNth(k: nat, n: nat)
    ensures Placed(k, Nth(Pairs(k), n), n)
    decreases n
  {
    if n > 0 {
      if n % 2 == 1 {
        var q := n / 4;
        PairsNth(k, q);
        assert n == 4 * q + 1 || n == 4 * q + 3;
        assert Placed(k, (k, k + 1 + q), 4 * q + 1) && Placed(k, (k + 1 + q, k), 4 * q + 3);
      } else {
        var m := n / 2 - 1;
        assert n == 2 * m + 2;
        PairsNth(k, m);
        PositionOfNth(k + 1, m);
      }
    }
  }

  /** The stream is a bijection between places and all ordered pairs of positive integers. */
  lemma {:induction false} EveryPairExactlyOnce(i: nat, j: nat, n: nat)
    requires 1 <= i && 1 <= j
    ensures Nth(Pairs(1), n) == (i, j) <==> n == Position(1, i, j)
  {
    PairAtPosition(1, i, j);
    PositionOfNth(1, n);
  }

  /** Its first ten pairs. */
  lemma {:induction false} FirstTen()
    ensures var first := seq(10, n requires 0 <= n => Nth(Pairs(1), n));
            first == [(1, 1), (1, 2), (2, 2), (2, 1), (2, 3), (1, 3), (3, 3), (3, 1), (3, 2), (1, 4)]
  {
    PairsNth(1, 0);
    PairsNth(1, 1);
    PairsNth(1, 2);
    PairsNth(1, 3);
    PairsNth(2, 0);
    PairsNth(2, 1);
    PairsNth(3, 0);
  }
}
