/** When the exhaustive Fermat test answers yes: exactly for the numbers that satisfy Korselt's
    criterion, which are 1, the primes, and the Carmichael numbers, such as 1105. */
module Korselt {
  import opened NumberTheory
  import opened Fermat

  /** No prime divides n twice, and p - 1 divides n - 1 for every prime p that divides n. */
  ghost predicate Korselt(n: nat) {
    forall p: nat :: Prime(p) && Divides(p, n) ==> !Divides(p * p, n) && Divides(p - 1, n - 1)
  }

  // ----- sums of powers -----

  /** 0^i + 1^i + ... + (m-1)^i */
  function PowerSum(i: nat, m: nat): int {
    if m == 0 then 0 else PowerSum(i, m - 1) + Pow(m - 1, i)
  }

  /** The sum over a < m of the first k terms of (a + 1)^n. */
  function BinomialSum(n: nat, m: nat, k: nat): int {
    if m == 0 then 0 else BinomialSum(n, m - 1, k) + Binomial(n, m - 1, k)
  }

  lemma {:induction false} BinomialSumTerm(n: nat, m: nat, k: nat)
    ensures BinomialSum(n, m, k + 1) == BinomialSum(n, m, k) + Choose(n, k) * PowerSum(k, m)
    decreases m
  {
    if m > 0 {
      BinomialSumTerm(n, m - 1, k);
      Distribute(Choose(n, k), PowerSum(k, m - 1), Pow(m - 1, k));
    }
  }

  lemma {:induction false} Distribute(c: int, x: int, y: int)
    ensures c * (x + y) == c * x + c * y
  {
  }

  /** Telescoping: the differences of n-th powers add up to m^n. */
  lemma {:induction false} Telescope(n: nat, m: nat)
    requires n > 0
    ensures BinomialSum(n, m, n) == Pow(m, n)
    decreases m
  {
    if m == 0 {
      assert Pow(0, n) == 0 * Pow(0, n - 1);
    } else {
      Telescope(n, m - 1);
      BinomialTheorem(n, m - 1);
      ChooseAll(n);
    }
  }

  lemma {:induction false} LowerTerms(p: nat, n: nat, k: nat)
    requires forall i :: 0 <= i < k ==> Divides(p, PowerSum(i, p))
    ensures Divides(p, BinomialSum(n, p, k))
    decreases k
  {
    if k == 0 {
      BinomialSumEmpty(n, p);
      assert Times(p, 0) == 0;
    } else {
      LowerTerms(p, n, k - 1);
      BinomialSumTerm(n, p, k - 1);
      DividesTimes(p, PowerSum(k - 1, p), Choose(n, k - 1));
      DividesSum(p, BinomialSum(n, p, k - 1), Choose(n, k - 1) * PowerSum(k - 1, p));
    }
  }

  lemma {:induction false} BinomialSumEmpty(n: nat, m: nat)
    ensures BinomialSum(n, m, 0) == 0
  {
    if m > 0 { BinomialSumEmpty(n, m - 1); }
  }

  lemma {:induction false} ChooseButOne(n: nat)
    ensures Choose(n + 1, n) == n + 1
  {
    if n > 0 { ChooseButOne(n - 1); }
    ChooseAll(n);
  }

  /** The r-th powers of all residues add up to a multiple of the prime, for r < p - 1. */
  lemma {:induction false} PowerSumVanishes(p: nat, r: nat)
    requires Prime(p) && r < p - 1
    ensures Divides(p, PowerSum(r, p))
    decreases r
  {
    forall i: nat | i < r ensures Divides(p, PowerSum(i, p)) { PowerSumVanishes(p, i); }
    LowerTerms(p, r + 1, r);
    BinomialSumTerm(r + 1, p, r);
    Telescope(r + 1, p);
    ChooseButOne(r);
    MultipleDivides(p, Pow(p, r));
    DividesSum(p, Pow(p, r + 1), BinomialSum(r + 1, p, r));
    EuclidSmall(p, r + 1, PowerSum(r, p));
  }

  lemma {:induction false} SumOfOnes(p: nat, r: nat, m: nat)
    requires r > 0 && 1 <= m && forall a: nat :: 1 <= a < m ==> Cong(p, Pow(a, r), 1)
    ensures Cong(p, PowerSum(r, m), m - 1)
    decreases m
  {
    if m == 1 {
      assert Pow(0, r) == 0 * Pow(0, r - 1);
      assert PowerSum(r, 1) == PowerSum(r, 0) + Pow(0, r);
      CongSame(p, 0);
    } else {
      SumOfOnes(p, r, m - 1);
      DividesSum(p, PowerSum(r, m - 1) - (m - 2), Pow(m - 1, r) - 1);
    }
  }

  /** If r-th powers of all units are 1 modulo a prime, then p - 1 divides r. */
  lemma {:induction false} UnitOrder(p: nat, r: nat)
    requires Prime(p) && r < p - 1 && forall a: nat :: 1 <= a < p ==> Cong(p, Pow(a, r), 1)
    ensures r == 0
  {
    if r > 0 {
      PowerSumVanishes(p, r);
      SumOfOnes(p, r, p);
      DividesSum(p, PowerSum(r, p), PowerSum(r, p) - (p - 1));
      DividesSmall(p, p - 1);
    }
  }

  // ----- the criterion is sufficient -----

  lemma {:induction false} PrimeFactor(n: nat, d: nat) returns (p: nat)
    requires 2 <= d <= n && Divides(d, n)
    requires forall e: nat :: 2 <= e < d ==> !Divides(e, n)
    ensures Prime(d) && p == d
  {
    p := d;
    forall e | 2 <= e < d
      ensures !Divides(e, d)
    {
      if Divides(e, d) { DividesTrans(e, d, n); }
    }
  }

  lemma {:induction false} DividesTrans(a: int, b: int, c: int)
    requires Divides(a, b) && Divides(b, c)
    ensures Divides(a, c)
  {
    var q :| Times(b, q) == c;
    DividesTimes(a, b, q);
  }

  lemma {:induction false} LeastFactor(n: nat, e: nat) returns (p: nat)
    requires 2 <= e <= n && forall d: nat :: 2 <= d < e ==> !Divides(d, n)
    ensures Prime(p) && Divides(p, n) && p <= n
    decreases n - e
  {
    MultipleDivides(n, 1);
    if Divides(e, n) {
      p := PrimeFactor(n, e);
    } else {
      p := LeastFactor(n, e + 1);
    }
  }

  /** A number without square factors divides what all its primes divide. */
  lemma {:induction false} SquareFreeDivides(n: nat, x: int)
    requires n >= 1 && forall p: nat :: Prime(p) && Divides(p, n) ==> !Divides(p * p, n) && Divides(p, x)
    ensures Divides(n, x)
  {
    if n == 1 {
      MultipleDivides(1, x);
    } else {
      var p := LeastFactor(n, 2);
      var m :| Times(p, m) == n;
      FactorRange(p, m, n);
      forall q: nat | Prime(q) && Divides(q, m)
        ensures !Divides(q * q, m) && Divides(q, x)
      {
        DividesTimes(q, m, p);
        if Divides(q * q, m) { DividesTimes(q * q, m, p); }
      }
      SquareFreeDivides(m, x);
      var y :| Times(m, y) == x;
      if Divides(p, m) { SquareFactor(p, m, n); }
      Euclid(p, m, y);
      var z :| Times(p, z) == y;
      Assoc(m, p, z);
      Assoc(p, m, z);
      assert Times(n, z) == x;
    }
  }

  lemma {:induction false} FactorRange(p: nat, m: int, n: nat)
    requires p >= 2 && n >= 1 && Times(p, m) == n
    ensures 1 <= m < n
  {
    assert m <= 0 ==> p * m <= 0;
    assert m >= 1 ==> p * m >= 2 * m;
  }

  lemma {:induction false} SquareFactor(p: int, m: int, n: int)
    requires Times(p, m) == n && Divides(p, m)
    ensures Divides(p * p, n)
  {
    var k :| Times(p, k) == m;
    Assoc(p, p, k);
    assert Times(p * p, k) == n;
  }

  /** a^(k (p-1) + r) and a^r agree modulo the prime, for a that it does not divide. */
  lemma {:induction false} ReduceExponent(p: nat, a: nat, k: nat, r: nat)
    requires Prime(p) && !Divides(p, a)
    ensures (p - 1) * k + r >= 0 && Cong(p, Pow(a, (p - 1) * k + r), Pow(a, r))
    decreases k
  {
    if k == 0 {
      CongSame(p, Pow(a, r));
    } else {
      ReduceExponent(p, a, k - 1, r);
      var before := (p - 1) * (k - 1) + r;
      assert (p - 1) * k + r == (p - 1) + before;
      FermatUnit(p, a);
      PowAdd(a, p - 1, before);
      CongTimes(p, Pow(a, p - 1), 1, Pow(a, before), Pow(a, r));
    }
  }

  lemma {:induction false} KorseltBase(n: nat, p: nat, b: nat)
    requires n >= 1 && Prime(p) && Divides(p - 1, n - 1)
    ensures Cong(p, Pow(b, n), b)
  {
    if Divides(p, b) {
      DividesTimes(p, b, Pow(b, n - 1));
      DividesSum(p, Pow(b, n), b);
    } else {
      var k :| Times(p - 1, k) == n - 1;
      assert k < 0 ==> (p - 1) * k < 0;
      ReduceExponent(p, b, k, 0);
      CongSame(p, b);
      CongTimes(p, b, b, Pow(b, n - 1), 1);
    }
  }

  // ----- and necessary -----

  lemma {:induction false} Divisor(p: nat, n: nat)
    requires n >= 1 && p >= 1 && Divides(p, n)
    ensures p <= n
  {
    var q :| Times(p, q) == n;
    assert q <= 0 ==> p * q <= 0;
    if q >= 1 { TimesGrows(p, q); }
  }

  lemma {:induction false} CongDivisor(p: int, n: int, x: int, y: int)
    requires Divides(p, n) && Cong(n, x, y)
    ensures Cong(p, x, y)
  {
    DividesTrans(p, n, x - y);
  }

  lemma {:induction false} PassingIsSquareFree(n: nat, p: nat)
    requires n >= 1 && Prime(p) && forall b: nat :: 1 <= b < n ==> Cong(n, Pow(b, n), b)
    ensures !Divides(p * p, n)
  {
    if Divides(p * p, n) {
      Divisor(p * p, n);
      assert p < p * p by { assert p * p >= 2 * p; }
      CongDivisor(p * p, n, Pow(p, n), p);
      var w := Pow(p, n - 2);
      assert Pow(p, n) == p * (p * w);
      Assoc(p, p, w);
      MultipleDivides(p * p, w);
      DividesSum(p * p, Pow(p, n), Pow(p, n) - p);
      DividesSmall(p * p, p);
    }
  }

  lemma {:induction false} PassingUnits(n: nat, p: nat, a: nat)
    requires Prime(p) && Divides(p, n) && 1 <= a < p <= n && Cong(n, Pow(a, n), a)
    ensures Cong(p, Pow(a, n - 1), 1)
  {
    CongDivisor(p, n, Pow(a, n), a);
    OneMoreFactor(a, Pow(a, n - 1));
    EuclidSmall(p, a, Pow(a, n - 1) - 1);
  }

  lemma {:induction false} OneMoreFactor(a: int, w: int)
    ensures a * w - a == a * (w - 1)
  {
  }

  lemma {:induction false} PassingOrder(n: nat, p: nat)
    requires n >= 1 && Prime(p) && Divides(p, n) && forall b: nat :: 1 <= b < n ==> Cong(n, Pow(b, n), b)
    ensures Divides(p - 1, n - 1)
  {
    Divisor(p, n);
    var k, r := (n - 1) / (p - 1), (n - 1) % (p - 1);
    assert n - 1 == (p - 1) * k + r;
    forall a: nat | 1 <= a < p
      ensures Cong(p, Pow(a, r), 1)
    {
      PassingUnits(n, p, a);
      if Divides(p, a) { DividesSmall(p, a); }
      ReduceExponent(p, a, k, r);
      CongSymm(p, Pow(a, n - 1), Pow(a, r));
      CongTrans(p, Pow(a, r), Pow(a, n - 1), 1);
    }
    UnitOrder(p, r);
    assert Times(p - 1, k) == n - 1;
  }

  /** The exhaustive test answers yes exactly for the numbers of Korselt's criterion. */
  lemma {:induction false} ExhaustiveTestIsKorselt(n: nat)
    requires n >= 1
    ensures ExhaustiveTest(n) <==> Korselt(n)
  {
    IterMeaning(1, n);
    if Korselt(n) {
      forall b: nat | 1 <= b < n
        ensures Cong(n, Pow(b, n), b)
      {
        forall p: nat | Prime(p) && Divides(p, n)
          ensures !Divides(p * p, n) && Divides(p, Pow(b, n) - b)
        {
          KorseltBase(n, p, b);
        }
        SquareFreeDivides(n, Pow(b, n) - b);
      }
    }
    if ExhaustiveTest(n) {
      forall p: nat | Prime(p) && Divides(p, n)
        ensures !Divides(p * p, n) && Divides(p - 1, n - 1)
      {
        PassingIsSquareFree(n, p);
        PassingOrder(n, p);
      }
    }
  }

  // ----- the example of the exercise -----

  lemma {:induction false} SmallPrime(p: nat)
    requires p == 5 || p == 13 || p == 17
    ensures Prime(p)
  {
    forall d | 2 <= d < p
      ensures !Divides(d, p)
    {
      if Divides(d, p) {
        var q :| Times(d, q) == p;
        FactorRange(d, q, p);
      }
    }
  }

  /** 1105 = 5 * 13 * 17 is not prime, and the test calls it prime. */
  lemma {:induction false} Carmichael1105()
    ensures !Prime(1105) && ExhaustiveTest(1105)
  {
    assert Times(5, 221) == 1105;
    assert Divides(5, 1105);
    forall p: nat | Prime(p) && Divides(p, 1105)
      ensures !Divides(p * p, 1105) && Divides(p - 1, 1104)
    {
      FactorOf1105(p);
      assert Times(4, 276) == Times(12, 92) == Times(16, 69) == 1104;
      SquareTooBig(p);
    }
    ExhaustiveTestIsKorselt(1105);
  }

  lemma {:induction false} SquareTooBig(p: nat)
    requires p == 5 || p == 13 || p == 17
    ensures !Divides(p * p, 1105)
  {
    forall q: int ensures Times(p * p, q) != 1105 {
      assert p == 5 ==> Times(25, q) == 25 * q;
      assert p == 13 ==> Times(169, q) == 169 * q;
      assert p == 17 ==> Times(289, q) == 289 * q;
    }
  }

  lemma {:induction false} FactorOf1105(p: nat)
    requires Prime(p) && Divides(p, 1105)
    ensures p == 5 || p == 13 || p == 17
  {
    SmallPrime(5); SmallPrime(13); SmallPrime(17);
    assert Divides(p, 5 * 221);
    Euclid(p, 5, 221);
    if Divides(p, 5) { PrimeDivisor(p, 5); } else {
      assert Divides(p, 13 * 17);
      Euclid(p, 13, 17);
      if Divides(p, 13) { PrimeDivisor(p, 13); } else { PrimeDivisor(p, 17); }
    }
  }

  lemma {:induction false} PrimeDivisor(p: nat, q: nat)
    requires Prime(p) && Prime(q) && Divides(p, q)
    ensures p == q
  {
    Divisor(p, q);
  }
}
