/** Powers, divisibility and primes, up to Fermat's little theorem. */
module NumberTheory {

  function Pow(a: int, n: nat): int { if n == 0 then 1 else a * Pow(a, n - 1) }

  function Times(d: int, q: int): int { d * q }

  ghost predicate Divides(d: int, x: int) { exists q: int :: Times(d, q) == x }

  /** x and y leave the same remainder. */
  ghost predicate Cong(d: int, x: int, y: int) { Divides(d, x - y) }

  ghost predicate Prime(p: nat) { p >= 2 && forall d :: 2 <= d < p ==> !Divides(d, p) }

  // ----- divisibility -----

  lemma {:induction false} MultipleDivides(d: int, q: int)
    ensures Divides(d, d * q) && Divides(d, q * d)
  {
    assert Times(d, q) == d * q;
  }

  lemma {:induction false} DividesSum(d: int, x: int, y: int)
    requires Divides(d, x) && Divides(d, y)
    ensures Divides(d, x + y) && Divides(d, x - y)
  {
    var q :| Times(d, q) == x;
    var r :| Times(d, r) == y;
    assert Times(d, q + r) == x + y && Times(d, q - r) == x - y;
  }

  lemma {:induction false} DividesTimes(d: int, x: int, y: int)
    requires Divides(d, x)
    ensures Divides(d, x * y) && Divides(d, y * x)
  {
    var q :| Times(d, q) == x;
    Assoc(d, q, y);
    assert Times(d, q * y) == x * y;
  }

  lemma {:induction false} Assoc(a: int, b: int, c: int)
    ensures (a * b) * c == a * (b * c) && a * (b * c) == b * (a * c) && a * b == b * a
  {
  }

  lemma {:induction false} DividesSmall(d: int, x: int)
    requires d > 0 && Divides(d, x) && -d < x < d
    ensures x == 0
  {
    var q :| Times(d, q) == x;
    if q >= 1 { TimesGrows(d, q); }
    if q <= -1 { TimesGrows(d, -q); }
  }

  lemma {:induction false} TimesGrows(d: int, q: int)
    requires d > 0 && q >= 1
    ensures Times(d, q) >= d && Times(d, -q) == -Times(d, q)
  {
    assert d * q == d + d * (q - 1);
  }

  // ----- congruence -----

  lemma {:induction false} CongSame(d: int, x: int)
    ensures Cong(d, x, x)
  {
    assert Times(d, 0) == x - x;
  }

  lemma {:induction false} CongSymm(d: int, x: int, y: int)
    requires Cong(d, x, y)
    ensures Cong(d, y, x)
  {
    CongSame(d, x);
    DividesSum(d, x - x, x - y);
    assert (x - x) - (x - y) == y - x;
  }

  lemma {:induction false} CongTrans(d: int, x: int, y: int, z: int)
    requires Cong(d, x, y) && Cong(d, y, z)
    ensures Cong(d, x, z)
  {
    DividesSum(d, x - y, y - z);
    assert (x - y) + (y - z) == x - z;
  }

  lemma {:induction false} CongTimes(d: int, x: int, y: int, u: int, v: int)
    requires Cong(d, x, y) && Cong(d, u, v)
    ensures Cong(d, x * u, y * v)
  {
    DividesTimes(d, x - y, u);
    DividesTimes(d, u - v, y);
    DividesSum(d, (x - y) * u, y * (u - v));
    Expand(x, y, u, v);
  }

  lemma {:induction false} Expand(x: int, y: int, u: int, v: int)
    ensures (x - y) * u + y * (u - v) == x * u - y * v
  {
  }

  lemma {:induction false} Remainder(x: int, d: nat)
    requires d > 0
    ensures Cong(d, x % d, x) && 0 <= x % d < d
  {
    assert x == d * (x / d) + x % d;
    assert Times(d, -(x / d)) == x % d - x;
  }

  lemma {:induction false} CongSmall(d: nat, x: int, y: int)
    requires Cong(d, x, y) && 0 <= x < d && 0 <= y < d
    ensures x == y
  {
    DividesSmall(d, x - y);
  }

  /** A congruent number in range is the remainder. */
  lemma {:induction false} RemainderIs(d: nat, x: int, y: int)
    requires d > 0 && Cong(d, x, y) && 0 <= x < d
    ensures x == y % d
  {
    Remainder(y, d);
    CongSymm(d, y % d, y);
    CongTrans(d, x, y, y % d);
    CongSmall(d, x, y % d);
  }

  /** Equal remainders are the same as a difference that d divides. */
  lemma {:induction false} SameRemainder(d: nat, x: int, y: int)
    requires d > 0
    ensures x % d == y % d <==> Cong(d, x, y)
  {
    Remainder(x, d);
    Remainder(y, d);
    CongSymm(d, y % d, y);
    CongSymm(d, x % d, x);
    if x % d == y % d { CongTrans(d, x, x % d, y); }
    if Cong(d, x, y) {
      CongTrans(d, x % d, x, y);
      RemainderIs(d, x % d, y);
    }
  }

  // ----- powers -----

  lemma {:induction false} PowAdd(a: int, m: nat, n: nat)
    ensures Pow(a, m + n) == Pow(a, m) * Pow(a, n)
    decreases m
  {
    if m > 0 {
      PowAdd(a, m - 1, n);
      Assoc(a, Pow(a, m - 1), Pow(a, n));
    }
  }

  // ----- primes -----

  /** Euclid's lemma, for a first factor below the prime. */
  lemma {:induction false} EuclidSmall(p: nat, a: nat, b: int)
    requires Prime(p) && 0 < a < p && Divides(p, a * b)
    ensures Divides(p, b)
    decreases a
  {
    if a > 1 {
      var q, r := p / a, p % a;
      assert p == a * q + r;
      assert !Divides(a, p);
      assert Times(a, q) == a * q;
      MultipleDivides(p, b);
      DividesTimes(p, a * b, q);
      DividesSum(p, p * b, q * (a * b));
      RestTimes(p, a, q, r, b);
      EuclidSmall(p, r, b);
    }
  }

  lemma {:induction false} RestTimes(p: int, a: int, q: int, r: int, b: int)
    requires p == a * q + r
    ensures p * b - q * (a * b) == r * b
  {
    assert p * b == (a * q) * b + r * b;
    Assoc(a, q, b);
    Assoc(q, a, b);
  }

  lemma {:induction false} Euclid(p: nat, a: int, b: int)
    requires Prime(p) && Divides(p, a * b)
    ensures Divides(p, a) || Divides(p, b)
  {
    var r := a % p;
    Remainder(a, p);
    CongSame(p, b);
    CongTimes(p, r, a, b, b);
    DividesSum(p, r * b - a * b, a * b);
    if r > 0 {
      EuclidSmall(p, r, b);
    } else {
      CongSymm(p, r, a);
    }
  }

  // ----- binomial coefficients -----

  function Choose(n: nat, k: nat): nat {
    if k == 0 then 1 else if n == 0 then 0 else Choose(n - 1, k - 1) + Choose(n - 1, k)
  }

  lemma {:induction false} ChooseBeyond(n: nat, k: nat)
    requires k > n
    ensures Choose(n, k) == 0
  {
    if n > 0 { ChooseBeyond(n - 1, k - 1); ChooseBeyond(n - 1, k); }
  }

  lemma {:induction false} ChooseAll(n: nat)
    ensures Choose(n, n) == 1
  {
    if n > 0 { ChooseAll(n - 1); ChooseBeyond(n - 1, n); }
  }

  lemma {:induction false} Absorption(n: nat, k: nat)
    ensures (k + 1) * Choose(n + 1, k + 1) == (n + 1) * Choose(n, k)
    decreases n
  {
    if n == 0 {
      if k > 0 { ChooseBeyond(0, k); ChooseBeyond(1, k + 1); } else { ChooseAll(1); ChooseAll(0); }
    } else {
      var x, y, z := (if k == 0 then 0 else Choose(n - 1, k - 1)), Choose(n - 1, k), Choose(n, k + 1);
      if k > 0 { Absorption(n - 1, k - 1); } else { ChooseFirst(n); ChooseFirst(n - 1); }
      Absorption(n - 1, k);
      assert k * Choose(n, k) == n * x;
      AbsorptionStep(n, k, x, y, Choose(n, k), z);
    }
  }

  lemma {:induction false} ChooseFirst(n: nat)
    ensures Choose(n, 0) == 1
  {
  }

  lemma {:induction false} AbsorptionStep(n: nat, k: nat, x: int, y: int, c: int, z: int)
    requires k * c == n * x && (k + 1) * z == n * y
    requires c == (if k == 0 then 1 else x + y) && (k == 0 ==> y == 1 && x == 0)
    ensures (k + 1) * (c + z) == (n + 1) * c
  {
    assert (k + 1) * (c + z) == k * c + c + (k + 1) * z;
    assert n * x + n * y == n * (x + y);
    assert (n + 1) * c == n * c + c;
  }

  /** The sum of C(n, i) a^i for i < k. */
  function Binomial(n: nat, a: int, k: nat): int {
    if k == 0 then 0 else Binomial(n, a, k - 1) + Choose(n, k - 1) * Pow(a, k - 1)
  }

  lemma {:induction false} BinomialPascal(n: nat, a: int, k: nat)
    ensures Binomial(n + 1, a, k + 1) == Binomial(n, a, k + 1) + a * Binomial(n, a, k)
    decreases k
  {
    if k == 0 {
      BinomialFirst(n, a);
      BinomialFirst(n + 1, a);
    } else {
      BinomialPascal(n, a, k - 1);
      PascalStep(a, Choose(n, k - 1), Choose(n, k), Pow(a, k - 1), Binomial(n, a, k - 1));
    }
  }

  lemma {:induction false} BinomialFirst(n: nat, a: int)
    ensures Binomial(n, a, 1) == 1
  {
    ChooseFirst(n);
    assert Binomial(n, a, 0) == 0 && Pow(a, 0) == 1;
  }

  lemma {:induction false} PascalStep(a: int, c: int, d: int, w: int, s: int)
    ensures (c + d) * (a * w) + a * s == d * (a * w) + a * (s + c * w)
  {
    assert (c + d) * (a * w) == c * (a * w) + d * (a * w);
    Assoc(a, c, w);
  }

  lemma {:induction false} OneMore(a: int, w: int)
    ensures (a + 1) * w == a * w + w
  {
  }

  lemma {:induction false} BinomialTheorem(n: nat, a: int)
    ensures Pow(a + 1, n) == Binomial(n, a, n + 1)
  {
    if n == 0 {
      BinomialFirst(0, a);
    } else {
      BinomialTheorem(n - 1, a);
      BinomialPascal(n - 1, a, n);
      ChooseBeyond(n - 1, n);
      OneMore(a, Pow(a + 1, n - 1));
    }
  }

  lemma {:induction false} PrimeDividesChoose(p: nat, k: nat)
    requires Prime(p) && 0 < k < p
    ensures Divides(p, Choose(p, k))
  {
    Absorption(p - 1, k - 1);
    MultipleDivides(p, Choose(p - 1, k - 1));
    EuclidSmall(p, k, Choose(p, k));
  }

  lemma {:induction false} InnerTerms(p: nat, a: int, k: nat)
    requires Prime(p) && 1 <= k <= p
    ensures Cong(p, Binomial(p, a, k), 1)
    decreases k
  {
    if k == 1 {
      BinomialFirst(p, a);
      CongSame(p, 1);
    } else {
      InnerTerms(p, a, k - 1);
      PrimeDividesChoose(p, k - 1);
      DividesTimes(p, Choose(p, k - 1), Pow(a, k - 1));
      DividesSum(p, Binomial(p, a, k - 1) - 1, Choose(p, k - 1) * Pow(a, k - 1));
    }
  }

  /** Fermat's little theorem: a^p and a leave the same remainder. */
  lemma {:induction false} FermatLittle(p: nat, a: nat)
    requires Prime(p)
    ensures Cong(p, Pow(a, p), a)
  {
    if a == 0 {
      CongSame(p, 0);
    } else {
      FermatLittle(p, a - 1);
      BinomialTheorem(p, a - 1);
      InnerTerms(p, a - 1, p);
      ChooseAll(p);
      DividesSum(p, Binomial(p, a - 1, p) - 1, Pow(a - 1, p) - (a - 1));
    }
  }

  /** For a that the prime does not divide, a^(p-1) leaves remainder 1. */
  lemma {:induction false} FermatUnit(p: nat, a: nat)
    requires Prime(p) && !Divides(p, a)
    ensures Cong(p, Pow(a, p - 1), 1)
  {
    FermatLittle(p, a);
    assert Pow(a, p) - a == a * (Pow(a, p - 1) - 1);
    Euclid(p, a, Pow(a, p - 1) - 1);
  }
}
