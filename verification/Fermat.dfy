/** The Fermat tests of exercises 1.24 and 1.27. All numbers here are non-negative, where
    `remainder` is the remainder of the division. */
module Fermat {
  import opened NumberTheory

  // ----- fast modular exponentiation -----

  function Square(n: int): int { n * n }

  /** expo of 1.24 */
  function Expo(a: nat, n: nat, m: nat): int
    requires m > 0
  {
    if n == 0 then 1 % m
    else if n % 2 == 0 then Square(Expo(a, n / 2, m)) % m
    else (a * Expo(a, n - 1, m)) % m
  }

  /** fast-expo of 1.27, which does not reduce a zeroth power */
  function FastExpo(a: nat, n: nat, m: nat): int
    requires m > 0
  {
    if n == 0 then 1
    else if n % 2 == 0 then Square(FastExpo(a, n / 2, m)) % m
    else (a * Square(FastExpo(a, (n - 1) / 2, m))) % m
  }

  lemma {:induction false} ExpoIsPower(a: nat, n: nat, m: nat)
    requires m > 0
    ensures Expo(a, n, m) == Pow(a, n) % m
    decreases n
  {
    if n == 0 {
    } else if n % 2 == 0 {
      var x := Expo(a, n / 2, m);
      ExpoIsPower(a, n / 2, m);
      RemainderTwice(Pow(a, n / 2), m);
      SquareCong(a, n / 2, x, m);
      CongRemainder(m, Square(x), Pow(a, n));
    } else {
      ExpoIsPower(a, n - 1, m);
      OneFactor(a, Pow(a, n - 1), m);
    }
  }

  lemma {:induction false} OneFactor(a: int, w: int, m: nat)
    requires m > 0
    ensures (a * (w % m)) % m == (a * w) % m
  {
    Remainder(w, m);
    CongSame(m, a);
    CongTimes(m, a, a, w % m, w);
    CongRemainder(m, a * (w % m), a * w);
  }

  lemma {:induction false} CongRemainder(m: nat, x: int, y: int)
    requires m > 0 && Cong(m, x, y)
    ensures x % m == y % m
  {
    SameRemainder(m, x, y);
  }

  /** Squaring a number congruent to a^h gives one congruent to a^2h. */
  lemma {:induction false} SquareCong(a: nat, h: nat, x: int, m: nat)
    requires m > 0 && x % m == Pow(a, h) % m
    ensures Cong(m, Square(x), Pow(a, h + h))
  {
    SameRemainder(m, x, Pow(a, h));
    CongTimes(m, x, Pow(a, h), x, Pow(a, h));
    PowAdd(a, h, h);
  }

  /** The fast form of 1.27 is the power too, except for the zeroth power modulo 1. */
  lemma {:induction false} FastExpoIsPower(a: nat, n: nat, m: nat)
    requires m > 0
    ensures FastExpo(a, n, m) % m == Pow(a, n) % m
    ensures FastExpo(a, n, m) == Pow(a, n) % m <==> n > 0 || m > 1
    decreases n
  {
    if n == 0 {
    } else if n % 2 == 0 {
      FastExpoIsPower(a, n / 2, m);
      SquareStep(a, n / 2, FastExpo(a, n / 2, m), m);
    } else {
      FastExpoIsPower(a, (n - 1) / 2, m);
      SquareStep(a, (n - 1) / 2, FastExpo(a, (n - 1) / 2, m), m);
    }
  }

  /** One step of either parity from a number congruent to the h-th power. */
  lemma {:induction false} SquareStep(a: nat, h: nat, x: int, m: nat)
    requires m > 0 && x % m == Pow(a, h) % m
    ensures Square(x) % m % m == Square(x) % m == Pow(a, h + h) % m
    ensures (a * Square(x)) % m % m == (a * Square(x)) % m == Pow(a, h + h + 1) % m
  {
    SquareCong(a, h, x, m);
    CongRemainder(m, Square(x), Pow(a, h + h));
    CongSame(m, a);
    CongTimes(m, a, a, Square(x), Pow(a, h + h));
    CongRemainder(m, a * Square(x), Pow(a, h + h + 1));
    RemainderTwice(Square(x), m);
    RemainderTwice(a * Square(x), m);
  }

  lemma {:induction false} RemainderTwice(x: int, m: nat)
    requires m > 0
    ensures x % m % m == x % m
  {
    Remainder(x, m);
    CongRemainder(m, x % m, x);
  }

  // ----- the randomised test of 1.24 -----

  predicate FermatTest(a: nat, n: nat)
    requires n > 0
  {
    a % n == Expo(a, n, n) % n
  }

  /** `random` answers the elements of `draws` in turn, each below n - 1. */
  function Iterate(n: nat, draws: seq<nat>): bool
    requires n > 0
  {
    if draws == [] then true
    else if FermatTest(1 + draws[0], n) then Iterate(n, draws[1..])
    else false
  }

  /** fast-prime? draws ten times; `random` needs n - 1 to be positive. */
  function FastPrime(n: nat, draws: seq<nat>): bool
    requires n >= 2 && |draws| == 10 && forall k :: 0 <= k < 10 ==> draws[k] < n - 1
  {
    Iterate(n, draws)
  }

  /** What the test of one base decides. */
  lemma {:induction false} FermatTestMeaning(a: nat, n: nat)
    requires n > 0
    ensures FermatTest(a, n) <==> Cong(n, Pow(a, n), a)
  {
    ExpoIsPower(a, n, n);
    RemainderTwice(Pow(a, n), n);
    SameRemainder(n, Pow(a, n), a);
  }

  /** The answer is yes exactly when every base drawn is congruent to its n-th power. */
  lemma {:induction false} IterateMeaning(n: nat, draws: seq<nat>)
    requires n > 0
    ensures Iterate(n, draws) <==> forall k :: 0 <= k < |draws| ==> FermatTest(1 + draws[k], n)
  {
    if draws != [] { IterateMeaning(n, draws[1..]); }
  }

  /** fast-prime? answers yes exactly when each of its ten bases 1 + random(n - 1) is congruent to
      its own n-th power modulo n. */
  lemma {:induction false} FastPrimeMeaning(n: nat, draws: seq<nat>)
    requires n >= 2 && |draws| == 10 && forall k :: 0 <= k < 10 ==> draws[k] < n - 1
    ensures FastPrime(n, draws) <==> forall k :: 0 <= k < 10 ==> Cong(n, Pow(1 + draws[k], n), 1 + draws[k])
  {
    IterateMeaning(n, draws);
    forall k | 0 <= k < 10 ensures FermatTest(1 + draws[k], n) <==> Cong(n, Pow(1 + draws[k], n), 1 + draws[k]) {
      FermatTestMeaning(1 + draws[k], n);
    }
  }

  /** A prime passes whatever is drawn. */
  lemma {:induction false} PrimesPass(n: nat, draws: seq<nat>)
    requires Prime(n) && |draws| == 10 && forall k :: 0 <= k < 10 ==> draws[k] < n - 1
    ensures FastPrime(n, draws)
  {
    forall k | 0 <= k < 10 ensures Cong(n, Pow(1 + draws[k], n), 1 + draws[k]) { FermatLittle(n, 1 + draws[k]); }
    FastPrimeMeaning(n, draws);
  }

  // ----- the exhaustive test of 1.27 -----

  function Iter(a: nat, n: nat): bool
    requires 1 <= a <= n
    decreases n - a
  {
    if a == n then true
    else if FastExpo(a, n, n) == a then Iter(a + 1, n)
    else false
  }

  function ExhaustiveTest(n: nat): bool
    requires n >= 1
  {
    Iter(1, n)
  }

  lemma {:induction false} OneBase(a: nat, n: nat)
    requires 1 <= a < n
    ensures FastExpo(a, n, n) == a <==> Cong(n, Pow(a, n), a)
  {
    FastExpoIsPower(a, n, n);
    var y := FastExpo(a, n, n);
    Remainder(Pow(a, n), n);
    if Cong(n, Pow(a, n), a) {
      CongTrans(n, y, Pow(a, n), a);
      CongSmall(n, y, a);
    } else if y == a {
      CongSymm(n, y, Pow(a, n));
    }
  }

  /** The answer is yes exactly when every base from a up to n is congruent to its n-th power. */
  lemma {:induction false} IterMeaning(a: nat, n: nat)
    requires 1 <= a <= n
    ensures Iter(a, n) <==> forall b: nat :: a <= b < n ==> Cong(n, Pow(b, n), b)
    decreases n - a
  {
    if a < n {
      OneBase(a, n);
      IterMeaning(a + 1, n);
    }
  }

  lemma {:induction false} PrimesPassExhaustively(n: nat)
    requires Prime(n)
    ensures ExhaustiveTest(n)
  {
    forall b: nat | 1 <= b < n ensures Cong(n, Pow(b, n), b) { FermatLittle(n, b); }
    IterMeaning(1, n);
  }
}
