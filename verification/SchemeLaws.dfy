/** What the primitive procedures answer, what a quotation denotes, and what the names of the
    global environment stand for. */
module SchemeLaws {
  import opened Scheme

  function One<T>(x: T): List<T> { Cons(x, Nil) }
  function Two<T>(x: T, y: T): List<T> { Cons(x, Cons(y, Nil)) }

  // ----- pairs and lists -----

  /** What cons puts together car and cdr take apart, and it is not the empty list. */
  lemma {:induction false} ConsLaws<C>(a: Value<C>, d: Value<C>)
    ensures ApplyPrimitive(ConsPair, Two(a, d)).Ok?
    ensures var p := ApplyPrimitive(ConsPair, Two(a, d)).value;
            && ApplyPrimitive(Car, One(p)) == Ok(a) && ApplyPrimitive(Cdr, One(p)) == Ok(d)
            && ApplyPrimitive(IsNull, One(p)) == Ok(Bool(false))
  {
  }

  /** cdr applied k times. */
  function CdrTimes<C>(v: Value<C>, k: nat): Result<Value<C>>
    decreases k
  {
    if k == 0 then Ok(v) else
      var r := ApplyPrimitive(Cdr, One(v));
      if r.Ok? then CdrTimes(r.value, k - 1) else r
  }

  /** The car of the k-th cdr of a list is its k-th element, and past the last there is the
      empty list. */
  lemma {:induction false} ListLaw<C>(vs: List<Value<C>>, k: nat)
    requires k <= Length(vs)
    ensures ApplyPrimitive(MakeList, vs).Ok?
    ensures var r := CdrTimes(ApplyPrimitive(MakeList, vs).value, k);
            && r.Ok?
            && ApplyPrimitive(IsNull, One(r.value)) == Ok(Bool(k == Length(vs)))
            && (k < Length(vs) ==> ApplyPrimitive(Car, One(r.value)) == Ok(Nth(vs, k)))
    decreases k
  {
    if k > 0 {
      ListLaw(vs.tail, k - 1);
      assert ApplyPrimitive(Cdr, One(ToSchemeList(vs))) == Ok(ToSchemeList(vs.tail));
    }
  }

  /** null? is true of the list of nothing alone. */
  lemma {:induction false} NullLaw<C>(v: Value<C>)
    ensures ApplyPrimitive(IsNull, One(v)) == Ok(Bool(true)) <==> ApplyPrimitive(MakeList, Nil) == Ok(v)
    ensures ApplyPrimitive(IsNull, One(v)) == Ok(Bool(false)) <==> ApplyPrimitive(MakeList, Nil) != Ok(v)
  {
  }

  // ----- arithmetic -----

  /** Positions of a list from its second element on are those of the rest. */
  lemma {:induction false} NthTail<T>(xs: List<T>)
    requires xs.Cons?
    ensures Length(xs) == Length(xs.tail) + 1 && Nth(xs, 0) == xs.head
    ensures forall i: int :: 0 < i < Length(xs) ==> Nth(xs, i) == Nth(xs.tail, i - 1)
  {
  }

  lemma {:induction false} ZeroFactor(x: real, y: real)
    ensures x * y == 0.0 <==> x == 0.0 || y == 0.0
  {
    if x != 0.0 { assert y == (x * y) / x; }
  }

  ghost predicate Numbers<C>(vs: List<Value<C>>) {
    forall i :: 0 <= i < Length(vs) ==> Nth(vs, i).Num?
  }

  lemma {:induction false} NumbersAll<C>(vs: List<Value<C>>)
    ensures AllNums(vs) <==> Numbers(vs)
  {
    match vs
    case Nil =>
    case Cons(v, t) =>
      NumbersAll(t);
      NthTail(vs);
      if Numbers(vs) {
        assert Nth(vs, 0).Num?;
        forall i: nat | i < Length(t) ensures Nth(t, i).Num? { assert Nth(vs, i + 1).Num?; }
      }
  }

  lemma {:induction false} SumAppend<C>(xs: List<Value<C>>, ys: List<Value<C>>)
    requires AllNums(xs) && AllNums(ys)
    ensures AllNums(Concat(xs, ys))
    ensures Sum(Concat(xs, ys)) == Sum(xs) + Sum(ys)
  {
    if xs.Cons? { SumAppend(xs.tail, ys); }
  }

  lemma {:induction false} TimesAssociates(x: real, y: real, z: real)
    ensures x * (y * z) == x * y * z
  {
  }

  lemma {:induction false} ProductAppend<C>(xs: List<Value<C>>, ys: List<Value<C>>)
    returns (a: real, b: real, c: real)
    requires AllNums(xs) && AllNums(ys)
    ensures AllNums(Concat(xs, ys))
    ensures a == Product(xs) && b == Product(ys) && c == Product(Concat(xs, ys)) && c == a * b
  {
    if xs.Cons? {
      a, b, c := ProductAppend(xs.tail, ys);
      TimesAssociates(xs.head.r, a, b);
      a, c := xs.head.r * a, xs.head.r * c;
    } else {
      a, b, c := 1.0, Product(ys), Product(ys);
    }
  }

  /** + of no number is 0, of one number that number, and of two lists of numbers one after the
      other the sum of what it is of each. */
  lemma {:induction false} AddLaws<C>(x: real, xs: List<Value<C>>, ys: List<Value<C>>) returns (a: real, b: real)
    requires Numbers(xs) && Numbers(ys)
    ensures ApplyPrimitive<C>(Add, Nil) == Ok(Num(0.0)) && ApplyPrimitive<C>(Add, One(Num(x))) == Ok(Num(x))
    ensures ApplyPrimitive(Add, xs) == Ok(Num(a)) && ApplyPrimitive(Add, ys) == Ok(Num(b))
    ensures ApplyPrimitive(Add, Concat(xs, ys)) == Ok(Num(a + b))
  {
    NumbersAll(xs);
    NumbersAll(ys);
    SumAppend(xs, ys);
    a, b := Sum(xs), Sum(ys);
  }

  lemma {:induction false} MulIsProduct<C>(vs: List<Value<C>>)
    requires AllNums(vs)
    ensures ApplyPrimitive(Mul, vs) == Ok(Num(Product(vs)))
  {
  }

  lemma {:induction false} MulUnits<C>(x: real)
    ensures ApplyPrimitive<C>(Mul, Nil) == Ok(Num(1.0)) && ApplyPrimitive<C>(Mul, One(Num(x))) == Ok(Num(x))
  {
    assert Product<C>(One(Num(x))) == x;
  }

  /** * likewise, with 1 and the product. */
  lemma {:induction false} MulLaws<C>(xs: List<Value<C>>, ys: List<Value<C>>) returns (a: real, b: real, c: real)
    requires Numbers(xs) && Numbers(ys)
    ensures ApplyPrimitive(Mul, xs) == Ok(Num(a)) && ApplyPrimitive(Mul, ys) == Ok(Num(b))
    ensures ApplyPrimitive(Mul, Concat(xs, ys)) == Ok(Num(c)) && c == a * b
  {
    NumbersAll(xs);
    NumbersAll(ys);
    a, b, c := ProductAppend(xs, ys);
    MulIsProduct(xs);
    MulIsProduct(ys);
    MulIsProduct(Concat(xs, ys));
  }

  /** The difference added to what was subtracted is what it was subtracted from; with one
      argument it is subtracted from 0. */
  lemma {:induction false} SubLaw<C>(a: real, rest: List<Value<C>>)
    requires Numbers(rest)
    ensures var r := ApplyPrimitive<C>(Sub, Cons(Num(a), rest));
            && r.Ok?
            && ApplyPrimitive(Add, Cons(r.value, rest)) == (if rest.Nil? then Ok(Num(-a)) else Ok(Num(a)))
  {
    NumbersAll(rest);
  }

  lemma {:induction false} ZeroProduct<C>(vs: List<Value<C>>)
    requires vs.Cons? && AllNums(vs)
    ensures Product(vs) == 0.0 <==> vs.head == Num(0.0) || Product(vs.tail) == 0.0
  {
    ZeroFactor(vs.head.r, Product(vs.tail));
  }

  ghost predicate ZeroIn<C>(vs: List<Value<C>>) {
    exists i :: 0 <= i < Length(vs) && Nth(vs, i) == Num(0.0)
  }

  lemma {:induction false} ProductZero<C>(vs: List<Value<C>>)
    requires AllNums(vs)
    ensures Product(vs) == 0.0 <==> ZeroIn(vs)
  {
    match vs
    case Nil =>
    case Cons(v, t) =>
      ProductZero(t);
      NthTail(vs);
      ZeroProduct(vs);
      if v.r == 0.0 {
        assert Nth(vs, 0) == Num(0.0);
      } else if Product(t) == 0.0 {
        var i: nat :| i < Length(t) && Nth(t, i) == Num(0.0);
        assert Nth(vs, i + 1) == Num(0.0);
      } else {
        forall i | 0 <= i < Length(vs) ensures Nth(vs, i) != Num(0.0) { if i > 0 { assert Nth(t, i - 1) != Num(0.0); } }
      }
  }

  /** The quotient times the divisors is the dividend, if none of them is zero; with one argument
      the dividend is 1. */
  lemma {:induction false} DivLaw<C>(a: real, rest: List<Value<C>>)
    requires Numbers(rest) && rest.Cons? && !ZeroIn(rest)
    ensures var r := ApplyPrimitive<C>(Div, Cons(Num(a), rest));
            r.Ok? && ApplyPrimitive(Mul, Cons(r.value, rest)) == Ok(Num(a))
    ensures a != 0.0 ==>
              var r := ApplyPrimitive<C>(Div, One(Num(a)));
              r.Ok? && ApplyPrimitive(Mul, Two(r.value, Num(a))) == Ok(Num(1.0))
  {
    NumbersAll(rest);
    ProductZero(rest);
    var p := Product(rest);
    var q: Value<C> := Num(a / p);
    assert (a / p) * p == a;
    assert Product(Cons(q, rest)) == a;
    if a != 0.0 {
      var r: Value<C> := Num(1.0 / a);
      assert (1.0 / a) * a == 1.0;
      assert Product(One<Value<C>>(Num(a))) == a;
      assert Product(Two(r, Num(a))) == (1.0 / a) * a;
    }
  }

  ghost predicate AllAre<T>(vs: List<T>, v: T) { forall i :: 0 <= i < Length(vs) ==> Nth(vs, i) == v }

  lemma {:induction false} AllAreStep<T>(vs: List<T>, v: T)
    requires vs.Cons?
    ensures AllAre(vs, v) <==> vs.head == v && AllAre(vs.tail, v)
  {
    NthTail(vs);
    if AllAre(vs, v) {
      assert Nth(vs, 0) == v;
      forall i | 0 <= i < Length(vs.tail) ensures Nth(vs.tail, i) == v { assert Nth(vs, i + 1) == v; }
    }
  }

  lemma {:induction false} EqualAll<C>(x: real, vs: List<Value<C>>)
    requires AllNums(vs)
    ensures AllEqualTo(x, vs) <==> AllAre(vs, Num(x))
  {
    if vs.Cons? {
      EqualAll(x, vs.tail);
      AllAreStep(vs, Num(x));
    }
  }

  ghost predicate AllSame<T>(vs: List<T>) {
    forall i, j :: 0 <= i < Length(vs) && 0 <= j < Length(vs) ==> Nth(vs, i) == Nth(vs, j)
  }

  /** = answers whether all its arguments are the same number. */
  lemma {:induction false} EqualLaw<C>(vs: List<Value<C>>)
    requires Numbers(vs)
    ensures ApplyPrimitive(NumEq, vs) == Ok(Bool(AllSame(vs)))
  {
    NumbersAll(vs);
    if vs.Cons? {
      var v, t := vs.head, vs.tail;
      EqualAll(v.r, t);
      NthTail(vs);
      if AllEqualTo(v.r, t) {
        forall i | 0 <= i < Length(vs) ensures Nth(vs, i) == v { if i > 0 { assert Nth(t, i - 1) == v; } }
      } else {
        var i: nat :| i < Length(t) && Nth(t, i) != v;
        assert Nth(vs, i + 1) != Nth(vs, 0);
      }
    }
  }

  // ----- errors -----

  /** The arguments a primitive procedure accepts. */
  ghost predicate Accepts<C>(op: Prim, vs: List<Value<C>>) {
    match op
    case Car => Length(vs) == 1 && Nth(vs, 0).Pair?
    case Cdr => Length(vs) == 1 && Nth(vs, 0).Pair?
    case ConsPair => Length(vs) == 2
    case IsNull => Length(vs) == 1
    case MakeList => true
    case Sub => Length(vs) >= 1 && Numbers(vs)
    case Div => Length(vs) >= 1 && Numbers(vs) && !ZeroIn(if Length(vs) == 1 then vs else vs.tail)
    case _ => Numbers(vs)
  }

  /** A primitive procedure answers exactly if it accepts its arguments, and reports bad
      arguments otherwise. */
  lemma {:induction false} AnswersIff<C>(op: Prim, vs: List<Value<C>>)
    ensures ApplyPrimitive(op, vs).Ok? <==> Accepts(op, vs)
    ensures !ApplyPrimitive(op, vs).Ok? ==> ApplyPrimitive(op, vs) == Err(BadArguments)
  {
    LengthCases(vs);
    NumbersAll(vs);
    if op.Div? && vs.Cons? && AllNums(vs) { DivAnswersIff(vs); }
  }

  lemma {:induction false} DivAnswersIff<C>(vs: List<Value<C>>)
    requires vs.Cons? && AllNums(vs)
    ensures vs.tail.Nil? ==> (ApplyPrimitive(Div, vs).Ok? <==> !ZeroIn(vs))
    ensures vs.tail.Cons? ==> (ApplyPrimitive(Div, vs).Ok? <==> !ZeroIn(vs.tail))
  {
    if vs.tail.Nil? {
      ProductZero(vs);
      ZeroProduct(vs);
      assert Product(vs.tail) == 1.0;
    } else {
      ProductZero(vs.tail);
    }
  }

  lemma {:induction false} LengthCases<T>(vs: List<T>)
    ensures Length(vs) == 0 <==> vs.Nil?
    ensures Length(vs) == 1 <==> vs.Cons? && vs.tail.Nil?
    ensures Length(vs) == 2 <==> vs.Cons? && vs.tail.Cons? && vs.tail.tail.Nil?
    ensures Length(vs) > 0 ==> Nth(vs, 0) == vs.head
  {
    if vs.Cons? && vs.tail.Cons? { assert Length(vs) == 2 + Length(vs.tail.tail); }
  }

  // ----- the global environment -----

  function Globals(): set<Name> {
    {"true", "false", "car", "cdr", "cons", "null?", "+", "-", "*", "/", "list", "="}
  }

  lemma {:induction false} ScanStep<C>(x: Name, frame: Frame<C>)
    requires frame.Cons?
    ensures Scan(x, frame) == if frame.head.name == x then Found(frame.head.value) else Scan(x, frame.tail)
  {
  }

  /** The twelve names of the global environment, and what they stand for. */
  lemma {:induction false} GlobalNames<C>(x: Name)
    ensures var r := Lookup<C>(x, One(0), [GlobalFrame()]);
            && (x == "true" ==> r == Ok(Bool(true))) && (x == "false" ==> r == Ok(Bool(false)))
            && (x == "car" ==> r == Ok(Primitive(Car))) && (x == "cdr" ==> r == Ok(Primitive(Cdr)))
            && (x == "cons" ==> r == Ok(Primitive(ConsPair))) && (x == "null?" ==> r == Ok(Primitive(IsNull)))
            && (x == "+" ==> r == Ok(Primitive(Add))) && (x == "-" ==> r == Ok(Primitive(Sub)))
            && (x == "*" ==> r == Ok(Primitive(Mul))) && (x == "/" ==> r == Ok(Primitive(Div)))
            && (x == "list" ==> r == Ok(Primitive(MakeList))) && (x == "=" ==> r == Ok(Primitive(NumEq)))
            && (x !in Globals() ==> r == Err(UnboundVariable(x)))
  {
    var g: Frame<C> := GlobalFrame();
    var t1 := g.tail;
    var t2 := t1.tail;
    var t3 := t2.tail;
    var t4 := t3.tail;
    var t5 := t4.tail;
    var t6 := t5.tail;
    var t7 := t6.tail;
    var t8 := t7.tail;
    var t9 := t8.tail;
    ScanStep(x, g);
    ScanStep(x, t1);
    ScanStep(x, t2);
    ScanStep(x, t3);
    ScanStep(x, t4);
    ScanStep(x, t5);
    ScanStep(x, t6);
    ScanStep(x, t7);
    ScanStep(x, t8);
    ScanStep(x, t9);
    ScanStep(x, t9.tail);
    ScanStep(x, t9.tail.tail);
    assert Lookup(x, One(0), [g]) == match Scan(x, g) case Missing => Err(UnboundVariable(x)) case Found(v) => Ok(v);
  }

  // ----- quotation -----

  datatype Text = NoText | Text(d: Datum)

  /** What a value is written as; procedures cannot be written. */
  function Written<C>(v: Value<C>): Text {
    match v
    case Num(r) => Text(DNum(r))
    case Str(s) => Text(DStr(s))
    case Sym(x) => Text(DSym(x))
    case Bool(b) => Text(DBool(b))
    case Null => Text(DNull)
    case Pair(a, d) =>
      var x, y := Written(a), Written(d);
      if x.NoText? || y.NoText? then NoText else Text(DPair(x.d, y.d))
    case Primitive(_) => NoText
    case Obj(_) => NoText
  }

  /** A quotation is written as the text that was quoted, and no other value is. */
  lemma {:induction false} QuotedIsWritten<C>(d: Datum, v: Value<C>)
    ensures Written(v) == Text(d) <==> v == FromDatum(d)
  {
    match v
    case Pair(a, b) =>
      if d.DPair? {
        QuotedIsWritten(d.a, a);
        QuotedIsWritten(d.d, b);
      }
    case _ =>
  }

  /** The car and the cdr of a quoted pair are the quoted car and cdr. */
  lemma {:induction false} QuotedPair<C>(a: Datum, d: Datum)
    ensures ApplyPrimitive<C>(Car, One(FromDatum(DPair(a, d)))) == Ok(FromDatum(a))
    ensures ApplyPrimitive<C>(Cdr, One(FromDatum(DPair(a, d)))) == Ok(FromDatum(d))
  {
  }
}
