/** What the interpreters of chapters 3 and 4 share: lists, values, the primitive
    procedures, and environments over a store of mutable frames.

    `Value` is generic in the payload `C` of the objects an evaluator adds (procedures,
    thunks), so that one primitive table and one set of environment operations serve
    all of them. A map `h: C -> D` of payloads lifts to values, frames and stores, and
    every operation below commutes with it. */
module Scheme {

  datatype List<+T> = Nil | Cons(head: T, tail: List<T>)

  function Length<T>(xs: List<T>): nat {
    match xs
    case Nil => 0
    case Cons(_, t) => 1 + Length(t)
  }

  function Nth<T>(xs: List<T>, i: nat): T
    requires i < Length(xs)
  {
    if i == 0 then xs.head else Nth(xs.tail, i - 1)
  }

  function Concat<T>(xs: List<T>, ys: List<T>): List<T> {
    match xs
    case Nil => ys
    case Cons(x, t) => Cons(x, Concat(t, ys))
  }

  type Name = string

  datatype Error =
    | UnboundVariable(name: Name)
    | UnboundSet(name: Name)
    | UnassignedVariable(name: Name)
    | TooManyArguments
    | TooFewArguments
    | UnknownProcedure
    | BadArguments

  /** `Timeout` is not an answer of the interpreters: the run is longer than the fuel. */
  datatype Result<+T> = Ok(value: T) | Err(error: Error) | Timeout

  datatype Prim = Car | Cdr | ConsPair | IsNull | Add | Sub | Mul | Div | MakeList | NumEq

  /** Text after a quote, and self-evaluating expressions. Numbers are exact. */
  datatype Datum =
    | DNum(r: real) | DStr(s: string) | DSym(name: Name) | DBool(b: bool)
    | DNull | DPair(a: Datum, d: Datum)

  datatype Value<+C> =
    | Num(r: real) | Str(s: string) | Sym(name: Name) | Bool(b: bool)
    | Null | Pair(car: Value<C>, cdr: Value<C>) | Primitive(op: Prim) | Obj(c: C)

  function FromDatum<C>(d: Datum): Value<C> {
    match d
    case DNum(r) => Num(r)
    case DStr(s) => Str(s)
    case DSym(x) => Sym(x)
    case DBool(b) => Bool(b)
    case DNull => Null
    case DPair(a, b) => Pair(FromDatum(a), FromDatum(b))
  }

  /** Everything except #f counts as true. */
  predicate True<C>(v: Value<C>) {
    !(v.Bool? && !v.b)
  }

  /** Numbers, strings, symbols, booleans, lists of them, and primitive procedures. */
  predicate Data<C>(v: Value<C>) {
    match v
    case Pair(a, d) => Data(a) && Data(d)
    case Obj(_) => false
    case _ => true
  }

  // ----- primitive procedures -----

  predicate AllNums<C>(vs: List<Value<C>>) {
    match vs
    case Nil => true
    case Cons(v, t) => v.Num? && AllNums(t)
  }

  function Sum<C>(vs: List<Value<C>>): real
    requires AllNums(vs)
  {
    match vs
    case Nil => 0.0
    case Cons(v, t) => v.r + Sum(t)
  }

  function Product<C>(vs: List<Value<C>>): real
    requires AllNums(vs)
  {
    match vs
    case Nil => 1.0
    case Cons(v, t) => v.r * Product(t)
  }

  predicate AllEqualTo<C>(x: real, vs: List<Value<C>>)
    requires AllNums(vs)
  {
    match vs
    case Nil => true
    case Cons(v, t) => x == v.r && AllEqualTo(x, t)
  }

  function ToSchemeList<C>(vs: List<Value<C>>): Value<C> {
    match vs
    case Nil => Null
    case Cons(v, t) => Pair(v, ToSchemeList(t))
  }

  function ApplyPrimitive<C>(op: Prim, args: List<Value<C>>): Result<Value<C>> {
    match op
    case Car => if args.Cons? && args.tail.Nil? && args.head.Pair? then Ok(args.head.car) else Err(BadArguments)
    case Cdr => if args.Cons? && args.tail.Nil? && args.head.Pair? then Ok(args.head.cdr) else Err(BadArguments)
    case ConsPair =>
      if args.Cons? && args.tail.Cons? && args.tail.tail.Nil?
      then Ok(Pair(args.head, args.tail.head)) else Err(BadArguments)
    case IsNull => if args.Cons? && args.tail.Nil? then Ok(Bool(args.head.Null?)) else Err(BadArguments)
    case MakeList => Ok(ToSchemeList(args))
    case Add => if AllNums(args) then Ok(Num(Sum(args))) else Err(BadArguments)
    case Mul => if AllNums(args) then Ok(Num(Product(args))) else Err(BadArguments)
    case Sub =>
      if args.Nil? || !AllNums(args) then Err(BadArguments)
      else if args.tail.Nil? then Ok(Num(-args.head.r))
      else Ok(Num(args.head.r - Sum(args.tail)))
    case Div =>
      if args.Nil? || !AllNums(args) then Err(BadArguments)
      else if args.tail.Nil? then if args.head.r == 0.0 then Err(BadArguments) else Ok(Num(1.0 / args.head.r))
      else if Product(args.tail) == 0.0 then Err(BadArguments)
      else Ok(Num(args.head.r / Product(args.tail)))
    case NumEq =>
      if !AllNums(args) then Err(BadArguments)
      else Ok(Bool(args.Nil? || AllEqualTo(args.head.r, args.tail)))
  }

  // ----- environments -----

  /** The name list and the value list of a frame grow together, so a frame is kept as
      one list of bindings. */
  datatype Binding<+C> = Binding(name: Name, value: Value<C>)
  type Frame<+C> = List<Binding<C>>
  /** A frame is named by its position in the store; an environment lists frames, innermost first. */
  type Env = List<nat>
  type Store<+C> = seq<Frame<C>>

  /** Every frame of the environment is one of the first n. */
  predicate ValidEnv(env: Env, n: nat) {
    match env
    case Nil => true
    case Cons(a, rest) => a < n && ValidEnv(rest, n)
  }

  datatype Found<+C> = Missing | Found(value: Value<C>)

  function FrameAt<C>(st: Store<C>, a: nat): Frame<C> {
    if a < |st| then st[a] else Nil
  }

  function Scan<C>(x: Name, frame: Frame<C>): Found<C> {
    match frame
    case Nil => Missing
    case Cons(b, t) => if b.name == x then Found(b.value) else Scan(x, t)
  }

  function Lookup<C>(x: Name, env: Env, st: Store<C>): (r: Result<Value<C>>)
    ensures !r.Timeout?
  {
    match env
    case Nil => Err(UnboundVariable(x))
    case Cons(a, rest) =>
      match Scan(x, FrameAt(st, a))
      case Missing => Lookup(x, rest, st)
      case Found(v) => if v == Sym("*unassigned*") then Err(UnassignedVariable(x)) else Ok(v)
  }

  /** Overwrites the first binding of x. */
  function SetInFrame<C>(x: Name, v: Value<C>, frame: Frame<C>): Frame<C> {
    match frame
    case Nil => Nil
    case Cons(b, t) => if b.name == x then Cons(Binding(x, v), t) else Cons(b, SetInFrame(x, v, t))
  }

  function SetVariable<C>(x: Name, v: Value<C>, env: Env, st: Store<C>): (r: Result<Store<C>>)
    ensures !r.Timeout?
    ensures r.Ok? ==> |r.value| == |st|
  {
    match env
    case Nil => Err(UnboundSet(x))
    case Cons(a, rest) =>
      if Scan(x, FrameAt(st, a)).Missing? then SetVariable(x, v, rest, st)
      else if a < |st| then Ok(st[a := SetInFrame(x, v, st[a])])
      else Err(UnboundSet(x))
  }

  function DefineInFrame<C>(x: Name, v: Value<C>, frame: Frame<C>): Frame<C> {
    if Scan(x, frame).Missing? then Cons(Binding(x, v), frame) else SetInFrame(x, v, frame)
  }

  /** Definitions go to the innermost frame; every environment has one. */
  function DefineVariable<C>(x: Name, v: Value<C>, env: Env, st: Store<C>): Store<C> {
    if env.Cons? && env.head < |st| then st[env.head := DefineInFrame(x, v, st[env.head])] else st
  }

  function Zip<C>(xs: List<Name>, vs: List<Value<C>>): Frame<C> {
    if xs.Cons? && vs.Cons? then Cons(Binding(xs.head, vs.head), Zip(xs.tail, vs.tail)) else Nil
  }

  /** The new frame's store; the extended environment is Cons(|st|, env). */
  function Extend<C>(xs: List<Name>, vs: List<Value<C>>, st: Store<C>): Result<Store<C>> {
    if Length(xs) == Length(vs) then Ok(st + [Zip(xs, vs)])
    else if Length(xs) < Length(vs) then Err(TooManyArguments)
    else Err(TooFewArguments)
  }

  function Named<C>(x: Name, op: Prim): Binding<C> { Binding(x, Primitive(op)) }

  function GlobalFrame<C>(): Frame<C> {
    Cons(Binding("false", Bool(false)), Cons(Binding("true", Bool(true)),
    Cons(Named("car", Car), Cons(Named("cdr", Cdr), Cons(Named("cons", ConsPair), Cons(Named("null?", IsNull),
    Cons(Named("+", Add), Cons(Named("-", Sub), Cons(Named("*", Mul), Cons(Named("/", Div),
    Cons(Named("list", MakeList), Cons(Named("=", NumEq), Nil))))))))))))
  }

  // ----- maps of payloads -----

  function MapValue<C, D>(h: C -> D, v: Value<C>): Value<D> {
    match v
    case Num(r) => Num(r)
    case Str(s) => Str(s)
    case Sym(x) => Sym(x)
    case Bool(b) => Bool(b)
    case Null => Null
    case Pair(a, d) => Pair(MapValue(h, a), MapValue(h, d))
    case Primitive(op) => Primitive(op)
    case Obj(c) => Obj(h(c))
  }

  function MapValues<C, D>(h: C -> D, vs: List<Value<C>>): List<Value<D>> {
    match vs
    case Nil => Nil
    case Cons(v, t) => Cons(MapValue(h, v), MapValues(h, t))
  }

  function MapResult<C, D>(h: C -> D, r: Result<Value<C>>): Result<Value<D>> {
    match r
    case Ok(v) => Ok(MapValue(h, v))
    case Err(e) => Err(e)
    case Timeout => Timeout
  }

  function MapFrame<C, D>(h: C -> D, frame: Frame<C>): Frame<D> {
    match frame
    case Nil => Nil
    case Cons(b, t) => Cons(Binding(b.name, MapValue(h, b.value)), MapFrame(h, t))
  }

  lemma {:induction false} MapFromDatum<C, D>(h: C -> D, d: Datum)
    ensures MapValue(h, FromDatum(d)) == FromDatum(d)
  {
    match d
    case DPair(a, b) => MapFromDatum(h, a); MapFromDatum(h, b);
    case _ =>
  }

  lemma {:induction false} MapNums<C, D>(h: C -> D, vs: List<Value<C>>)
    ensures AllNums(MapValues(h, vs)) == AllNums(vs)
    ensures AllNums(vs) ==> Sum(MapValues(h, vs)) == Sum(vs) && Product(MapValues(h, vs)) == Product(vs)
    ensures AllNums(vs) ==> forall x :: AllEqualTo(x, MapValues(h, vs)) == AllEqualTo(x, vs)
  {
    if vs.Cons? { MapNums(h, vs.tail); }
  }

  lemma {:induction false} MapSchemeList<C, D>(h: C -> D, vs: List<Value<C>>)
    ensures MapValue(h, ToSchemeList(vs)) == ToSchemeList(MapValues(h, vs))
  {
    if vs.Cons? { MapSchemeList(h, vs.tail); }
  }

  /** Primitive procedures never look inside the objects an evaluator adds. */
  lemma {:induction false} MapPrimitive<C, D>(h: C -> D, op: Prim, args: List<Value<C>>)
    ensures ApplyPrimitive(op, MapValues(h, args)) == MapResult(h, ApplyPrimitive(op, args))
  {
    MapNums(h, args);
    MapSchemeList(h, args);
    if args.Cons? { MapNums(h, args.tail); }
  }

  lemma {:induction false} MapScan<C, D>(h: C -> D, x: Name, frame: Frame<C>)
    ensures Scan(x, MapFrame(h, frame)) ==
            match Scan(x, frame) case Missing => Missing case Found(v) => Found(MapValue(h, v))
  {
    if frame.Cons? { MapScan(h, x, frame.tail); }
  }

  lemma {:induction false} MapSetInFrame<C, D>(h: C -> D, x: Name, v: Value<C>, frame: Frame<C>)
    ensures MapFrame(h, SetInFrame(x, v, frame)) == SetInFrame(x, MapValue(h, v), MapFrame(h, frame))
  {
    if frame.Cons? { MapSetInFrame(h, x, v, frame.tail); }
  }

  lemma {:induction false} MapZip<C, D>(h: C -> D, xs: List<Name>, vs: List<Value<C>>)
    ensures MapFrame(h, Zip(xs, vs)) == Zip(xs, MapValues(h, vs))
    ensures Length(MapValues(h, vs)) == Length(vs)
  {
    if vs.Cons? {
      MapZip(h, if xs.Cons? then xs.tail else Nil, vs.tail);
    }
  }

  function MapStore<C, D>(h: C -> D, st: Store<C>): (r: Store<D>)
    ensures |r| == |st|
  {
    seq(|st|, i requires 0 <= i < |st| => MapFrame(h, st[i]))
  }

  function MapListResult<C, D>(h: C -> D, rs: Result<List<Value<C>>>): Result<List<Value<D>>> {
    match rs
    case Ok(vs) => Ok(MapValues(h, vs))
    case Err(e) => Err(e)
    case Timeout => Timeout
  }

  function MapStoreResult<C, D>(h: C -> D, r: Result<Store<C>>): Result<Store<D>> {
    match r
    case Ok(st) => Ok(MapStore(h, st))
    case Err(e) => Err(e)
    case Timeout => Timeout
  }

  lemma {:induction false} MapLookup<C, D>(h: C -> D, x: Name, env: Env, st: Store<C>)
    ensures Lookup(x, env, MapStore(h, st)) == MapResult(h, Lookup(x, env, st))
  {
    if env.Cons? {
      MapScan(h, x, FrameAt(st, env.head));
      MapLookup(h, x, env.tail, st);
    }
  }

  lemma {:induction false} MapSetVariable<C, D>(h: C -> D, x: Name, v: Value<C>, env: Env, st: Store<C>)
    ensures SetVariable(x, MapValue(h, v), env, MapStore(h, st)) == MapStoreResult(h, SetVariable(x, v, env, st))
  {
    if env.Cons? {
      MapScan(h, x, FrameAt(st, env.head));
      MapSetVariable(h, x, v, env.tail, st);
      if env.head < |st| {
        var frame := SetInFrame(x, v, st[env.head]);
        MapSetInFrame(h, x, v, st[env.head]);
        assert MapStore(h, st[env.head := frame]) == MapStore(h, st)[env.head := MapFrame(h, frame)];
      }
    }
  }

  lemma {:induction false} MapDefineVariable<C, D>(h: C -> D, x: Name, v: Value<C>, env: Env, st: Store<C>)
    ensures DefineVariable(x, MapValue(h, v), env, MapStore(h, st)) == MapStore(h, DefineVariable(x, v, env, st))
  {
    if env.Cons? && env.head < |st| {
      MapScan(h, x, st[env.head]);
      MapSetInFrame(h, x, v, st[env.head]);
    }
  }

  lemma {:induction false} MapExtend<C, D>(h: C -> D, xs: List<Name>, vs: List<Value<C>>, st: Store<C>)
    ensures Extend(xs, MapValues(h, vs), MapStore(h, st)) == MapStoreResult(h, Extend(xs, vs, st))
  {
    MapZip(h, xs, vs);
    assert MapStore(h, st + [Zip(xs, vs)]) == MapStore(h, st) + [MapFrame(h, Zip(xs, vs))];
  }
}
