/** The same evaluator as it runs: frames and thunks are cells that environments, procedures and
    thunks point to and that assignment, definition and forcing overwrite in place. A cell that
    is reached along several environments is one cell. Every method is proved to answer and to
    leave what the store-passing functions compute. */
module LazyMachine {
  import opened Scheme
  import opened LazySyntax
  import L = LazyInterp

  datatype Object = Proc(params: List<Param>, body: Body, env: Chain) | Delayed(cell: ThunkCell)
  type V = Value<Object>
  /** An environment points to its frames, innermost first. */
  type Chain = List<FrameCell>
  datatype Content = Thunk(exp: Exp, env: Chain) | MemoizedThunk(exp: Exp, env: Chain) | EvaluatedThunk(value: V)

  /** A frame is its list of names and its list of values. */
  class FrameCell {
    ghost const id: nat
    var names: seq<Name>
    var values: seq<V>

    constructor (names: seq<Name>, values: seq<V>, ghost id: nat)
      ensures this.names == names && this.values == values && this.id == id
    {
      this.names, this.values, this.id := names, values, id;
    }

    ghost predicate Valid(h: Heap)
      reads this
    {
      |names| == |values| && forall i :: 0 <= i < |values| ==> Known(values[i], h)
    }

    /** Walks along the names to the first that is x, or past the last. */
    method Scan(x: Name) returns (i: nat)
      ensures i <= |names| && (forall j :: 0 <= j < i ==> names[j] != x) && (i < |names| ==> names[i] == x)
    {
      i := 0;
      while i < |names| && names[i] != x
        invariant i <= |names| && forall j :: 0 <= j < i ==> names[j] != x
      {
        i := i + 1;
      }
    }
  }

  class ThunkCell {
    ghost const id: nat
    var content: Content

    constructor (content: Content, ghost id: nat)
      ensures this.content == content && this.id == id
    {
      this.content, this.id := content, id;
    }
  }

  // ----- cells and the store they stand for -----

  /** All cells made so far, oldest first. */
  datatype Heap = Heap(frames: seq<FrameCell>, thunks: seq<ThunkCell>)

  ghost predicate Extends(h': Heap, h: Heap) {
    h.frames <= h'.frames && h.thunks <= h'.thunks
  }

  ghost predicate KnownChain(env: Chain, h: Heap) {
    match env
    case Nil => true
    case Cons(f, rest) => f.id < |h.frames| && h.frames[f.id] == f && KnownChain(rest, h)
  }

  ghost predicate Known(v: V, h: Heap) {
    match v
    case Pair(a, d) => Known(a, h) && Known(d, h)
    case Obj(Proc(_, _, env)) => KnownChain(env, h)
    case Obj(Delayed(c)) => c.id < |h.thunks| && h.thunks[c.id] == c
    case _ => true
  }

  ghost predicate KnownList(vs: List<V>, h: Heap) {
    match vs
    case Nil => true
    case Cons(v, t) => Known(v, h) && KnownList(t, h)
  }

  ghost predicate KnownContent(c: Content, h: Heap) {
    match c
    case EvaluatedThunk(v) => Known(v, h)
    case _ => KnownChain(c.env, h)
  }

  ghost function EnvOf(env: Chain): Env {
    match env
    case Nil => Nil
    case Cons(f, rest) => Cons(f.id, EnvOf(rest))
  }

  ghost function ObjectOf(o: Object): L.Object {
    match o
    case Proc(ps, b, env) => L.Proc(ps, b, EnvOf(env))
    case Delayed(c) => L.ThunkRef(c.id)
  }

  ghost function ValueOf(v: V): L.V { MapValue(ObjectOf, v) }

  ghost function ResultOf(r: Result<V>): Result<L.V> { MapResult(ObjectOf, r) }

  ghost function ListResultOf(rs: Result<List<V>>): Result<List<L.V>> { MapListResult(ObjectOf, rs) }

  ghost function CellOf(c: Content): L.Cell {
    match c
    case Thunk(e, env) => L.Thunk(e, EnvOf(env))
    case MemoizedThunk(e, env) => L.MemoizedThunk(e, EnvOf(env))
    case EvaluatedThunk(v) => L.EvaluatedThunk(ValueOf(v))
  }

  ghost function Bindings(names: seq<Name>, values: seq<V>): Frame<L.Object> {
    if names == [] || values == [] then Nil
    else Cons(Binding(names[0], ValueOf(values[0])), Bindings(names[1..], values[1..]))
  }

  ghost function FramesOf(fs: seq<FrameCell>): (st: Store<L.Object>)
    reads fs
    ensures |st| == |fs| && forall i :: 0 <= i < |fs| ==> st[i] == Bindings(fs[i].names, fs[i].values)
  {
    seq(|fs|, i requires 0 <= i < |fs| reads fs => Bindings(fs[i].names, fs[i].values))
  }

  ghost function ThunksOf(ts: seq<ThunkCell>): (cells: seq<L.Cell>)
    reads ts
    ensures |cells| == |ts| && forall i :: 0 <= i < |ts| ==> cells[i] == CellOf(ts[i].content)
  {
    seq(|ts|, i requires 0 <= i < |ts| reads ts => CellOf(ts[i].content))
  }

  lemma {:induction false} ChainStaysKnown(env: Chain, h: Heap, h': Heap)
    requires KnownChain(env, h) && Extends(h', h)
    ensures KnownChain(env, h')
  {
    if env.Cons? { ChainStaysKnown(env.tail, h, h'); }
  }

  lemma {:induction false} StaysKnown(v: V, h: Heap, h': Heap)
    requires Known(v, h) && Extends(h', h)
    ensures Known(v, h')
  {
    match v
    case Pair(a, d) => StaysKnown(a, h, h'); StaysKnown(d, h, h');
    case Obj(Proc(_, _, env)) => ChainStaysKnown(env, h, h');
    case _ =>
  }

  lemma {:induction false} ListStaysKnown(vs: List<V>, h: Heap, h': Heap)
    requires KnownList(vs, h) && Extends(h', h)
    ensures KnownList(vs, h')
  {
    if vs.Cons? { StaysKnown(vs.head, h, h'); ListStaysKnown(vs.tail, h, h'); }
  }

  lemma {:induction false} ContentStaysKnown(c: Content, h: Heap, h': Heap)
    requires KnownContent(c, h) && Extends(h', h)
    ensures KnownContent(c, h')
  {
    match c
    case EvaluatedThunk(v) => StaysKnown(v, h, h');
    case _ => ChainStaysKnown(c.env, h, h');
  }

  lemma {:induction false} DatumKnown(d: Datum, h: Heap)
    ensures Known(FromDatum(d), h)
  {
    match d
    case DPair(a, b) => DatumKnown(a, h); DatumKnown(b, h);
    case _ =>
  }

  lemma {:induction false} SchemeListKnown(vs: List<V>, h: Heap)
    requires KnownList(vs, h)
    ensures Known(ToSchemeList(vs), h)
  {
    if vs.Cons? { SchemeListKnown(vs.tail, h); }
  }

  lemma {:induction false} PrimitiveKnown(op: Prim, vs: List<V>, h: Heap)
    requires KnownList(vs, h) && ApplyPrimitive(op, vs).Ok?
    ensures Known(ApplyPrimitive(op, vs).value, h)
  {
    if op.MakeList? { SchemeListKnown(vs, h); }
  }

  /** The index at which the names are scanned is where the frame of bindings is read and written. */
  lemma {:induction false} ScanBindings(x: Name, names: seq<Name>, values: seq<V>, i: nat)
    requires |names| == |values| && i <= |names|
    requires (forall j :: 0 <= j < i ==> names[j] != x) && (i < |names| ==> names[i] == x)
    ensures Scan(x, Bindings(names, values)) == if i == |names| then Missing else Found(ValueOf(values[i]))
  {
    if i > 0 { ScanBindings(x, names[1..], values[1..], i - 1); }
  }

  lemma {:induction false} WriteBindings(x: Name, v: V, names: seq<Name>, values: seq<V>, i: nat)
    requires |names| == |values| && i < |names|
    requires (forall j :: 0 <= j < i ==> names[j] != x) && names[i] == x
    ensures Bindings(names, values[i := v]) == SetInFrame(x, ValueOf(v), Bindings(names, values))
  {
    if i > 0 {
      WriteBindings(x, v, names[1..], values[1..], i - 1);
      assert values[i := v][1..] == values[1..][i - 1 := v];
    } else {
      assert values[i := v][1..] == values[1..];
    }
  }

  function ToSeq<T>(xs: List<T>): (s: seq<T>)
    ensures |s| == Length(xs)
  {
    match xs
    case Nil => []
    case Cons(x, t) => [x] + ToSeq(t)
  }

  lemma {:induction false} ZipBindings(xs: List<Name>, vs: List<V>)
    ensures Bindings(ToSeq(xs), ToSeq(vs)) == Zip(xs, MapValues(ObjectOf, vs))
    ensures Length(MapValues(ObjectOf, vs)) == Length(vs)
  {
    if vs.Cons? {
      ZipBindings(if xs.Cons? then xs.tail else Nil, vs.tail);
    }
    if xs.Cons? && vs.Cons? {
      assert ToSeq(xs)[1..] == ToSeq(xs.tail) && ToSeq(vs)[1..] == ToSeq(vs.tail);
    }
  }

  lemma {:induction false} ToSeqKnown(vs: List<V>, h: Heap)
    requires KnownList(vs, h)
    ensures forall i :: 0 <= i < |ToSeq(vs)| ==> Known(ToSeq(vs)[i], h)
  {
    if vs.Cons? { ToSeqKnown(vs.tail, h); }
  }

  /** What applying a procedure to its arguments computes. */
  ghost function Called(ps: List<Param>, b: Body, penv: Env, vs: List<L.V>, st: L.State, fuel: nat)
    : (Result<L.V>, L.State)
  {
    if fuel == 0 then (Timeout, st) else
      match Extend(StripParameters(ps), vs, st.frames)
      case Ok(frames) => L.EvalSequence(b, Cons(|st.frames|, penv), st.(frames := frames), fuel - 1)
      case Err(err) => (Err(err), st)
      case Timeout => (Timeout, st)
  }

  const PRIMITIVE_NAMES: List<Name> :=
    Cons("car", Cons("cdr", Cons("cons", Cons("null?", Cons("+", Cons("-", Cons("*", Cons("/",
    Cons("list", Cons("=", Nil))))))))))

  const PRIMITIVE_OBJECTS: List<V> :=
    Cons(Primitive(Car), Cons(Primitive(Cdr), Cons(Primitive(ConsPair), Cons(Primitive(IsNull),
    Cons(Primitive(Add), Cons(Primitive(Sub), Cons(Primitive(Mul), Cons(Primitive(Div),
    Cons(Primitive(MakeList), Cons(Primitive(NumEq), Nil))))))))))

  function WithTruth(frame: Frame<L.Object>): Frame<L.Object> {
    DefineInFrame("false", Bool(false), DefineInFrame("true", Bool(true), frame))
  }

  lemma {:induction false} PrimitiveFrame()
    ensures Length(PRIMITIVE_NAMES) == Length(PRIMITIVE_OBJECTS)
    ensures Zip(PRIMITIVE_NAMES, MapValues(ObjectOf, PRIMITIVE_OBJECTS)) == GlobalFrame().tail.tail
  {
  }

  predicate AllPrimitive(vs: List<V>) {
    match vs
    case Nil => true
    case Cons(v, t) => v.Primitive? && AllPrimitive(t)
  }

  lemma {:induction false} PrimitivesKnown(vs: List<V>, h: Heap)
    requires AllPrimitive(vs)
    ensures KnownList(vs, h)
  {
    if vs.Cons? { PrimitivesKnown(vs.tail, h); }
  }

  /** The primitive procedures, with true and then false defined on top of them. */
  lemma {:induction false} TruthIsDefined()
    ensures WithTruth(GlobalFrame().tail.tail) == GlobalFrame()
  {
    var frame: Frame<L.Object> := GlobalFrame().tail.tail;
    assert Scan("true", frame).Missing? && Scan("false", frame).Missing?;
  }

  class Machine {
    var global: Chain
    ghost var heap: Heap
    ghost var Repr: set<object>

    ghost predicate Valid()
      reads this, heap.frames, heap.thunks
    {
      && this !in Repr
      && (forall i :: 0 <= i < |heap.frames| ==>
            heap.frames[i] in Repr && heap.frames[i].id == i && heap.frames[i].Valid(heap))
      && (forall i :: 0 <= i < |heap.thunks| ==>
            heap.thunks[i] in Repr && heap.thunks[i].id == i && KnownContent(heap.thunks[i].content, heap))
    }

    ghost function Snapshot(): L.State
      reads this, heap.frames, heap.thunks
    {
      L.State(FramesOf(heap.frames), ThunksOf(heap.thunks))
    }

    /** No cell is removed, and a thunk that was evaluated keeps its value. */
    twostate predicate Grown()
      reads this, heap.thunks
    {
      && Extends(heap, old(heap))
      && old(Repr) <= Repr && fresh(Repr - old(Repr))
      && (forall i :: 0 <= i < |old(heap).thunks| && old(heap.thunks[i].content).EvaluatedThunk? ==>
            heap.thunks[i].content == old(heap.thunks[i].content))
    }

    // ----- environments -----

    method LookupVariableValue(x: Name, env: Chain) returns (r: Result<V>)
      requires Valid() && KnownChain(env, heap)
      ensures ResultOf(r) == Lookup(x, EnvOf(env), Snapshot().frames)
      ensures r.Ok? ==> Known(r.value, heap)
    {
      var rest := env;
      while rest.Cons?
        invariant KnownChain(rest, heap)
        invariant Lookup(x, EnvOf(rest), Snapshot().frames) == Lookup(x, EnvOf(env), Snapshot().frames)
        decreases rest
      {
        var f := rest.head;
        var i := f.Scan(x);
        ScanBindings(x, f.names, f.values, i);
        if i < |f.names| {
          var v := f.values[i];
          if v.Sym? && v.name == "*unassigned*" { return Err(UnassignedVariable(x)); }
          return Ok(v);
        }
        rest := rest.tail;
      }
      r := Err(UnboundVariable(x));
    }

    /** Writes v where the frame binds x. */
    method Write(f: FrameCell, ghost x: Name, i: nat, v: V)
      requires Valid() && f.id < |heap.frames| && heap.frames[f.id] == f && Known(v, heap)
      requires i < |f.names| && (forall j :: 0 <= j < i ==> f.names[j] != x) && f.names[i] == x
      modifies f
      ensures Valid()
      ensures Snapshot().thunks == old(Snapshot().thunks)
      ensures var before := old(Snapshot().frames);
              Snapshot().frames == before[f.id := SetInFrame(x, ValueOf(v), before[f.id])]
    {
      WriteBindings(x, v, f.names, f.values, i);
      f.values := f.values[i := v];
    }

    method SetVariableValue(x: Name, v: V, env: Chain) returns (r: Result<V>)
      requires Valid() && KnownChain(env, heap) && Known(v, heap)
      modifies heap.frames
      ensures Valid() && Snapshot().thunks == old(Snapshot().thunks)
      ensures match SetVariable(x, ValueOf(v), EnvOf(env), old(Snapshot().frames))
              case Ok(after) => r == Ok(Sym("ok")) && Snapshot().frames == after
              case Err(e) => r == Err(e) && Snapshot().frames == old(Snapshot().frames)
              case Timeout => false
    {
      var rest := env;
      while rest.Cons?
        invariant Valid() && KnownChain(rest, heap) && Snapshot() == old(Snapshot())
        invariant SetVariable(x, ValueOf(v), EnvOf(rest), Snapshot().frames)
               == SetVariable(x, ValueOf(v), EnvOf(env), Snapshot().frames)
        decreases rest
      {
        var f := rest.head;
        var i := f.Scan(x);
        ScanBindings(x, f.names, f.values, i);
        if i < |f.names| {
          Write(f, x, i, v);
          return Ok(Sym("ok"));
        }
        rest := rest.tail;
      }
      r := Err(UnboundSet(x));
    }

    method AddBinding(f: FrameCell, x: Name, v: V)
      requires Valid() && f.id < |heap.frames| && heap.frames[f.id] == f && Known(v, heap)
      modifies f
      ensures Valid()
      ensures Snapshot().thunks == old(Snapshot().thunks)
      ensures var before := old(Snapshot().frames);
              Snapshot().frames == before[f.id := Cons(Binding(x, ValueOf(v)), before[f.id])]
    {
      f.names, f.values := [x] + f.names, [v] + f.values;
      assert f.names[1..] == old(f.names) && f.values[1..] == old(f.values);
    }

    method DefineVariableValue(x: Name, v: V, env: Chain)
      requires Valid() && KnownChain(env, heap) && Known(v, heap)
      modifies heap.frames
      ensures Valid() && Snapshot().thunks == old(Snapshot().thunks)
      ensures Snapshot().frames == DefineVariable(x, ValueOf(v), EnvOf(env), old(Snapshot().frames))
    {
      if env.Nil? { return; }
      var f := env.head;
      var i := f.Scan(x);
      ScanBindings(x, f.names, f.values, i);
      if i < |f.names| { Write(f, x, i, v); } else { AddBinding(f, x, v); }
    }

    method ExtendEnvironment(xs: List<Name>, vs: List<V>, base: Chain) returns (r: Result<Chain>)
      requires Valid() && KnownChain(base, heap) && KnownList(vs, heap)
      modifies this`heap, this`Repr
      ensures Valid() && Grown() && KnownChain(base, heap) && !r.Timeout?
      ensures match Extend(xs, MapValues(ObjectOf, vs), old(Snapshot().frames))
              case Ok(after) =>
                && r.Ok? && KnownChain(r.value, heap) && EnvOf(r.value) == Cons(|old(heap.frames)|, EnvOf(base))
                && Snapshot() == old(Snapshot()).(frames := after)
              case Err(e) => r == Err(e) && Snapshot() == old(Snapshot())
              case Timeout => false
    {
      ZipBindings(xs, vs);
      if Length(xs) < Length(vs) { return Err(TooManyArguments); }
      if Length(vs) < Length(xs) { return Err(TooFewArguments); }
      var f := NewFrame(xs, vs, base);
      r := Ok(Cons(f, base));
    }

    method NewFrame(xs: List<Name>, vs: List<V>, ghost base: Chain) returns (f: FrameCell)
      requires Valid() && KnownList(vs, heap) && Length(xs) == Length(vs) && KnownChain(base, heap)
      modifies this`heap, this`Repr
      ensures Valid() && Grown() && KnownChain(Cons(f, base), heap) && f.id == |old(heap.frames)|
      ensures Snapshot().thunks == old(Snapshot().thunks)
      ensures Snapshot().frames == old(Snapshot().frames) + [Zip(xs, MapValues(ObjectOf, vs))]
    {
      f := new FrameCell(ToSeq(xs), ToSeq(vs), |heap.frames|);
      ghost var h := heap;
      heap, Repr := Heap(heap.frames + [f], heap.thunks), Repr + {f};
      AllStayKnown(h, heap);
      ChainStaysKnown(base, h, heap);
      ListStaysKnown(vs, h, heap);
      ToSeqKnown(vs, heap);
      ZipBindings(xs, vs);
    }

    method NewThunk(c: Content) returns (v: V)
      requires Valid() && KnownContent(c, heap)
      modifies this`heap, this`Repr
      ensures Valid() && Grown() && Known(v, heap)
      ensures ValueOf(v) == Obj(L.ThunkRef(|old(heap.thunks)|))
      ensures Snapshot().frames == old(Snapshot().frames)
      ensures Snapshot().thunks == old(Snapshot().thunks) + [CellOf(c)]
    {
      var t := new ThunkCell(c, |heap.thunks|);
      ghost var h := heap;
      heap, Repr := Heap(heap.frames, heap.thunks + [t]), Repr + {t};
      AllStayKnown(h, heap);
      ContentStaysKnown(c, h, heap);
      v := Obj(Delayed(t));
    }

    /** What any cell holds stays known when cells are added. */
    lemma {:induction false} AllStayKnown(h: Heap, h': Heap)
      requires Extends(h', h)
      requires forall i :: 0 <= i < |h.frames| ==> h.frames[i].Valid(h)
      requires forall i :: 0 <= i < |h.thunks| ==> KnownContent(h.thunks[i].content, h)
      ensures forall i :: 0 <= i < |h.frames| ==> h.frames[i].Valid(h')
      ensures forall i :: 0 <= i < |h.thunks| ==> KnownContent(h.thunks[i].content, h')
    {
      forall i, j | 0 <= i < |h.frames| && 0 <= j < |h.frames[i].values| ensures Known(h.frames[i].values[j], h') {
        StaysKnown(h.frames[i].values[j], h, h');
      }
      forall i | 0 <= i < |h.thunks| ensures KnownContent(h.thunks[i].content, h') {
        ContentStaysKnown(h.thunks[i].content, h, h');
      }
    }

    constructor ()
      ensures Valid() && fresh(Repr) && Repr == {} && heap == Heap([], [])
    {
      global, heap, Repr := Nil, Heap([], []), {};
    }

    ghost predicate IsGlobal(frame: Frame<L.Object>)
      reads this, heap.frames, heap.thunks
    {
      Valid() && KnownChain(global, heap) && EnvOf(global) == Cons(0, Nil) && Snapshot() == L.State([frame], [])
    }

    method DefineGlobal(x: Name, v: V, ghost frame: Frame<L.Object>)
      requires IsGlobal(frame) && Known(v, heap)
      modifies heap.frames
      ensures IsGlobal(DefineInFrame(x, ValueOf(v), frame))
    {
      DefineVariableValue(x, v, global);
    }

    method FirstFrame(names: List<Name>, objects: List<V>)
      requires Valid() && heap == Heap([], []) && KnownList(objects, heap) && Length(names) == Length(objects)
      modifies this
      ensures IsGlobal(Zip(names, MapValues(ObjectOf, objects))) && old(Repr) <= Repr && fresh(Repr - old(Repr))
    {
      var f := NewFrame(names, objects, Nil);
      global := Cons(f, Nil);
    }

    /** The primitive procedures, then the definitions of true and false. */
    method SetupEnvironment(names: List<Name>, objects: List<V>)
      requires Valid() && heap == Heap([], []) && AllPrimitive(objects) && Length(names) == Length(objects)
      modifies this, Repr
      ensures IsGlobal(WithTruth(Zip(names, MapValues(ObjectOf, objects))))
      ensures old(Repr) <= Repr && fresh(Repr - old(Repr))
    {
      PrimitivesKnown(objects, heap);
      ghost var frame := Zip(names, MapValues(ObjectOf, objects));
      FirstFrame(names, objects);
      DefineGlobal("true", Bool(true), frame);
      DefineGlobal("false", Bool(false), DefineInFrame("true", Bool(true), frame));
    }

    // ----- evaluation -----

    method Eval(e: Exp, env: Chain, fuel: nat) returns (r: Result<V>)
      requires Valid() && KnownChain(env, heap)
      modifies this`heap, this`Repr, Repr
      ensures Valid() && Grown() && KnownChain(env, heap)
      ensures (ResultOf(r), Snapshot()) == L.Eval(e, EnvOf(env), old(Snapshot()), fuel)
      ensures r.Ok? ==> Known(r.value, heap)
      decreases fuel, Size(e), 0
    {
      match e
      case Self(d) => r := FromText(d);
      case Var(x) => r := LookupVariableValue(x, env);
      case Quote(d) => r := FromText(d);
      case Assign(x, rhs) => r := EvalAssignment(x, rhs, env, fuel);
      case Define(x, rhs) => r := EvalDefinition(x, rhs, env, fuel);
      case If(p, c, a) => r := EvalIf(p, c, a, env, fuel);
      case Lambda(ps, b) => r := Ok(Obj(Proc(ps, b, env)));
      case Begin(b) => r := EvalSequence(b, env, fuel);
      case Cond(cs) => r := Eval(CondToIf(cs), env, fuel);
      case App(f, es) => r := EvalApplication(f, es, env, fuel);
    }

    method FromText(d: Datum) returns (r: Result<V>)
      ensures r.Ok? && ResultOf(r) == Ok(FromDatum(d)) && Known(r.value, heap)
    {
      DatumKnown(d, heap);
      MapFromDatum(ObjectOf, d);
      r := Ok(FromDatum(d));
    }

    method EvalAssignment(x: Name, rhs: Exp, env: Chain, fuel: nat) returns (r: Result<V>)
      requires Valid() && KnownChain(env, heap)
      modifies this`heap, this`Repr, Repr
      ensures Valid() && Grown() && KnownChain(env, heap)
      ensures (ResultOf(r), Snapshot()) == L.Eval(Assign(x, rhs), EnvOf(env), old(Snapshot()), fuel)
      ensures r.Ok? ==> Known(r.value, heap)
      decreases fuel, Size(rhs), 1
    {
      r := Eval(rhs, env, fuel);
      if r.Ok? { r := SetVariableValue(x, r.value, env); }
    }

    method EvalDefinition(x: Name, rhs: Exp, env: Chain, fuel: nat) returns (r: Result<V>)
      requires Valid() && KnownChain(env, heap)
      modifies this`heap, this`Repr, Repr
      ensures Valid() && Grown() && KnownChain(env, heap)
      ensures (ResultOf(r), Snapshot()) == L.Eval(Define(x, rhs), EnvOf(env), old(Snapshot()), fuel)
      ensures r.Ok? ==> Known(r.value, heap)
      decreases fuel, Size(rhs), 1
    {
      r := Eval(rhs, env, fuel);
      if r.Ok? {
        DefineVariableValue(x, r.value, env);
        r := Ok(Sym("ok"));
      }
    }

    method EvalApplication(f: Exp, es: List<Exp>, env: Chain, fuel: nat) returns (r: Result<V>)
      requires Valid() && KnownChain(env, heap)
      modifies this`heap, this`Repr, Repr
      ensures Valid() && Grown() && KnownChain(env, heap)
      ensures var (q, st) := L.ActualValue(f, EnvOf(env), old(Snapshot()), fuel);
              (ResultOf(r), Snapshot()) == if q.Ok? then L.Apply(q.value, es, EnvOf(env), st, fuel) else (q, st)
      ensures r.Ok? ==> Known(r.value, heap)
      decreases fuel, Size(f) + ListSize(es), 4
    {
      r := ActualValue(f, env, fuel);
      if r.Ok? { r := Apply(r.value, es, env, fuel); }
    }

    method EvalIf(p: Exp, c: Exp, a: Exp, env: Chain, fuel: nat) returns (r: Result<V>)
      requires Valid() && KnownChain(env, heap)
      modifies this`heap, this`Repr, Repr
      ensures Valid() && Grown() && KnownChain(env, heap)
      ensures var (q, st) := L.ActualValue(p, EnvOf(env), old(Snapshot()), fuel);
              (ResultOf(r), Snapshot()) ==
              if q.Ok? then L.Eval(if True(q.value) then c else a, EnvOf(env), st, fuel) else (q, st)
      ensures r.Ok? ==> Known(r.value, heap)
      decreases fuel, Size(p) + Size(c) + Size(a), 2
    {
      r := ActualValue(p, env, fuel);
      if !r.Ok? { return; }
      var branch := if True(r.value) then c else a;
      assert True(ValueOf(r.value)) == True(r.value);
      r := Eval(branch, env, fuel);
    }

    method ActualValue(e: Exp, env: Chain, fuel: nat) returns (r: Result<V>)
      requires Valid() && KnownChain(env, heap)
      modifies this`heap, this`Repr, Repr
      ensures Valid() && Grown() && KnownChain(env, heap)
      ensures (ResultOf(r), Snapshot()) == L.ActualValue(e, EnvOf(env), old(Snapshot()), fuel)
      ensures r.Ok? ==> Known(r.value, heap)
      decreases fuel, Size(e), 1
    {
      r := Eval(e, env, fuel);
      if r.Ok? {
        ghost var h := heap;
        r := ForceIt(r.value, fuel);
        ChainStaysKnown(env, h, heap);
      }
    }

    /** Writes the value where the thunk's expression and environment were. */
    method Settle(t: ThunkCell, v: V)
      requires Valid() && t.id < |heap.thunks| && heap.thunks[t.id] == t && Known(v, heap)
      modifies t
      ensures Valid() && t.content == EvaluatedThunk(v)
      ensures Snapshot() == L.Memoize(t.id, ValueOf(v), old(Snapshot()))
    {
      t.content := EvaluatedThunk(v);
      assert Snapshot().frames == old(Snapshot().frames);
      assert Snapshot().thunks == old(Snapshot().thunks)[t.id := L.EvaluatedThunk(ValueOf(v))];
    }

    method ForceIt(v: V, fuel: nat) returns (r: Result<V>)
      requires Valid() && Known(v, heap)
      modifies this`heap, this`Repr, Repr
      ensures Valid() && Grown()
      ensures (ResultOf(r), Snapshot()) == L.ForceIt(ValueOf(v), old(Snapshot()), fuel)
      ensures r.Ok? ==> Known(r.value, heap)
      decreases fuel, 0, 1
    {
      if v.Obj? && v.c.Delayed? { r := ForceThunk(v.c.cell, fuel); } else { r := Ok(v); }
    }

    method ForceThunk(t: ThunkCell, fuel: nat) returns (r: Result<V>)
      requires Valid() && t.id < |heap.thunks| && heap.thunks[t.id] == t
      modifies this`heap, this`Repr, Repr
      ensures Valid() && Grown()
      ensures (ResultOf(r), Snapshot()) == L.ForceIt(Obj(L.ThunkRef(t.id)), old(Snapshot()), fuel)
      ensures r.Ok? ==> Known(r.value, heap)
      decreases fuel, 0, 0
    {
      assert Snapshot().thunks[t.id] == CellOf(t.content);
      match t.content
      case EvaluatedThunk(u) => r := Ok(u);
      case Thunk(e, env) =>
        if fuel == 0 { return Timeout; }
        r := ActualValue(e, env, fuel - 1);
      case MemoizedThunk(e, env) =>
        if fuel == 0 { return Timeout; }
        r := EvaluateThunk(t, e, env, fuel - 1);
    }

    /** The value is written where the thunk's expression and environment were, once it is known. */
    method EvaluateThunk(t: ThunkCell, e: Exp, env: Chain, fuel: nat) returns (r: Result<V>)
      requires Valid() && KnownChain(env, heap)
      requires t.id < |heap.thunks| && heap.thunks[t.id] == t && !t.content.EvaluatedThunk?
      modifies this`heap, this`Repr, Repr
      ensures Valid() && Grown()
      ensures r.Ok? ==> t.content == EvaluatedThunk(r.value)
      ensures var (q, st) := L.ActualValue(e, EnvOf(env), old(Snapshot()), fuel);
              (ResultOf(r), Snapshot()) == if q.Ok? then (q, L.Memoize(t.id, q.value, st)) else (q, st)
      ensures r.Ok? ==> Known(r.value, heap)
      decreases fuel, Size(e), 2
    {
      r := ActualValue(e, env, fuel);
      if r.Ok? { Settle(t, r.value); }
    }

    method EvalSequence(b: Body, env: Chain, fuel: nat) returns (r: Result<V>)
      requires Valid() && KnownChain(env, heap)
      modifies this`heap, this`Repr, Repr
      ensures Valid() && Grown() && KnownChain(env, heap)
      ensures (ResultOf(r), Snapshot()) == L.EvalSequence(b, EnvOf(env), old(Snapshot()), fuel)
      ensures r.Ok? ==> Known(r.value, heap)
      decreases fuel, BodySize(b), 0
    {
      r := Eval(b.exp, env, fuel);
      if b.More? && r.Ok? { r := EvalSequence(b.rest, env, fuel); }
    }

    method Apply(p: V, operands: List<Exp>, env: Chain, fuel: nat) returns (r: Result<V>)
      requires Valid() && KnownChain(env, heap) && Known(p, heap)
      modifies this`heap, this`Repr, Repr
      ensures Valid() && Grown() && KnownChain(env, heap)
      ensures (ResultOf(r), Snapshot()) == L.Apply(ValueOf(p), operands, EnvOf(env), old(Snapshot()), fuel)
      ensures r.Ok? ==> Known(r.value, heap)
      decreases fuel, ListSize(operands), 3
    {
      match p
      case Primitive(op) => r := ApplyPrimitiveProcedure(op, operands, env, fuel);
      case Obj(Proc(ps, b, penv)) => r := ApplyCompound(ps, b, penv, operands, env, fuel);
      case _ => r := Err(UnknownProcedure);
    }

    method ApplyPrimitiveProcedure(op: Prim, operands: List<Exp>, env: Chain, fuel: nat) returns (r: Result<V>)
      requires Valid() && KnownChain(env, heap)
      modifies this`heap, this`Repr, Repr
      ensures Valid() && Grown() && KnownChain(env, heap)
      ensures var (rs, st) := L.ListOfArgValues(operands, EnvOf(env), old(Snapshot()), fuel);
              (ResultOf(r), Snapshot()) ==
              match rs
              case Ok(vs) => (ApplyPrimitive(op, vs), st)
              case Err(err) => (Err(err), st)
              case Timeout => (Timeout, st)
      ensures r.Ok? ==> Known(r.value, heap)
      decreases fuel, ListSize(operands), 2
    {
      var rs := ListOfArgValues(operands, env, fuel);
      match rs
      case Ok(vs) =>
        MapPrimitive(ObjectOf, op, vs);
        r := ApplyPrimitive(op, vs);
        if r.Ok? { PrimitiveKnown(op, vs, heap); }
      case Err(e) => r := Err(e);
      case Timeout => r := Timeout;
    }

    method ApplyCompound(ps: List<Param>, b: Body, penv: Chain, operands: List<Exp>, env: Chain, fuel: nat)
      returns (r: Result<V>)
      requires Valid() && KnownChain(env, heap) && KnownChain(penv, heap)
      modifies this`heap, this`Repr, Repr
      ensures Valid() && Grown() && KnownChain(env, heap)
      ensures var (rs, st) := L.ListOfProcedureArgs(ps, operands, EnvOf(env), old(Snapshot()), fuel);
              (ResultOf(r), Snapshot()) ==
              match rs
              case Ok(vs) => Called(ps, b, EnvOf(penv), vs, st, fuel)
              case Err(err) => (Err(err), st)
              case Timeout => (Timeout, st)
      ensures r.Ok? ==> Known(r.value, heap)
      decreases fuel, ListSize(operands), 2
    {
      ghost var h := heap;
      var rs := ListOfProcedureArgs(ps, operands, env, fuel);
      match rs
      case Err(e) => r := Err(e);
      case Timeout => r := Timeout;
      case Ok(vs) =>
        ghost var h1 := heap;
        ChainStaysKnown(penv, h, heap);
        r := CallProcedure(ps, b, penv, vs, fuel);
        ChainStaysKnown(env, h1, heap);
    }

    /** Runs the body in the extended environment. */
    method CallProcedure(ps: List<Param>, b: Body, penv: Chain, vs: List<V>, fuel: nat) returns (r: Result<V>)
      requires Valid() && KnownChain(penv, heap) && KnownList(vs, heap)
      modifies this`heap, this`Repr, Repr
      ensures Valid() && Grown()
      ensures (ResultOf(r), Snapshot()) == Called(ps, b, EnvOf(penv), MapValues(ObjectOf, vs), old(Snapshot()), fuel)
      ensures r.Ok? ==> Known(r.value, heap)
      decreases fuel, 0, 1
    {
      if fuel == 0 { return Timeout; }
      var extended := ExtendEnvironment(StripParameters(ps), vs, penv);
      if !extended.Ok? { return Err(extended.error); }
      assert Called(ps, b, EnvOf(penv), MapValues(ObjectOf, vs), old(Snapshot()), fuel)
          == L.EvalSequence(b, EnvOf(extended.value), Snapshot(), fuel - 1);
      r := EvalSequence(b, extended.value, fuel - 1);
    }

    method ListOfArgValues(es: List<Exp>, env: Chain, fuel: nat) returns (rs: Result<List<V>>)
      requires Valid() && KnownChain(env, heap)
      modifies this`heap, this`Repr, Repr
      ensures Valid() && Grown() && KnownChain(env, heap)
      ensures (ListResultOf(rs), Snapshot()) == L.ListOfArgValues(es, EnvOf(env), old(Snapshot()), fuel)
      ensures rs.Ok? ==> KnownList(rs.value, heap)
      decreases fuel, ListSize(es), 0
    {
      if es.Nil? { return Ok(Nil); }
      var r := ActualValue(es.head, env, fuel);
      match r
      case Err(e) => rs := Err(e);
      case Timeout => rs := Timeout;
      case Ok(v) =>
        ghost var h := heap;
        rs := ListOfArgValues(es.tail, env, fuel);
        StaysKnown(v, h, heap);
        if rs.Ok? { rs := Ok(Cons(v, rs.value)); }
    }

    method ProcedureArg(m: Mode, e: Exp, env: Chain, fuel: nat) returns (r: Result<V>)
      requires Valid() && KnownChain(env, heap)
      modifies this`heap, this`Repr, Repr
      ensures Valid() && Grown() && KnownChain(env, heap)
      ensures (ResultOf(r), Snapshot()) == L.ProcedureArg(m, e, EnvOf(env), old(Snapshot()), fuel)
      ensures r.Ok? ==> Known(r.value, heap)
      decreases fuel, Size(e), 2
    {
      ghost var h := heap;
      match m
      case Strict => r := ActualValue(e, env, fuel);
      case Lazy =>
        var v := NewThunk(Thunk(e, env));
        ChainStaysKnown(env, h, heap);
        r := Ok(v);
      case LazyMemo =>
        var v := NewThunk(MemoizedThunk(e, env));
        ChainStaysKnown(env, h, heap);
        r := Ok(v);
    }

    method ListOfProcedureArgs(ps: List<Param>, es: List<Exp>, env: Chain, fuel: nat) returns (rs: Result<List<V>>)
      requires Valid() && KnownChain(env, heap)
      modifies this`heap, this`Repr, Repr
      ensures Valid() && Grown() && KnownChain(env, heap)
      ensures (ListResultOf(rs), Snapshot()) == L.ListOfProcedureArgs(ps, es, EnvOf(env), old(Snapshot()), fuel)
      ensures rs.Ok? ==> KnownList(rs.value, heap)
      decreases fuel, ListSize(es), 1
    {
      if es.Nil? { return Ok(Nil); }
      if ps.Nil? { return Err(BadArguments); }
      var r := ProcedureArg(ps.head.mode, es.head, env, fuel);
      match r
      case Err(e) => rs := Err(e);
      case Timeout => rs := Timeout;
      case Ok(v) =>
        ghost var h := heap;
        rs := ListOfProcedureArgs(ps.tail, es.tail, env, fuel);
        StaysKnown(v, h, heap);
        if rs.Ok? { rs := Ok(Cons(v, rs.value)); }
    }
  }
}
