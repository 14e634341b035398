/** What looking up, assigning, defining and calling do to the names of an environment, stated
    by the positions of frames and bindings. */
module EnvironmentLaws {
  import opened Scheme

  /** Position k holds the first binding of x in a frame. */
  ghost predicate FirstAt<C>(x: Name, frame: Frame<C>, k: nat) {
    && k < Length(frame) && Nth(frame, k).name == x
    && forall j: nat :: j < k ==> Nth(frame, j).name != x
  }

  /** No binding of the frame is for x. */
  ghost predicate Unbound<C>(x: Name, frame: Frame<C>) {
    forall k: nat :: k < Length(frame) ==> Nth(frame, k).name != x
  }

  function Outwards<C>(env: Env, st: Store<C>, i: nat): Frame<C>
    requires i < Length(env)
  {
    FrameAt(st, Nth(env, i))
  }

  /** Going outwards, the first binding of x is at position k of the i-th frame. */
  ghost predicate BoundAt<C>(x: Name, env: Env, st: Store<C>, i: nat, k: nat) {
    && i < Length(env) && FirstAt(x, Outwards(env, st, i), k)
    && forall j: nat :: j < i ==> Unbound(x, Outwards(env, st, j))
  }

  ghost predicate NowhereBound<C>(x: Name, env: Env, st: Store<C>) {
    forall i: nat :: i < Length(env) ==> Unbound(x, Outwards(env, st, i))
  }

  // ----- one frame -----

  lemma {:induction false} ScanFirst<C>(x: Name, frame: Frame<C>, k: nat)
    requires FirstAt(x, frame, k)
    ensures Scan(x, frame) == Found(Nth(frame, k).value)
  {
    if k > 0 {
      assert Nth(frame, 0).name != x;
      forall j: nat | j < k - 1 ensures Nth(frame.tail, j).name != x { assert Nth(frame, j + 1).name != x; }
      ScanFirst(x, frame.tail, k - 1);
    }
  }

  lemma {:induction false} ScanMissing<C>(x: Name, frame: Frame<C>)
    ensures Scan(x, frame).Missing? <==> Unbound(x, frame)
    ensures Scan(x, frame).Found? ==> exists k: nat :: FirstAt(x, frame, k)
  {
    if frame.Cons? {
      ScanMissing(x, frame.tail);
      if frame.head.name == x {
        assert Nth(frame, 0).name == x;
        assert FirstAt(x, frame, 0);
      } else if Scan(x, frame.tail).Found? {
        var k: nat :| FirstAt(x, frame.tail, k);
        assert Nth(frame, k + 1).name == x;
        forall j: nat | j < k + 1 ensures Nth(frame, j).name != x {
          if j > 0 { assert Nth(frame.tail, j - 1).name != x; }
        }
        assert FirstAt(x, frame, k + 1);
      } else {
        forall j: nat | j < Length(frame) ensures Nth(frame, j).name != x {
          if j > 0 { assert Nth(frame.tail, j - 1).name != x; }
        }
      }
    }
  }

  /** The frame with another value in its k-th binding, and nothing else changed. */
  ghost predicate Rewritten<C>(f: Frame<C>, f': Frame<C>, k: nat, v: Value<C>) {
    && Length(f') == Length(f) && k < Length(f) && Nth(f', k) == Binding(Nth(f, k).name, v)
    && forall j: nat :: j < Length(f) && j != k ==> Nth(f', j) == Nth(f, j)
  }

  lemma {:induction false} SetRewrites<C>(x: Name, v: Value<C>, frame: Frame<C>, k: nat)
    requires FirstAt(x, frame, k)
    ensures Rewritten(frame, SetInFrame(x, v, frame), k, v)
  {
    var f' := SetInFrame(x, v, frame);
    if k > 0 {
      assert Nth(frame, 0).name != x;
      forall j: nat | j < k - 1 ensures Nth(frame.tail, j).name != x { assert Nth(frame, j + 1).name != x; }
      SetRewrites(x, v, frame.tail, k - 1);
      forall j: nat | j < Length(frame) && j != k ensures Nth(f', j) == Nth(frame, j) {
        if j > 0 { assert Nth(f'.tail, j - 1) == Nth(frame.tail, j - 1); }
      }
    }
  }

  // ----- environments -----

  lemma {:induction false} BoundOutside<C>(x: Name, env: Env, st: Store<C>, i: nat, k: nat)
    requires BoundAt(x, env, st, i, k) && i > 0
    ensures BoundAt(x, env.tail, st, i - 1, k) && Scan(x, FrameAt(st, env.head)).Missing?
  {
    ScanMissing(x, FrameAt(st, env.head));
    assert Outwards(env, st, 0) == FrameAt(st, env.head);
    assert Outwards(env, st, i) == Outwards(env.tail, st, i - 1);
    forall j: nat | j < i - 1 ensures Unbound(x, Outwards(env.tail, st, j)) {
      assert Outwards(env, st, j + 1) == Outwards(env.tail, st, j);
    }
  }

  /** A name stands for the value of its first binding, going outwards, unless that is the mark
      of a name not yet assigned; a name nowhere bound is an error. */
  lemma {:induction false} LookupMeaning<C>(x: Name, env: Env, st: Store<C>, i: nat, k: nat)
    requires BoundAt(x, env, st, i, k)
    ensures var v := Nth(Outwards(env, st, i), k).value;
            Lookup(x, env, st) == if v == Sym("*unassigned*") then Err(UnassignedVariable(x)) else Ok(v)
    decreases i
  {
    if i == 0 {
      ScanFirst(x, FrameAt(st, env.head), k);
    } else {
      BoundOutside(x, env, st, i, k);
      LookupMeaning(x, env.tail, st, i - 1, k);
      assert Outwards(env, st, i) == Outwards(env.tail, st, i - 1);
    }
  }

  lemma {:induction false} BoundOrNot<C>(x: Name, env: Env, st: Store<C>)
    ensures NowhereBound(x, env, st) || exists i: nat, k: nat :: BoundAt(x, env, st, i, k)
  {
    if env.Cons? {
      ScanMissing(x, FrameAt(st, env.head));
      assert Outwards(env, st, 0) == FrameAt(st, env.head);
      forall j: nat | 0 < j < Length(env) ensures Outwards(env, st, j) == Outwards(env.tail, st, j - 1) {}
      BoundOrNot(x, env.tail, st);
      if Scan(x, FrameAt(st, env.head)).Found? {
        var k: nat :| FirstAt(x, FrameAt(st, env.head), k);
        assert BoundAt(x, env, st, 0, k);
      } else if i: nat, k: nat :| BoundAt(x, env.tail, st, i, k) {
        assert Outwards(env, st, i + 1) == Outwards(env.tail, st, i);
        assert BoundAt(x, env, st, i + 1, k);
      }
    }
  }

  /** A name is reported as unbound, by a reference and by an assignment, exactly if no frame of
      the environment binds it. */
  lemma {:induction false} UnboundIff<C>(x: Name, v: Value<C>, env: Env, st: Store<C>)
    ensures Lookup(x, env, st) == Err(UnboundVariable(x)) <==> NowhereBound(x, env, st)
    ensures SetVariable(x, v, env, st) == Err(UnboundSet(x)) <==> NowhereBound(x, env, st)
  {
    if NowhereBound(x, env, st) {
      NowhereBoundIsError(x, v, env, st);
    } else {
      BoundOrNot(x, env, st);
      var i: nat, k: nat :| BoundAt(x, env, st, i, k);
      LookupMeaning(x, env, st, i, k);
      SetMeaning(x, v, env, st, i, k);
    }
  }

  lemma {:induction false} NowhereBoundIsError<C>(x: Name, v: Value<C>, env: Env, st: Store<C>)
    requires NowhereBound(x, env, st)
    ensures Lookup(x, env, st) == Err(UnboundVariable(x)) && SetVariable(x, v, env, st) == Err(UnboundSet(x))
  {
    if env.Cons? {
      ScanMissing(x, FrameAt(st, env.head));
      assert Unbound(x, Outwards(env, st, 0));
      forall j: nat | j < Length(env.tail) ensures Unbound(x, Outwards(env.tail, st, j)) {
        assert Outwards(env, st, j + 1) == Outwards(env.tail, st, j);
      }
      NowhereBoundIsError(x, v, env.tail, st);
    }
  }

  /** An assignment gives the first binding of the name, going outwards, the value, and changes
      no other binding and no other frame. */
  lemma {:induction false} SetMeaning<C>(x: Name, v: Value<C>, env: Env, st: Store<C>, i: nat, k: nat)
    requires BoundAt(x, env, st, i, k)
    ensures var r, a := SetVariable(x, v, env, st), Nth(env, i);
            && r.Ok? && |r.value| == |st| && a < |st| && Rewritten(st[a], r.value[a], k, v)
            && forall b: nat :: b < |st| && b != a ==> r.value[b] == st[b]
    decreases i
  {
    if i == 0 {
      assert env.head < |st|;
      ScanFirst(x, FrameAt(st, env.head), k);
      SetRewrites(x, v, st[env.head], k);
    } else {
      BoundOutside(x, env, st, i, k);
      SetMeaning(x, v, env.tail, st, i - 1, k);
      assert Nth(env, i) == Nth(env.tail, i - 1);
    }
  }

  /** A definition rewrites the first binding of the name in the innermost frame, or puts one in
      front if there is none there; no other frame changes. */
  lemma {:induction false} DefineMeaning<C>(x: Name, v: Value<C>, env: Env, st: Store<C>)
    requires env.Cons? && env.head < |st|
    ensures var st' := DefineVariable(x, v, env, st);
            && |st'| == |st| && (forall b: nat :: b < |st| && b != env.head ==> st'[b] == st[b])
            && (Unbound(x, st[env.head]) ==>
                  && Length(st'[env.head]) == Length(st[env.head]) + 1 && Nth(st'[env.head], 0) == Binding(x, v)
                  && forall j: nat :: j < Length(st[env.head]) ==> Nth(st'[env.head], j + 1) == Nth(st[env.head], j))
            && forall k: nat :: FirstAt(x, st[env.head], k) ==> Rewritten(st[env.head], st'[env.head], k, v)
  {
    var frame := st[env.head];
    ScanMissing(x, frame);
    forall k: nat | FirstAt(x, frame, k) ensures Rewritten(frame, DefineInFrame(x, v, frame), k, v) {
      ScanFirst(x, frame, k);
      SetRewrites(x, v, frame, k);
    }
  }

  lemma {:induction false} RewrittenFirst<C>(x: Name, f: Frame<C>, f': Frame<C>, k: nat, v: Value<C>)
    requires FirstAt(x, f, k) && Rewritten(f, f', k, v)
    ensures FirstAt(x, f', k)
  {
  }

  /** After an assignment that answered the name stands for the value. */
  lemma {:induction false} SetThenLookup<C>(x: Name, v: Value<C>, env: Env, st: Store<C>)
    requires SetVariable(x, v, env, st).Ok? && v != Sym("*unassigned*")
    ensures Lookup(x, env, SetVariable(x, v, env, st).value) == Ok(v)
  {
    BoundOrNot(x, env, st);
    UnboundIff(x, v, env, st);
    var i: nat, k: nat :| BoundAt(x, env, st, i, k);
    SetMeaning(x, v, env, st, i, k);
    var st', a := SetVariable(x, v, env, st).value, Nth(env, i);
    RewrittenFirst(x, st[a], st'[a], k, v);
    forall j: nat | j < i ensures Unbound(x, Outwards(env, st', j)) {
      assert Unbound(x, Outwards(env, st, j)) && Outwards(env, st, i) == st[a];
      assert Nth(env, j) != a;
    }
    LookupMeaning(x, env, st', i, k);
  }

  /** After a definition too. */
  lemma {:induction false} DefineThenLookup<C>(x: Name, v: Value<C>, env: Env, st: Store<C>)
    requires env.Cons? && env.head < |st| && v != Sym("*unassigned*")
    ensures Lookup(x, env, DefineVariable(x, v, env, st)) == Ok(v)
  {
    DefineMeaning(x, v, env, st);
    ScanMissing(x, st[env.head]);
    var st' := DefineVariable(x, v, env, st);
    assert Outwards(env, st', 0) == st'[env.head];
    if Unbound(x, st[env.head]) {
      assert BoundAt(x, env, st', 0, 0);
      LookupMeaning(x, env, st', 0, 0);
    } else {
      var k: nat :| FirstAt(x, st[env.head], k);
      RewrittenFirst(x, st[env.head], st'[env.head], k, v);
      assert BoundAt(x, env, st', 0, k);
      LookupMeaning(x, env, st', 0, k);
    }
  }

  lemma {:induction false} ZipNth<C>(xs: List<Name>, vs: List<Value<C>>)
    requires Length(xs) == Length(vs)
    ensures Length(Zip(xs, vs)) == Length(xs)
    ensures forall i: nat :: i < Length(xs) ==> Nth(Zip(xs, vs), i) == Binding(Nth(xs, i), Nth(vs, i))
  {
    if xs.Cons? {
      ZipNth(xs.tail, vs.tail);
      forall i: nat | i < Length(xs) ensures Nth(Zip(xs, vs), i) == Binding(Nth(xs, i), Nth(vs, i)) {
        if i > 0 { assert Nth(Zip(xs, vs), i) == Nth(Zip(xs.tail, vs.tail), i - 1); }
      }
    }
  }

  /** A call gets a new frame that binds each parameter to the argument in its place, or is given
      up because there are too many arguments or too few. */
  lemma {:induction false} ExtendMeaning<C>(xs: List<Name>, vs: List<Value<C>>, st: Store<C>)
    ensures var r := Extend(xs, vs, st);
            && (r == Err(TooManyArguments) <==> Length(vs) > Length(xs))
            && (r == Err(TooFewArguments) <==> Length(vs) < Length(xs))
            && (Length(vs) == Length(xs) ==>
                  && r.Ok? && |r.value| == |st| + 1 && r.value[..|st|] == st && Length(r.value[|st|]) == Length(xs)
                  && forall i: nat :: i < Length(xs) ==> Nth(r.value[|st|], i) == Binding(Nth(xs, i), Nth(vs, i)))
  {
    if Length(xs) == Length(vs) { ZipNth(xs, vs); }
  }

  /** The i-th parameter is the first of its name. */
  ghost predicate FirstNamed(xs: List<Name>, i: nat) {
    i < Length(xs) && forall j: nat :: j < i ==> Nth(xs, j) != Nth(xs, i)
  }

  ghost predicate Names(xs: List<Name>, y: Name) { exists i: nat :: i < Length(xs) && Nth(xs, i) == y }

  /** Inside, each of the names xs stands for the value in its place, and every other name for what
      it stands for in env. */
  ghost predicate Binds<C>(inner: Env, inside: Store<C>, xs: List<Name>, vs: List<Value<C>>, env: Env, st: Store<C>)
    requires Length(xs) == Length(vs)
  {
    && (forall i: nat {:trigger FirstNamed(xs, i)} :: FirstNamed(xs, i) && Nth(vs, i) != Sym("*unassigned*") ==>
          Lookup(Nth(xs, i), inner, inside) == Ok(Nth(vs, i)))
    && (forall y: Name :: !Names(xs, y) ==> Lookup(y, inner, inside) == Lookup(y, env, st))
  }

  lemma {:induction false} ParameterHolds<C>(xs: List<Name>, vs: List<Value<C>>, env: Env, st: Store<C>, i: nat)
    requires Length(xs) == Length(vs) && FirstNamed(xs, i) && Nth(vs, i) != Sym("*unassigned*")
    ensures Lookup(Nth(xs, i), Cons(|st|, env), Extend(xs, vs, st).value) == Ok(Nth(vs, i))
  {
    ExtendMeaning(xs, vs, st);
    var st', inner := Extend(xs, vs, st).value, Cons(|st|, env);
    assert Outwards(inner, st', 0) == st'[|st|];
    assert BoundAt(Nth(xs, i), inner, st', 0, i);
    LookupMeaning(Nth(xs, i), inner, st', 0, i);
  }

  lemma {:induction false} OtherNameHolds<C>(xs: List<Name>, vs: List<Value<C>>, env: Env, st: Store<C>, y: Name)
    requires Length(xs) == Length(vs) && ValidEnv(env, |st|) && !Names(xs, y)
    ensures Lookup(y, Cons(|st|, env), Extend(xs, vs, st).value) == Lookup(y, env, st)
  {
    ExtendMeaning(xs, vs, st);
    var st' := Extend(xs, vs, st).value;
    ScanMissing(y, st'[|st|]);
    OldFrames(y, env, st, st');
  }

  /** In the body of a procedure its parameters stand for the arguments of the call, and every
      other name for what it stands for where the procedure was made. */
  lemma {:induction false} ExtendBinds<C>(xs: List<Name>, vs: List<Value<C>>, env: Env, st: Store<C>)
    requires Length(xs) == Length(vs) && ValidEnv(env, |st|)
    ensures Extend(xs, vs, st).Ok? && Binds(Cons(|st|, env), Extend(xs, vs, st).value, xs, vs, env, st)
  {
    forall i: nat | FirstNamed(xs, i) && Nth(vs, i) != Sym("*unassigned*")
      ensures Lookup(Nth(xs, i), Cons(|st|, env), Extend(xs, vs, st).value) == Ok(Nth(vs, i))
    {
      ParameterHolds(xs, vs, env, st, i);
    }
    forall y: Name | !Names(xs, y)
      ensures Lookup(y, Cons(|st|, env), Extend(xs, vs, st).value) == Lookup(y, env, st)
    {
      OtherNameHolds(xs, vs, env, st, y);
    }
  }

  lemma {:induction false} OldFrames<C>(y: Name, env: Env, st: Store<C>, st': Store<C>)
    requires ValidEnv(env, |st|) && st <= st'
    ensures Lookup(y, env, st') == Lookup(y, env, st)
  {
    if env.Cons? { OldFrames(y, env.tail, st, st'); }
  }
}
