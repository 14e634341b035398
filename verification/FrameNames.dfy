/** Which names the frames of a store bind, through any run of the analysing evaluator. */
module FrameNames {
  import opened Scheme
  import opened Analyzer

  predicate Binds(st: St, f: nat, x: Name) { Scan(x, FrameAt(st, f)).Found? }

  /** Every frame stays and keeps its names. */
  ghost predicate Grows(st: St, st': St) {
    |st| <= |st'| && forall f: nat, x: Name {:trigger Binds(st, f, x)} :: Binds(st, f, x) ==> Binds(st', f, x)
  }

  /** Only the innermost frame gets new names. */
  ghost predicate OnlyHead(env: Env, st: St, st': St) {
    forall f: nat, x: Name {:trigger Binds(st', f, x)} ::
      f < |st| && (env.Cons? ==> env.head != f) && Binds(st', f, x) ==> Binds(st, f, x)
  }

  ghost predicate Names(env: Env, st: St, st': St) { Grows(st, st') && OnlyHead(env, st, st') }

  lemma {:induction false} NamesTwice(env: Env, st: St, st1: St, st2: St)
    requires Names(env, st, st1) && Names(env, st1, st2)
    ensures Names(env, st, st2)
  {
    forall f: nat, x: Name | Binds(st, f, x) ensures Binds(st2, f, x) { assert Binds(st1, f, x); }
    forall f: nat, x: Name | f < |st| && (env.Cons? ==> env.head != f) && Binds(st2, f, x)
      ensures Binds(st, f, x)
    {
      assert Binds(st1, f, x);
    }
  }

  lemma {:induction false} SetKeepsNames(x: Name, v: V, frame: Frame<Proc>, y: Name)
    ensures Scan(y, SetInFrame(x, v, frame)).Found? == Scan(y, frame).Found?
  {
    if frame.Cons? { SetKeepsNames(x, v, frame.tail, y); }
  }

  lemma {:induction false} UpdateNames(env: Env, st: St, a: nat, frame: Frame<Proc>)
    requires a < |st| && forall y :: Scan(y, st[a]).Found? ==> Scan(y, frame).Found?
    requires (env.Cons? && env.head == a) || forall y :: Scan(y, frame).Found? ==> Scan(y, st[a]).Found?
    ensures Names(env, st, st[a := frame])
  {
    var st' := st[a := frame];
    forall f: nat, x: Name | Binds(st, f, x)
      ensures Binds(st', f, x)
    {
      assert f != a ==> FrameAt(st', f) == FrameAt(st, f);
    }
    forall f: nat, x: Name | f < |st| && (env.Cons? ==> env.head != f) && Binds(st', f, x) ensures Binds(st, f, x) {
      assert f != a ==> FrameAt(st', f) == FrameAt(st, f);
    }
  }

  lemma {:induction false} SetNames(x: Name, v: V, env: Env, st: St, outer: Env)
    requires SetVariable(x, v, env, st).Ok?
    ensures Names(outer, st, SetVariable(x, v, env, st).value)
  {
    if Scan(x, FrameAt(st, env.head)).Missing? {
      SetNames(x, v, env.tail, st, outer);
    } else {
      forall y ensures Scan(y, SetInFrame(x, v, st[env.head])).Found? == Scan(y, st[env.head]).Found? {
        SetKeepsNames(x, v, st[env.head], y);
      }
      UpdateNames(outer, st, env.head, SetInFrame(x, v, st[env.head]));
    }
  }

  lemma {:induction false} DefineNames(x: Name, v: V, env: Env, st: St)
    ensures Names(env, st, DefineVariable(x, v, env, st))
  {
    if env.Cons? && env.head < |st| {
      forall y | Scan(y, st[env.head]).Found? ensures Scan(y, DefineInFrame(x, v, st[env.head])).Found? {
        SetKeepsNames(x, v, st[env.head], y);
      }
      UpdateNames(env, st, env.head, DefineInFrame(x, v, st[env.head]));
    }
  }

  lemma {:induction false} NewFrameNames(env: Env, frame: Frame<Proc>, st: St)
    ensures Names(env, st, st + [frame])
  {
    forall f: nat, x: Name | Binds(st, f, x) ensures Binds(st + [frame], f, x) { assert f < |st|; }
  }

  lemma {:induction false} ExecNames(c: Code, env: Env, st: St, fuel: nat)
    ensures Names(env, st, Exec(c, env, st, fuel).1)
    decreases fuel, 1, c
  {
    match c
    case AssignTo(x, rhs) =>
      ExecNames(rhs, env, st, fuel);
      var (r, st1) := Exec(rhs, env, st, fuel);
      if r.Ok? && SetVariable(x, r.value, env, st1).Ok? {
        SetNames(x, r.value, env, st1, env);
        NamesTwice(env, st, st1, SetVariable(x, r.value, env, st1).value);
      }
    case DefineAs(x, rhs) =>
      ExecNames(rhs, env, st, fuel);
      var (r, st1) := Exec(rhs, env, st, fuel);
      if r.Ok? {
        DefineNames(x, r.value, env, st1);
        NamesTwice(env, st, st1, DefineVariable(x, r.value, env, st1));
      }
    case Branch(q, c1, c2) =>
      ExecNames(q, env, st, fuel);
      var (r, st1) := Exec(q, env, st, fuel);
      if r.Ok? {
        var next := if True(r.value) then c1 else c2;
        ExecNames(next, env, st1, fuel);
        NamesTwice(env, st, st1, Exec(next, env, st1, fuel).1);
      }
    case Sequentially(c1, c2) =>
      ExecNames(c1, env, st, fuel);
      var (r, st1) := Exec(c1, env, st, fuel);
      if r.Ok? {
        ExecNames(c2, env, st1, fuel);
        NamesTwice(env, st, st1, Exec(c2, env, st1, fuel).1);
      }
    case Call(f, cs) => CallNames(f, cs, env, st, fuel);
    case _ =>
  }

  lemma {:induction false} CallNames(f: Code, cs: List<Code>, env: Env, st: St, fuel: nat)
    ensures Names(env, st, Exec(Call(f, cs), env, st, fuel).1)
    decreases fuel, 1, Call(f, cs), 0
  {
    ExecNames(f, env, st, fuel);
    var (r, st1) := Exec(f, env, st, fuel);
    if r.Ok? {
      AllNames(cs, env, st1, fuel);
      var (rs, st2) := ExecAll(cs, env, st1, fuel);
      NamesTwice(env, st, st1, st2);
      if rs.Ok? {
        ApplyNames(r.value, rs.value, env, st2, fuel);
        NamesTwice(env, st, st2, ExecuteApplication(r.value, rs.value, st2, fuel).1);
      }
    }
  }

  lemma {:induction false} AllNames(cs: List<Code>, env: Env, st: St, fuel: nat)
    ensures Names(env, st, ExecAll(cs, env, st, fuel).1)
    decreases fuel, 1, cs
  {
    if cs.Cons? {
      ExecNames(cs.head, env, st, fuel);
      var (r, st1) := Exec(cs.head, env, st, fuel);
      if r.Ok? {
        AllNames(cs.tail, env, st1, fuel);
        NamesTwice(env, st, st1, ExecAll(cs.tail, env, st1, fuel).1);
      }
    }
  }

  lemma {:induction false} ApplyNames(v: V, args: List<V>, env: Env, st: St, fuel: nat)
    ensures Names(env, st, ExecuteApplication(v, args, st, fuel).1)
    decreases fuel, 0
  {
    if v.Obj? && fuel > 0 && Length(v.c.params) == Length(args) {
      var frame := Zip(v.c.params, args);
      NewFrameNames(env, frame, st);
      ExecNames(v.c.body, Cons(|st|, v.c.env), st + [frame], fuel - 1);
      InsideNames(env, Cons(|st|, v.c.env), st, st + [frame],
        Exec(v.c.body, Cons(|st|, v.c.env), st + [frame], fuel - 1).1);
    }
  }

  /** What a call defines goes to the call's own frame. */
  lemma {:induction false} InsideNames(env: Env, inner: Env, st: St, st1: St, st2: St)
    requires Names(env, st, st1) && Names(inner, st1, st2) && inner.Cons? && inner.head >= |st|
    ensures Names(env, st, st2)
  {
    forall f: nat, x: Name | Binds(st, f, x) ensures Binds(st2, f, x) { assert Binds(st1, f, x); }
    forall f: nat, x: Name | f < |st| && (env.Cons? ==> env.head != f) && Binds(st2, f, x)
      ensures Binds(st, f, x)
    {
      assert Binds(st1, f, x);
    }
  }

  lemma {:induction false} GrowTwice(st: St, st1: St, st2: St)
    requires Grows(st, st1) && Grows(st1, st2)
    ensures Grows(st, st2)
  {
    forall f: nat, x: Name | Binds(st, f, x) ensures Binds(st2, f, x) { assert Binds(st1, f, x); }
  }
}
