/** What deferred statements ought to mean, and what they come to mean. Frames left aside,
    there are two readings: in the plain one a deferred statement sees the locals of its own
    place in the text, in the late one those of the exit at which it is expanded
    (control.rs:69-75, ir.rs:214-216). The lowered code follows the late one. */
module DeferScope {
  import opened Wrappers
  import opened Syntax
  import opened SourceSemantics
  import opened LoweringCorrect

  datatype Meaning = Endlessly | Means(how: Completion, env: Env, t: Trace)

  function Mean(late: bool, w: World, s: Stmt, env: Env, fuel: nat, t: Trace): Meaning
    decreases s, 1
  {
    match s
    case Block(stmts, _) =>
      var r := MeanBody(late, w, stmts, env, fuel, t);
      if r.Means? && r.how.Normal? then r.(env := env) else r
    case Let(name, e) => Means(Normal, env + [Local(name, e.id, 0)], t + [Did(env, e), Store(e.id)])
    case Assign(name, v) => Means(Normal, env, t + [Did(env, v.e), Store(DeclOf(env, name))])
    case Eval(e) => Means(Normal, env, t + [Did(env, e)])
    case Return(v) => Means(Returned(v), env, if v.Some? then t + [Did(env, v.value.e)] else t)
    case If(c, yes, no) =>
      var t1 := t + [Did(env, c)];
      if w(t1) != 0 then Mean(late, w, yes, env, fuel, t1)
      else if no.Some? then Mean(late, w, no.value, env, fuel, t1)
      else Means(Normal, env, t1)
    case For(init, _, _, _) =>
      var r := if init.Some? then Mean(late, w, init.value, env, fuel, t) else Means(Normal, env, t);
      if r.Endlessly? || !r.how.Normal? then r
      else
        var q := MeanLoop(late, w, s, r.env, fuel, fuel, r.t);
        if q.Means? && q.how.Normal? then q.(env := env) else q
    case Switch(e, cases) =>
      var t1 := t + [Did(env, e)];
      var i := Chosen(cases, w(t1));
      if i < 0 then Means(Normal, env, t1)
      else
        var r := Mean(late, w, cases[i].body, env, fuel, t1);
        if r.Means? && r.how.Broke? then Means(Normal, env, r.t) else r
    case Break => Means(Broke, env, t)
    case Continue => Means(Continued, env, t)
    case Defer(_) => Means(Normal, env, t)
  }

  function MeanBody(late: bool, w: World, ss: seq<Stmt>, env: Env, fuel: nat, t: Trace): Meaning
    decreases ss, 0
  {
    if ss == [] then Means(Normal, env, t)
    else if ss[0].Defer? then
      var r := MeanBody(late, w, ss[1..], env, fuel, t);
      if r.Endlessly? then r
      else
        var d := ss[0];
        assert d in ss && d.s < d;
        var q := Mean(late, w, d.s, if late then r.env else env, fuel, r.t);
        if q.Endlessly? then q else r.(t := q.t, env := if late then q.env else r.env)
    else
      var r := Mean(late, w, ss[0], env, fuel, t);
      if r.Means? && r.how.Normal? then MeanBody(late, w, ss[1..], r.env, fuel, r.t) else r
  }

  function MeanLoop(late: bool, w: World, s: Stmt, env: Env, fuel: nat, rounds: nat, t: Trace): Meaning
    requires s.For?
    decreases s, 0, rounds
  {
    if rounds == 0 then Endlessly
    else
      var t1 := if s.cond.Some? then t + [Did(env, s.cond.value)] else t;
      if s.cond.Some? && w(t1) == 0 then Means(Normal, env, t1)
      else
        var r := Mean(late, w, s.body, env, fuel, t1);
        if r.Endlessly? || r.how.Returned? then r
        else if r.how.Broke? then Means(Normal, env, r.t)
        else
          MeanLoop(late, w, s, env, fuel, rounds - 1, if s.post.Some? then r.t + [Did(env, s.post.value)] else r.t)
  }

  // ----- names -----

  /** Block depths left out. */
  function Erase(env: Env): Env { seq(|env|, i requires 0 <= i < |env| => env[i].(depth := 0)) }

  lemma {:induction false} FindErased(env: Env, name: string)
    ensures Find(Erase(env), name) == Find(env, name)
    decreases |env|
  {
    if env != [] {
      var front := env[..|env| - 1];
      FindErased(front, name);
      assert Erase(env)[..|env| - 1] == Erase(front);
    }
  }

  lemma DeclErased(env: Env, name: string)
    ensures DeclOf(Erase(env), name) == DeclOf(env, name)
  {
    FindErased(env, name);
  }

  lemma DidErased(env: Env, e: Expr)
    ensures Did(Erase(env), e) == Did(env, e)
  {
    forall i | 0 <= i < |e.uses| ensures DeclOf(Erase(env), e.uses[i]) == DeclOf(env, e.uses[i]) {
      DeclErased(env, e.uses[i]);
    }
    assert DeclsOf(Erase(env), e.uses) == DeclsOf(env, e.uses);
  }

  lemma EraseMore(env: Env, l: Local)
    ensures Erase(env + [l]) == Erase(env) + [l.(depth := 0)]
  {
  }

  lemma DeclOfExtended(env: Env, l: Local, n: string)
    ensures DeclOf(env + [l], n) == if l.name == n then l.decl else DeclOf(env, n)
  {
    var e := env + [l];
    assert e[..|e| - 1] == env;
  }

  // ----- frames do not show -----

  lemma {:induction false} EffectsPlus(a: Trace, b: Trace)
    ensures Effects(a + b) == Effects(a) + Effects(b)
    decreases |b|
  {
    if b == [] {
      assert a + b == a;
    } else {
      var b' := b[..|b| - 1];
      assert (a + b)[..|a + b| - 1] == a + b';
      EffectsPlus(a, b');
    }
  }

  lemma {:induction false} EffectsOfNone(es: Trace)
    requires forall e <- es :: !e.Eff? && !e.Store?
    ensures Effects(es) == []
    decreases |es|
  {
    if es != [] { EffectsOfNone(es[..|es| - 1]); }
  }

  lemma EffectsThen(t: Trace, e: Event)
    requires e.Eff? || e.Store?
    ensures Effects(t + [e]) == Effects(t) + [e]
  {
    assert (t + [e])[..|t|] == t;
  }

  /** Escapes and pops between effects leave no trace of their own. */
  lemma EffectsPast(t: Trace, quiet: Trace)
    requires forall e <- quiet :: !e.Eff? && !e.Store?
    ensures Effects(t + quiet) == Effects(t)
  {
    EffectsPlus(t, quiet);
    EffectsOfNone(quiet);
  }

  lemma AssignEffects(env: Env, depth: nat, name: string, v: Value, t: Trace)
    ensures Effects(t + AssignEvents(env, depth, name, v)) == Effects(t) + [Did(env, v.e), Store(DeclOf(env, name))]
  {
    hide Effects, Did, DeclOf;
    var i := Find(env, name);
    var mid := Escapes(v, depth, if i < 0 then -1 else env[i].depth);
    var store := Store(DeclOf(env, name));
    assert t + AssignEvents(env, depth, name, v) == (t + [Did(env, v.e)] + mid) + [store];
    EffectsThen(t + [Did(env, v.e)] + mid, store);
    EffectsPast(t + [Did(env, v.e)], mid);
    EffectsThen(t, Did(env, v.e)) by { DidIsEff(env, v.e); }
  }

  lemma DidIsEff(env: Env, e: Expr)
    ensures Did(env, e).Eff?
  {
  }

  lemma DidThen(env: Env, e: Expr, t: Trace)
    ensures Effects(t + [Did(env, e)]) == Effects(t) + [Did(Erase(env), e)]
  {
    DidErased(env, e);
    EffectsThen(t, Did(env, e));
  }

  // ----- the lowered code follows the late reading -----

  /** Same end, same locals, same effects in the same order. */
  ghost predicate Shows(r: Outcome, m: Meaning) {
    match r
    case Timeout => m.Endlessly?
    case Done(how, env, _, t) => m == Means(how, Erase(env), Effects(t))
  }

  lemma {:induction false} FramesHide(w: World, s: Stmt, env: Env, depth: nat, fuel: nat, t: Trace)
    ensures Shows(Exec(w, s, env, depth, fuel, t), Mean(true, w, s, Erase(env), fuel, Effects(t)))
    decreases s, 1
  {
    hide Effects, Did, DeclOf, AssignEvents, Erase;
    match s
    case Block(stmts, own) =>
      EffectsPast(t, [Push]);
      BodyFramesHide(w, stmts, env, if own then depth + 1 else depth, fuel, if own then t + [Push] else t);
      var r := ExecBody(w, stmts, env, if own then depth + 1 else depth, fuel, if own then t + [Push] else t);
      if r.Done? { EffectsPast(r.t, [Pop]); }
    case Let(name, e) =>
      DidThen(env, e, t);
      EffectsThen(t + [Did(env, e)], Store(e.id));
      assert t + [Did(env, e), Store(e.id)] == t + [Did(env, e)] + [Store(e.id)];
      assert Effects(t) + [Did(Erase(env), e), Store(e.id)] == Effects(t) + [Did(Erase(env), e)] + [Store(e.id)];
      EraseMore(env, Local(name, e.id, depth));
    case Assign(name, v) =>
      AssignEffects(env, depth, name, v, t);
      DidErased(env, v.e);
      DeclErased(env, name);
    case Eval(e) => DidThen(env, e, t);
    case Return(v) =>
      if v.Some? { DidThen(env, v.value.e, t); }
    case If(c, yes, no) =>
      DidThen(env, c, t);
      FramesHide(w, yes, env, depth, fuel, t + [Did(env, c)]);
      if no.Some? { FramesHide(w, no.value, env, depth, fuel, t + [Did(env, c)]); }
    case For(init, _, _, _) =>
      if init.Some? { FramesHide(w, init.value, env, depth, fuel, t); }
      var r := if init.Some? then Exec(w, init.value, env, depth, fuel, t) else Done(Normal, env, depth, t);
      if r.Done? && r.how.Normal? { LoopFramesHide(w, s, r.env, depth, fuel, fuel, r.t); }
    case Switch(e, cases) =>
      DidThen(env, e, t);
      var t1 := t + [Did(env, e)];
      var i := Chosen(cases, w(Effects(t1)));
      if i >= 0 {
        var c := cases[i];
        assert c in cases && c.body < c;
        FramesHide(w, c.body, env, depth, fuel, t1);
        DepthKept(w, c.body, env, depth, fuel, t1);
        var r := Exec(w, c.body, env, depth, fuel, t1);
        if r.Done? { EffectsPast(r.t, Pops(r.depth - depth)); }
      }
    case _ =>
  }

  lemma {:induction false} BodyFramesHide(w: World, ss: seq<Stmt>, env: Env, depth: nat, fuel: nat, t: Trace)
    ensures Shows(ExecBody(w, ss, env, depth, fuel, t), MeanBody(true, w, ss, Erase(env), fuel, Effects(t)))
    decreases ss, 0
  {
    hide Effects, Exec, Mean, Erase;
    if ss != [] {
      if ss[0].Defer? {
        var d := ss[0];
        assert d in ss && d.s < d;
        BodyFramesHide(w, ss[1..], env, depth, fuel, t);
        var r := ExecBody(w, ss[1..], env, depth, fuel, t);
        if r.Done? { FramesHide(w, d.s, r.env, r.depth, fuel, r.t); }
      } else {
        FramesHide(w, ss[0], env, depth, fuel, t);
        var r := Exec(w, ss[0], env, depth, fuel, t);
        if r.Done? && r.how.Normal? { BodyFramesHide(w, ss[1..], r.env, depth, fuel, r.t) by { DepthKept(w, ss[0], env, depth, fuel, t); } }
      }
    }
  }

  lemma {:induction false} LoopFramesHide(w: World, s: Stmt, env: Env, depth: nat, fuel: nat, rounds: nat, t: Trace)
    requires s.For?
    ensures Shows(ExecLoop(w, s, env, depth, fuel, rounds, t), MeanLoop(true, w, s, Erase(env), fuel, rounds, Effects(t)))
    decreases s, 0, rounds
  {
    hide Effects, Did, Exec, Mean, Erase;
    if rounds > 0 {
      var t1 := if s.cond.Some? then t + [Did(env, s.cond.value)] else t;
      if s.cond.Some? { DidThen(env, s.cond.value, t); }
      if !(s.cond.Some? && w(Effects(t1)) == 0) {
        FramesHide(w, s.body, env, depth, fuel, t1);
        DepthKept(w, s.body, env, depth, fuel, t1);
        var r := Exec(w, s.body, env, depth, fuel, t1);
        if r.Done? && !r.how.Returned? {
          var t2 := r.t + if r.how.Normal? then [] else Pops(r.depth - depth);
          EffectsPast(r.t, if r.how.Normal? then [] else Pops(r.depth - depth));
          if s.post.Some? { DidThen(env, s.post.value, t2); }
          LoopFramesHide(w, s, env, depth, fuel, rounds - 1, if s.post.Some? then t2 + [Did(env, s.post.value)] else t2);
        }
      }
    }
  }

  /** What a whole function does, frames aside. */
  function ReadRun(late: bool, w: World, body: Stmt, params: Env, fuel: nat): Option<Trace> {
    var m := Mean(late, w, body, Erase(params), fuel, []);
    if m.Endlessly? then None else Some(m.t)
  }

  lemma EpilogueQuiet(v: Option<Value>, depth: nat, main: bool)
    ensures forall e <- Epilogue(v, depth, main) :: !e.Eff? && !e.Store?
  {
  }

  /** A whole function: the effects of its run are those of the late reading. */
  lemma RunsLate(w: World, body: Stmt, params: Env, main: bool, fuel: nat)
    ensures match RunFunction(w, body, params, main, fuel)
            case Running => ReadRun(true, w, body, params, fuel) == None
            case Finished(t) => ReadRun(true, w, body, params, fuel) == Some(Effects(t))
  {
    hide Exec, Mean, Epilogue, Effects, Erase;
    var entry := if main then [Init, Push] else [Push];
    EffectsOfNone(entry);
    FramesHide(w, body, params, 0, fuel, entry);
    var r := Exec(w, body, params, 0, fuel, entry);
    if r.Done? {
      var v := if r.how.Returned? then r.how.value else None;
      EpilogueQuiet(v, r.depth, main);
      EffectsPast(r.t, Epilogue(v, r.depth, main));
    }
  }
}
