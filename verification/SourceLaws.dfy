/** What the words of the source semantics mean: which local a name stands for, which case a
    switch takes, what of a trace the program itself does (ir.rs:214-216; control.rs:83-132, 323-354). */
module SourceLaws {
  import opened Wrappers
  import opened Syntax
  import opened SourceSemantics

  /** A name stands for the newest local of that name. */
  lemma {:induction false} FindIs(env: Env, name: string)
    ensures var i := Find(env, name);
            if i < 0 then forall k :: 0 <= k < |env| ==> env[k].name != name
            else env[i].name == name && forall k :: i < k < |env| ==> env[k].name != name
    decreases |env|
  {
    if env != [] && env[|env| - 1].name != name {
      var shorter := env[..|env| - 1];
      FindIs(shorter, name);
      assert forall k :: 0 <= k < |env| - 1 ==> env[k] == shorter[k];
    }
  }

  /** An evaluation is shown with the declarations that its names stand for where it happens. */
  lemma DidShows(env: Env, e: Expr, k: nat, i: nat)
    requires k < |e.uses| && i < |env| && env[i].name == e.uses[k]
    requires forall j :: i < j < |env| ==> env[j].name != e.uses[k]
    ensures Did(env, e).Eff? && Did(env, e).id == e.id && |Did(env, e).decls| == |e.uses|
    ensures Did(env, e).decls[k] == env[i].decl
  {
    FindIs(env, e.uses[k]);
  }

  lemma {:induction false} LabelledIs(cases: seq<Case>, v: int)
    ensures var i := Labelled(cases, v);
            if i < 0 then forall k :: 0 <= k < |cases| ==> cases[k].lab != Some(v)
            else cases[i].lab == Some(v) && forall k :: 0 <= k < i ==> cases[k].lab != Some(v)
    decreases |cases|
  {
    if cases != [] && cases[0].lab != Some(v) {
      LabelledIs(cases[1..], v);
      assert forall k :: 1 <= k < |cases| ==> cases[k] == cases[1..][k - 1];
    }
  }

  lemma {:induction false} DefaultIs(cases: seq<Case>)
    ensures var i := Default(cases);
            if i < 0 then forall k :: 0 <= k < |cases| ==> cases[k].lab.Some?
            else cases[i].lab.None? && forall k :: i < k < |cases| ==> cases[k].lab.Some?
    decreases |cases|
  {
    if cases != [] {
      DefaultIs(cases[1..]);
      assert forall k :: 1 <= k < |cases| ==> cases[k] == cases[1..][k - 1];
    }
  }

  /** A switch takes the first case with the label, else the last default, else none. */
  lemma ChosenIs(cases: seq<Case>, v: int, i: nat)
    requires i < |cases|
    ensures Chosen(cases, v) == i <==>
            if cases[i].lab.Some? then cases[i].lab.value == v && forall k :: 0 <= k < i ==> cases[k].lab != Some(v)
            else (forall k :: 0 <= k < |cases| ==> cases[k].lab != Some(v)) && forall k :: i < k < |cases| ==> cases[k].lab.Some?
    ensures Chosen(cases, v) == -1 <==> forall k :: 0 <= k < |cases| ==> cases[k].lab.Some? && cases[k].lab.value != v
  {
    LabelledIs(cases, v);
    DefaultIs(cases);
  }

  /** Evaluations and stores are kept in order, and calls into the runtime are left out. */
  lemma {:induction false} EffectsAre(t: Trace, e: Event)
    ensures Effects([]) == []
    ensures Effects(t + [e]) == match e case Eff(_, _) => Effects(t) + [e] case Store(_) => Effects(t) + [e] case _ => Effects(t)
  {
    assert (t + [e])[..|t|] == t;
  }

  /** A declared local belongs to the block depth at which it is declared. */
  lemma LetDeclares(w: World, name: string, e: Expr, env: Env, depth: nat, fuel: nat, t: Trace)
    ensures var r := Exec(w, Let(name, e), env, depth, fuel, t);
            && r.Done? && r.how.Normal? && |r.env| == |env| + 1 && r.env[..|env|] == env
            && var l := r.env[|env|]; l.name == name && l.depth == depth && Find(r.env, name) == |env| && r.t[|r.t| - 1] == Store(l.decl)
  {
  }

  /** A block with a frame of its own brackets what it does with one push and one pop, one
      without does not, and what is declared in it is gone behind it. */
  lemma BlockHasFrame(w: World, name: string, e: Expr, env: Env, depth: nat, fuel: nat, t: Trace)
    ensures Exec(w, Block([Let(name, e)], true), env, depth, fuel, t) == Done(Normal, env, depth, t + [Push, Did(env, e), Store(e.id), Pop])
    ensures Exec(w, Block([Let(name, e)], false), env, depth, fuel, t) == Done(Normal, env, depth, t + [Did(env, e), Store(e.id)])
    ensures var inner := ExecBody(w, [Let(name, e)], env, depth + 1, fuel, t + [Push]);
            inner.Done? && |inner.env| == |env| + 1 && inner.env[|env|].depth == depth + 1
  {
    OneStatement(w, Let(name, e), env, depth + 1, fuel, t + [Push]);
    OneStatement(w, Let(name, e), env, depth, fuel, t);
    assert t + [Push] + [Did(env, e), Store(e.id)] + [Pop] == t + [Push, Did(env, e), Store(e.id), Pop];
  }

  lemma OneStatement(w: World, s: Stmt, env: Env, depth: nat, fuel: nat, t: Trace)
    requires s.Let?
    ensures ExecBody(w, [s], env, depth, fuel, t) == Exec(w, s, env, depth, fuel, t)
  {
    assert [s][1..] == [];
  }
}
