/** The statement `s` of `defer defer s`. It is registered only while the outer defer is
    expanded (control.rs:69-75, 374), and the end of the block forgets it (control.rs:101-103):
    as long as no expanded statement gets out of itself, it never runs. A program in which one
    does shows why that matters. */
module StrayDefers {
  import opened Wrappers
  import opened Syntax
  import opened SourceSemantics
  import opened BasicBlocks
  import opened Lowering
  import opened WaysOut
  import opened LoweringGrowth
  import opened LoweringInduction
  import DeferScope

  // ----- it never runs -----

  const NOTHING := Block([], false)

  /** The statement with nothing for each such `s`. */
  function Without(s: Stmt): Stmt
    decreases s, 1
  {
    match s
    case Block(stmts, own) => Block(WithoutAll(stmts), own)
    case If(c, yes, no) => If(c, Without(yes), if no.Some? then Some(Without(no.value)) else None)
    case For(init, cond, post, body) =>
      For(if init.Some? then Some(Without(init.value)) else None, cond, post, Without(body))
    case Switch(e, cases) => Switch(e, WithoutCases(cases))
    case Defer(d) => if d.Defer? then Defer(Defer(NOTHING)) else Defer(Without(d))
    case _ => s
  }

  function WithoutAll(ss: seq<Stmt>): seq<Stmt>
    decreases ss, 0
  {
    if ss == [] then [] else [Without(ss[0])] + WithoutAll(ss[1..])
  }

  function WithoutCases(cases: seq<Case>): seq<Case>
    decreases cases, 0
  {
    if cases == [] then []
    else
      var c := cases[0];
      assert c in cases && c.body < c;
      [Case(c.lab, Without(c.body))] + WithoutCases(cases[1..])
  }

  lemma {:induction false} CasesWithout(cases: seq<Case>, v: int)
    ensures var cs := WithoutCases(cases);
            && |cs| == |cases| && Labelled(cs, v) == Labelled(cases, v) && Default(cs) == Default(cases)
            && forall i :: 0 <= i < |cases| ==> cs[i].body == Without(cases[i].body)
    decreases |cases|
  {
    if cases != [] {
      CasesWithout(cases[1..], v);
      assert WithoutCases(cases)[1..] == WithoutCases(cases[1..]);
    }
  }

  /** A run takes no notice of them. */
  lemma {:induction false} SameRun(w: World, s: Stmt, env: Env, depth: nat, fuel: nat, t: Trace)
    ensures Exec(w, Without(s), env, depth, fuel, t) == Exec(w, s, env, depth, fuel, t)
    decreases s, 1
  {
    hide Effects, Did;
    match s
    case Block(stmts, own) =>
      SameBody(w, stmts, env, if own then depth + 1 else depth, fuel, if own then t + [Push] else t);
    case If(c, yes, no) =>
      SameRun(w, yes, env, depth, fuel, t + [Did(env, c)]);
      if no.Some? { SameRun(w, no.value, env, depth, fuel, t + [Did(env, c)]); }
    case For(init, _, _, _) =>
      if init.Some? { SameRun(w, init.value, env, depth, fuel, t); }
      var r := if init.Some? then Exec(w, init.value, env, depth, fuel, t) else Done(Normal, env, depth, t);
      if r.Done? && r.how.Normal? { SameLoop(w, s, r.env, depth, fuel, fuel, r.t); }
    case Switch(e, cases) =>
      var t1 := t + [Did(env, e)];
      var v := w(Effects(t1));
      CasesWithout(cases, v);
      var i := Chosen(cases, v);
      if i >= 0 {
        assert cases[i] in cases && cases[i].body < cases[i];
        SameRun(w, cases[i].body, env, depth, fuel, t1);
      }
    case _ =>
  }

  lemma {:induction false} SameBody(w: World, ss: seq<Stmt>, env: Env, depth: nat, fuel: nat, t: Trace)
    ensures ExecBody(w, WithoutAll(ss), env, depth, fuel, t) == ExecBody(w, ss, env, depth, fuel, t)
    decreases ss, 0
  {
    hide Exec;
    if ss != [] {
      assert ss[0] in ss && WithoutAll(ss)[1..] == WithoutAll(ss[1..]) && WithoutAll(ss)[0] == Without(ss[0]);
      if ss[0].Defer? {
        var d := ss[0].s;
        assert d < ss[0];
        SameBody(w, ss[1..], env, depth, fuel, t);
        var r := ExecBody(w, ss[1..], env, depth, fuel, t);
        if r.Done? { SameDeferred(w, d, r.env, r.depth, fuel, r.t); }
      } else {
        NoDefer(ss[0]);
        SameRun(w, ss[0], env, depth, fuel, t);
        var r := Exec(w, ss[0], env, depth, fuel, t);
        if r.Done? { SameBody(w, ss[1..], r.env, depth, fuel, r.t); }
      }
    }
  }

  lemma NoDefer(s: Stmt)
    ensures Without(s).Defer? == s.Defer?
  {
  }

  lemma SameDeferred(w: World, d: Stmt, env: Env, depth: nat, fuel: nat, t: Trace)
    ensures Exec(w, Without(Defer(d)).s, env, depth, fuel, t) == Exec(w, d, env, depth, fuel, t)
    decreases d, 2
  {
    if d.Defer? { assert Without(Defer(d)).s == Defer(NOTHING); } else { SameRun(w, d, env, depth, fuel, t); }
  }

  lemma {:induction false} SameLoop(w: World, s: Stmt, env: Env, depth: nat, fuel: nat, rounds: nat, t: Trace)
    requires s.For?
    ensures ExecLoop(w, Without(s), env, depth, fuel, rounds, t) == ExecLoop(w, s, env, depth, fuel, rounds, t)
    decreases s, 0, rounds
  {
    hide Exec, Effects, Did, Pops;
    if rounds > 0 {
      var t1 := if s.cond.Some? then t + [Did(env, s.cond.value)] else t;
      SameRun(w, s.body, env, depth, fuel, t1);
      var r := Exec(w, s.body, env, depth, fuel, t1);
      if r.Done? && !r.how.Returned? && r.depth >= depth {
        var t2 := r.t + if r.how.Normal? then [] else Pops(r.depth - depth);
        SameLoop(w, s, env, depth, fuel, rounds - 1, if s.post.Some? then t2 + [Did(env, s.post.value)] else t2);
      }
    }
  }

  /** Two functions that differ only in such statements halt with the same traces. */
  lemma NeverRuns(w: World, n: nat, n': nat, body: Stmt, body': Stmt, params: Env, main: bool, t: Trace)
    requires body.Block? && Shape(body) && (Stray(body) ==> !Recurs(body)) && LowerFunction(n, body, params, main).err.None?
    requires body'.Block? && Shape(body') && (Stray(body') ==> !Recurs(body')) && LowerFunction(n', body', params, main).err.None?
    requires Without(body) == Without(body')
    ensures Halts(LowerFunction(n, body, params, main).blocks, w, t) <==> Halts(LowerFunction(n', body', params, main).blocks, w, t)
  {
    hide LowerFunction, Exec, Halts, Shape, Recurs, Stray;
    LoweringPreserves(w, n, body, params, main);
    LoweringPreserves(w, n', body', params, main);
    var entry := if main then [Init, Push] else [Push];
    forall fuel: nat ensures RunFunction(w, body, params, main, fuel) == RunFunction(w, body', params, main, fuel) {
      SameRun(w, body, params, 0, fuel, entry);
      SameRun(w, body', params, 0, fuel, entry);
    }
  }

  // ----- a deferred way out, stopped by a stray break -----

  function Plain(id: nat): Expr { Expr(id, []) }

  const GO_ON := Block([Continue], false)

  const CASES := [Case(None, GO_ON)]

  const SWITCH := Switch(Plain(1), CASES)

  const OUTWARD := Block([SWITCH, Eval(Plain(2))], false)

  const BODY := Block([Defer(OUTWARD), Defer(Defer(Break))], false)

  const LOOP := For(None, Some(Plain(0)), None, BODY)

  /** for c { defer { switch e { default: continue }; f }; defer defer break } */
  const STRAY := Block([LOOP], false)

  const FREE := Code([], Open)

  const L0 := Loop(4, Some(3), 0, 0)

  const L1 := Loop(5, None, 3, 0)

  const HEAD := [Code([Push], Jump(1)), Code([Eff(0, [])], Cond(true, 2, 4))]

  const CHOICE := Code([Eff(1, [])], Table([], 6))

  function At2(ds: seq<Stmt>): Gen { Gen(false, HEAD + [FREE, FREE, FREE], 2, 0, [], ds, [L0], None) }

  /** In the case of the switch. */
  function At6(end: Terminator): Gen {
    Gen(false, HEAD + [CHOICE, FREE, FREE, FREE, Code([], end)], 6, 0, [], [OUTWARD, Defer(Break), Break], [L0, L1], None)
  }

  function At5(code: Trace, loops: seq<Loop>): Gen {
    Gen(false, HEAD + [CHOICE, FREE, FREE, Code(code, Open), Code([], Jump(5))], 5, 0, [], [OUTWARD, Defer(Break), Break], loops, None)
  }

  const LOWERED := HEAD + [CHOICE, Code([], Jump(1)), Code([Pop], Ret), Code([Eff(2, [])], Jump(3)), Code([], Jump(5))]

  lemma NoDecls(env: Env, id: nat)
    ensures Did(env, Plain(id)) == Eff(id, []) && Known(env, Plain(id).uses)
  {
    assert DeclsOf(env, []) == [];
  }

  /** The stray break takes the end of the inner switch for its target. */
  lemma BreakStops()
    ensures Lower(0, At6(Open), Break) == At6(Jump(5))
  {
    var g := At6(Open);
    assert LoopFor(g.loops, false) == 1;
    assert Deferred(0, g, 3) == g && Pops(0) == [] && Emit(g, []) == g;
    assert Br(g, 5).blocks == At6(Jump(5)).blocks;
    assert Lower(0, g, Break) == LowerJump(0, g, false);
  }

  lemma ClosedTodo(n: nat, g: Gen, todo: seq<Stmt>)
    requires Ok(g) && Closed(g)
    ensures LowerTodo(n, g, todo) == g
    decreases |todo|
  {
    if todo != [] { ClosedTodo(n, g, todo[..|todo| - 1]); }
  }

  lemma ContinueStops()
    ensures Lower(1, At6(Open), Continue) == At6(Jump(5))
  {
    hide LowerTodo;
    var g, g' := At6(Open), At6(Jump(5));
    assert LoopFor(g.loops[..1], true) == 0 && g.loops[..1] == [L0];
    assert LoopFor(g.loops, true) == 0;
    var todo := g.defers[0..];
    assert todo == g.defers && todo[|todo| - 1] == Break;
    BreakStops();
    TodoStep(0, g, todo);
    ClosedTodo(0, g', todo[..|todo| - 1]);
    assert Deferred(1, g, 0) == g';
    assert Pops(0) == [];
    assert Lower(1, g, Continue) == LowerJump(1, g, true);
  }

  lemma TodoStep(n: nat, g: Gen, todo: seq<Stmt>)
    requires Ok(g) && todo != []
    ensures LowerTodo(n, g, todo) == LowerTodo(n, Lower(n, g, todo[|todo| - 1]), todo[..|todo| - 1])
  {
    hide Lower;
  }

  lemma CaseStops()
    ensures Lower(1, At6(Open), GO_ON) == At6(Jump(5))
  {
    hide Lower;
    var g, g' := At6(Open), At6(Jump(5));
    ContinueStops();
    assert LowerAll(1, g, [Continue]) == LowerAll(1, g', []) == g' by { assert [Continue][1..] == []; }
    BlockIs(1, g, [Continue]);
    assert g'.defers[..3] == g'.defers && g'.locals[..0] == [];
  }

  lemma BlockIs(n: nat, g: Gen, stmts: seq<Stmt>)
    requires Ok(g) && !Closed(g)
    ensures Lower(n, g, Block(stmts, false)) ==
            (var g2 := LowerAll(n, g, stmts); Leave(g, if Closed(g2) then g2 else Deferred(n, g2, |g.defers|)))
  {
    hide LowerAll, Deferred;
  }

  lemma SwitchEnters()
    ensures var g := At2([OUTWARD, Defer(Break), Break]);
            var g2 := End(NewBlocks(EmitExpr(g, Plain(1)), 2), Table([], 6));
            Position(g2.(loops := g2.loops + [L1]), 6) == At6(Open) && g2.err.None?
  {
    var g := At2([OUTWARD, Defer(Break), Break]);
    NoDecls([], 1);
    assert [] + [Eff(1, [])] == [Eff(1, [])];
    var a := EmitExpr(g, Plain(1));
    assert a.blocks == HEAD + [Code([Eff(1, [])], Open), FREE, FREE];
    var g1 := NewBlocks(a, 2);
    assert g1.blocks == HEAD + [Code([Eff(1, [])], Open), FREE, FREE, FREE, FREE];
    var g2 := End(g1, Table([], 6));
    assert g2.blocks == HEAD + [CHOICE, FREE, FREE, FREE, FREE];
  }

  lemma SwitchLowered()
    ensures Lower(1, At2([OUTWARD, Defer(Break), Break]), SWITCH) == At5([], [L0])
  {
    hide LowerCases, Lower, EmitExpr, NewBlocks, End;
    var g := At2([OUTWARD, Defer(Break), Break]);
    SwitchEnters();
    assert CASES[1..] == [] && LabelsFrom(CASES, 6) == [] && OtherFrom(CASES, 6, 5) == 6;
    var g2 := End(NewBlocks(EmitExpr(g, Plain(1)), 2), Table([], 6));
    CaseStops();
    CasesStep(g2.(loops := g2.loops + [L1]));
    assert At6(Jump(5)).loops[..1] == [L0];
    assert g2.loops == [L0] && g2.defers == g.defers && g2.depth == 0 by { hide *; SwitchScope(g); }
    assert PopLoop(At6(Jump(5))).blocks == At5([], [L0]).blocks;
    SwitchIs(1, g);
  }

  lemma SwitchScope(g: Gen)
    requires Ok(g)
    ensures SameScope(g, End(NewBlocks(EmitExpr(g, Plain(1)), 2), Table([], 6)))
  {
  }

  lemma SwitchIs(n: nat, g: Gen)
    requires Ok(g) && !Closed(g)
    ensures Lower(n, g, SWITCH) == LowerSwitch(n, g, Plain(1), CASES)
  {
    hide LowerSwitch;
  }

  lemma CasesStep(g3: Gen)
    requires Ok(g3) && Position(g3, 6) == At6(Open) && Lower(1, At6(Open), GO_ON) == At6(Jump(5))
    ensures LowerCases(1, g3, CASES, 6, 5) == At6(Jump(5))
  {
    hide Lower;
    assert CASES[1..] == [] && CASES[0].body == GO_ON;
  }

  lemma OutwardLowered()
    ensures Lower(1, At2([OUTWARD, Defer(Break), Break]), OUTWARD) == At5([Eff(2, [])], [L0])
  {
    hide Lower;
    var g := At2([OUTWARD, Defer(Break), Break]);
    SwitchLowered();
    NoDecls([], 2);
    EvalIs(At5([], [L0]), 2);
    var ss := OUTWARD.stmts;
    assert ss[1..] == [Eval(Plain(2))] && ss[1..][1..] == [];
    assert LowerAll(1, g, ss) == LowerAll(1, At5([], [L0]), ss[1..]);
    assert LowerAll(1, At5([], [L0]), ss[1..]) == LowerAll(1, At5([Eff(2, [])], [L0]), []);
    BlockIs(1, g, ss);
    assert g.defers[..3] == g.defers;
  }

  lemma EvalIs(g: Gen, id: nat)
    requires g == At5([], [L0]) && id == 2
    ensures Lower(1, g, Eval(Plain(id))) == At5([Eff(2, [])], [L0])
  {
    NoDecls([], 2);
    assert [] + [Eff(2, [])] == [Eff(2, [])];
    assert EmitExpr(g, Plain(2)).blocks == At5([Eff(2, [])], [L0]).blocks;
  }

  lemma BodyLowered()
    ensures Lower(2, At2([]), BODY) == At5([Eff(2, [])], [L0]).(defers := [])
  {
    hide Lower, LowerTodo;
    var g := At2([]);
    var ss := BODY.stmts;
    DeferIs'(2, g, OUTWARD);
    assert [] + [OUTWARD] == [OUTWARD] && [OUTWARD] + [Defer(Break)] == [OUTWARD, Defer(Break)];
    DeferIs'(2, At2([OUTWARD]), Defer(Break));
    assert ss[1..] == [Defer(Defer(Break))] && ss[1..][1..] == [];
    var g2 := At2([OUTWARD, Defer(Break)]);
    assert LowerAll(2, g, ss) == LowerAll(2, At2([OUTWARD]), ss[1..]) == LowerAll(2, g2, []) == g2;
    var todo := g2.defers[0..];
    assert todo == [OUTWARD, Defer(Break)] && todo[..1] == [OUTWARD] && [OUTWARD][..0] == [];
    TodoStep(1, g2, todo);
    DeferIs'(1, g2, Break);
    var g3 := At2([OUTWARD, Defer(Break), Break]);
    assert [OUTWARD, Defer(Break)] + [Break] == g3.defers;
    TodoStep(1, g3, [OUTWARD]);
    OutwardLowered();
    assert LowerTodo(1, At5([Eff(2, [])], [L0]), []) == At5([Eff(2, [])], [L0]) by { ClosedOrDone(1, At5([Eff(2, [])], [L0])); }
    assert Deferred(2, g2, 0) == At5([Eff(2, [])], [L0]);
    BlockIs(2, g, ss);
    assert At5([Eff(2, [])], [L0]).defers[..0] == [];
  }

  lemma ClosedOrDone(n: nat, g: Gen)
    requires Ok(g)
    ensures LowerTodo(n, g, []) == g
  {
  }

  lemma DeferIs'(n: nat, g: Gen, d: Stmt)
    requires Ok(g) && !Closed(g)
    ensures Lower(n, g, Defer(d)) == g.(defers := g.defers + [d])
  {
  }

  lemma LoopLowered(g: Gen)
    requires g == Emit(Start([], false), Entry(false))
    ensures Lower(2, g, LOOP).err.None? && Lower(2, g, LOOP).cur == 4
    ensures Lower(2, g, LOOP).(blocks := []) == g.(blocks := [], cur := 4)
    ensures Lower(2, g, LOOP).blocks == LOWERED[4 := FREE]
  {
    hide Lower;
    NoDecls([], 0);
    assert [] + [Push] == [Push];
    var h := NewBlocks(g, 4);
    assert h.blocks == [Code([Push], Open), FREE, FREE, FREE, FREE];
    var h1 := Position(Br(h, 1), 1);
    assert h1.blocks == [Code([Push], Jump(1)), FREE, FREE, FREE, FREE];
    assert [] + [Eff(0, [])] == [Eff(0, [])];
    assert EmitExpr(h1, Plain(0)).blocks == [Code([Push], Jump(1)), Code([Eff(0, [])], Open), FREE, FREE, FREE];
    assert ForHead(g, LOOP).blocks == At2([]).blocks;
    assert ForHead(g, LOOP) == At2([]);
    BodyLowered();
    var g4 := PopLoop(At5([Eff(2, [])], [L0]).(defers := []));
    assert g4.loops == [];
    var g5 := Position(Br(g4, 3), 3);
    assert g5.blocks == HEAD + [CHOICE, FREE, FREE, Code([Eff(2, [])], Jump(3)), Code([], Jump(5))];
    var g6 := Br(g5, 1);
    assert g6.blocks == LOWERED[4 := FREE];
    ForIs(2, g);
  }

  lemma ForIs(n: nat, g: Gen)
    requires Ok(g) && !Closed(g)
    ensures Lower(n, g, LOOP) == LowerFor(n, g, LOOP)
  {
    hide LowerFor;
  }

  /** The function is lowered without error although a live deferred statement continues a
      loop around itself: where it does, the stray break is expanded first, and jumps to the
      end of the switch. */
  lemma StrayLowered()
    ensures LowerFunction(2, STRAY, [], false).err.None? && LowerFunction(2, STRAY, [], false).blocks == LOWERED
  {
    hide Lower;
    var g := Emit(Start([], false), Entry(false));
    LoopLowered(g);
    var g1 := Lower(2, g, LOOP);
    assert LowerAll(2, g, STRAY.stmts) == LowerAll(2, g1, []) == g1 by { assert STRAY.stmts[1..] == []; }
    BlockIs(2, g, STRAY.stmts);
    assert Deferred(2, g1, 0) == g1 && Leave(g, g1) == g1;
    assert Epilogue(None, 0, false) == [Pop] by { assert Pops(1) == [Pop]; }
    assert [] + [Pop] == [Pop];
    assert Emit(g1, [Pop]).blocks == LOWERED[4 := Code([Pop], Open)];
  }

  lemma StrayShape()
    ensures Shape(STRAY)
  {
    assert Shape(Continue) && Shape(Break) && Shape(Eval(Plain(2)));
    assert Shape(GO_ON);
    assert Shape(SWITCH);
    assert Shape(OUTWARD);
    assert Shape(Defer(OUTWARD)) && Shape(Defer(Break));
    assert Shape(Defer(Defer(Break)));
    assert Shape(BODY);
    assert Shape(LOOP);
  }

  lemma StrayIsBoth()
    ensures Recurs(STRAY) && Stray(STRAY)
  {
    hide RecursAll, StrayAll, OutAll;
    OneBoth(LOOP);
    OneOut(Continue);
    assert Out(GO_ON, ByContinue);
    assert CASES[0] in CASES && CASES[0].body == GO_ON;
    assert Out(SWITCH, ByContinue);
    FirstOut(OUTWARD.stmts);
    assert Recurs(Defer(OUTWARD)) && Stray(Defer(Defer(Break)));
    SecondBoth(BODY.stmts);
    assert Recurs(LOOP) && Stray(LOOP);
  }

  lemma OneBoth(s: Stmt)
    ensures RecursAll([s]) == Recurs(s) && StrayAll([s]) == Stray(s)
  {
    assert [s][1..] == [] && !RecursAll([]) && !StrayAll([]);
  }

  lemma OneOut(s: Stmt)
    ensures OutAll([s], ByContinue) == Out(s, ByContinue)
  {
    assert [s][1..] == [] && !OutAll([], ByContinue);
  }

  lemma FirstOut(ss: seq<Stmt>)
    requires ss != [] && Out(ss[0], ByContinue)
    ensures OutAll(ss, ByContinue)
  {
  }

  lemma SecondBoth(ss: seq<Stmt>)
    requires |ss| == 2 && Recurs(ss[0]) && Stray(ss[1]) && !Stops(ss[0])
    ensures RecursAll(ss) && StrayAll(ss)
  {
    assert ss[1..][0] == ss[1];
    assert StrayAll(ss[1..]);
  }

  /** Once round the loop, then out. */
  const ONCE: World := (u: Trace) => if |u| == 1 then 1 else 0

  const MEANT := [Push, Eff(0, []), Eff(1, []), Eff(0, []), Pop]

  const DONE := [Push, Eff(0, []), Eff(1, []), Eff(2, []), Eff(0, []), Pop]

  lemma Answers()
    ensures ONCE(Effects([Push, Eff(0, [])])) == 1
    ensures ONCE(Effects([Push, Eff(0, []), Eff(1, []), Eff(0, [])])) == 0
    ensures ONCE(Effects([Push, Eff(0, []), Eff(1, []), Eff(2, []), Eff(0, [])])) == 0
  {
    hide Effects;
    DeferScope.EffectsOfNone([Push]);
    var a := [Push];
    DeferScope.EffectsThen(a, Eff(0, []));
    var b := [Push, Eff(0, [])];
    assert a + [Eff(0, [])] == b && [] + [Eff(0, [])] == [Eff(0, [])];
    DeferScope.EffectsThen(b, Eff(1, []));
    var c := [Push, Eff(0, []), Eff(1, [])];
    assert b + [Eff(1, [])] == c;
    DeferScope.EffectsThen(c, Eff(0, []));
    assert c + [Eff(0, [])] == [Push, Eff(0, []), Eff(1, []), Eff(0, [])];
    DeferScope.EffectsThen(c, Eff(2, []));
    var d := [Push, Eff(0, []), Eff(1, []), Eff(2, [])];
    assert c + [Eff(2, [])] == d;
    DeferScope.EffectsThen(d, Eff(0, []));
    assert d + [Eff(0, [])] == [Push, Eff(0, []), Eff(1, []), Eff(2, []), Eff(0, [])];
  }

  lemma Goes(a: Config, b: Config)
    requires Reaches(LOWERED, ONCE, FROM_START, a) && Step(LOWERED, ONCE, a) == b
    ensures Reaches(LOWERED, ONCE, FROM_START, b)
  {
    hide Step;
    ReachesStep(LOWERED, ONCE, a);
    ReachesTransitive(LOWERED, ONCE, FROM_START, a, b);
  }

  lemma Along(a: Config, t: Trace, e: Event)
    requires a.At? && a.block < |LOWERED| && Reaches(LOWERED, ONCE, FROM_START, a)
    requires LOWERED[a.block].code == [e] && a.pc == 0 && a.t + [e] == t
    ensures Reaches(LOWERED, ONCE, FROM_START, At(a.block, 1, t))
  {
    Goes(a, At(a.block, 1, t));
  }

  lemma Jumping(a: Config, to: nat)
    requires a.At? && a.block < |LOWERED| && Reaches(LOWERED, ONCE, FROM_START, a)
    requires a.pc == |LOWERED[a.block].code| && LOWERED[a.block].end == Jump(to)
    ensures Reaches(LOWERED, ONCE, FROM_START, At(to, 0, a.t))
  {
    Goes(a, At(to, 0, a.t));
  }

  lemma AllBlocks()
    ensures LOWERED == [Code([Push], Jump(1)), Code([Eff(0, [])], Cond(true, 2, 4)), CHOICE, Code([], Jump(1)),
                        Code([Pop], Ret), Code([Eff(2, [])], Jump(3)), Code([], Jump(5))]
  {
  }

  /** What the blocks do, up to the case of the switch. */
  lemma StrayEnters()
    ensures Reaches(LOWERED, ONCE, FROM_START, At(6, 0, [Push, Eff(0, []), Eff(1, [])]))
  {
    hide Effects, Reaches, LOWERED, Step;
    Answers();
    AllBlocks();
    ReachesSelf(LOWERED, ONCE, FROM_START);
    var t1, t2, t3 := [Push], [Push, Eff(0, [])], [Push, Eff(0, []), Eff(1, [])];
    Along(FROM_START, t1, Push);
    Jumping(At(0, 1, t1), 1);
    Along(At(1, 0, t1), t2, Eff(0, []));
    Goes(At(1, 1, t2), At(2, 0, t2)) by { StepsOut(t2, 2); }
    Along(At(2, 0, t2), t3, Eff(1, []));
    Goes(At(2, 1, t3), At(6, 0, t3)) by { StepsIn(t3); }
  }

  lemma StepsOut(t: Trace, to: nat)
    requires to == if ONCE(Effects(t)) != 0 then 2 else 4
    ensures Step(LOWERED, ONCE, At(1, 1, t)) == At(to, 0, t)
  {
    hide Effects;
  }

  lemma StepsIn(t: Trace)
    ensures Step(LOWERED, ONCE, At(2, 1, t)) == At(6, 0, t)
  {
    hide Effects;
  }

  lemma StepsEnd(t: Trace)
    ensures Step(LOWERED, ONCE, At(4, 1, t)) == Halted(t)
  {
  }

  lemma StrayRuns()
    ensures Halts(LOWERED, ONCE, DONE)
  {
    hide Effects, Reaches, LOWERED, Step;
    Answers();
    AllBlocks();
    StrayEnters();
    var t3 := [Push, Eff(0, []), Eff(1, [])];
    var t4 := [Push, Eff(0, []), Eff(1, []), Eff(2, [])];
    var t5 := [Push, Eff(0, []), Eff(1, []), Eff(2, []), Eff(0, [])];
    Jumping(At(6, 0, t3), 5);
    Along(At(5, 0, t3), t4, Eff(2, []));
    Jumping(At(5, 1, t4), 3);
    Jumping(At(3, 0, t4), 1);
    Along(At(1, 0, t4), t5, Eff(0, []));
    Goes(At(1, 1, t5), At(4, 0, t5)) by { StepsOut(t5, 4); }
    Along(At(4, 0, t5), DONE, Pop);
    Goes(At(4, 1, DONE), Halted(DONE)) by { StepsEnd(DONE); }
  }

  lemma BodyMeans(t: Trace)
    ensures Exec(ONCE, BODY, [], 0, 2, t) == Done(Normal, [], 0, t + [Eff(1, [])])
  {
    hide Effects;
    var ss := BODY.stmts;
    NoDecls([], 1);
    var t1 := t + [Eff(1, [])];
    assert Labelled(CASES, ONCE(Effects(t1))) == -1 && Default(CASES) == 0 by { assert CASES[1..] == []; }
    assert Exec(ONCE, GO_ON, [], 0, 2, t1) == Done(Continued, [], 0, t1);
    assert Exec(ONCE, SWITCH, [], 0, 2, t) == Done(Continued, [], 0, t1);
    assert ExecBody(ONCE, OUTWARD.stmts, [], 0, 2, t) == Done(Continued, [], 0, t1);
    assert Exec(ONCE, OUTWARD, [], 0, 2, t) == Done(Continued, [], 0, t1);
    assert ss[1..][1..] == [];
    assert ExecBody(ONCE, ss[1..][1..], [], 0, 2, t) == Done(Normal, [], 0, t);
    assert Exec(ONCE, Defer(Break), [], 0, 2, t) == Done(Normal, [], 0, t);
    assert ExecBody(ONCE, ss[1..], [], 0, 2, t) == Done(Normal, [], 0, t);
    assert ExecBody(ONCE, ss, [], 0, 2, t) == Done(Normal, [], 0, t1);
  }

  /** What the source says. */
  lemma StrayMeans()
    ensures Ends(ONCE, STRAY, [], false, MEANT)
  {
    hide Effects;
    Answers();
    NoDecls([], 0);
    var t2 := [Push, Eff(0, [])];
    var t3 := [Push, Eff(0, []), Eff(1, [])];
    var t4 := [Push, Eff(0, []), Eff(1, []), Eff(0, [])];
    assert [Push] + [Eff(0, [])] == t2 && t2 + [Eff(1, [])] == t3 && t3 + [Eff(0, [])] == t4 && t4 + [Pop] == MEANT;
    BodyMeans(t2);
    assert ExecLoop(ONCE, LOOP, [], 0, 2, 1, t3) == Done(Normal, [], 0, t4);
    assert t3 + [] == t3 && ONCE(Effects(t2)) == 1;
    assert ExecLoop(ONCE, LOOP, [], 0, 2, 2, [Push]) == Done(Normal, [], 0, t4);
    assert Exec(ONCE, LOOP, [], 0, 2, [Push]) == Done(Normal, [], 0, t4);
    assert ExecBody(ONCE, STRAY.stmts, [], 0, 2, [Push]) == Done(Normal, [], 0, t4) by { assert STRAY.stmts[1..] == []; }
    assert Exec(ONCE, STRAY, [], 0, 2, [Push]) == Done(Normal, [], 0, t4);
    assert Epilogue(None, 0, false) == [Pop] by { assert Pops(1) == [Pop]; }
    assert RunFunction(ONCE, STRAY, [], false, 2) == Finished(MEANT);
  }

  /** A function in which a live deferred statement gets out of itself, and a stray one too,
      is lowered without error, and its blocks do something else than the source says. */
  lemma StrayMisleads()
    ensures Shape(STRAY) && Recurs(STRAY) && Stray(STRAY)
    ensures LowerFunction(2, STRAY, [], false).err.None?
    ensures Ends(ONCE, STRAY, [], false, MEANT) && !Halts(LowerFunction(2, STRAY, [], false).blocks, ONCE, MEANT)
  {
    hide LowerFunction, Step, RunFunction;
    StrayShape();
    StrayIsBoth();
    StrayLowered();
    StrayMeans();
    StrayRuns();
    assert MEANT != DONE by { assert MEANT[3] != DONE[3]; }
    if Halts(LOWERED, ONCE, MEANT) {
      var j: nat :| Steps(LOWERED, ONCE, FROM_START, j) == Halted(MEANT);
      var k: nat :| Steps(LOWERED, ONCE, FROM_START, k) == Halted(DONE);
      HaltsOnce(LOWERED, ONCE, FROM_START, j, k);
    }
  }
}
