/** When the expansion of deferred statements comes to an end (control.rs:69-75): exactly
    when no live one gets out of itself, and then at the depth to which they are nested. */
module DeferExpansion {
  import opened Wrappers
  import opened Syntax
  import opened SourceSemantics
  import opened BasicBlocks
  import opened Lowering
  import opened WaysOut
  import opened LoweringGrowth
  import opened DeferRecursion

  predicate Fine(g: Gen) { g.err != Some(Endless) }

  lemma EmitFine(g: Gen, es: Trace)
    requires Ok(g) && Fine(g)
    ensures Fine(Emit(g, es))
  {
  }

  lemma ExprFine(g: Gen, e: Expr)
    requires Ok(g) && Fine(g)
    ensures Fine(EmitExpr(g, e))
  {
  }

  lemma EndFine(g: Gen, end: Terminator, to: nat)
    requires Ok(g) && Fine(g)
    ensures Fine(End(g, end)) && Fine(Br(g, to))
  {
  }

  // ----- room to expand -----

  /** What is deferred from number `base` on is tame and nested less than `n` deep. */
  ghost predicate Deep(base: nat, n: nat, g: Gen) { Room(base, g) && forall d <- g.defers[base..] :: Nesting(d) < n }

  ghost predicate Inside(base: nat, n: nat, g: Gen, s: Stmt) { Within(base, g, s) && Nesting(s) <= n }

  ghost predicate AllInside(base: nat, n: nat, g: Gen, ss: seq<Stmt>) { AllWithin(base, g, ss) && NestingAll(ss) <= n }

  lemma StillInside(base: nat, n: nat, g: Gen, g': Gen, s: Stmt)
    requires Deep(base, n, g) && Inside(base, n, g, s) && g'.defers == g.defers && g'.loops == g.loops
    ensures Deep(base, n, g') && Inside(base, n, g', s)
  {
    StillWithin(base, g, g', s);
  }

  lemma FirstInside(base: nat, n: nat, g: Gen, ss: seq<Stmt>)
    requires ss != [] && AllInside(base, n, g, ss)
    ensures Inside(base, n, g, ss[0])
  {
    FirstWithin(base, g, ss);
  }

  lemma RestInside(base: nat, n: nat, g: Gen, g': Gen, ss: seq<Stmt>)
    requires ss != [] && AllInside(base, n, g, ss) && !Stops(ss[0]) && g'.loops == g.loops
    ensures AllInside(base, n, g', ss[1..])
  {
    RestWithin(base, g, g', ss);
  }

  lemma DeferDeep(base: nat, n: nat, g: Gen, g': Gen, s: Stmt)
    requires Deep(base, n, g) && s.Defer? && Inside(base, n, g, s) && g'.defers == g.defers + [s.s]
    ensures Deep(base, n, g')
  {
    DeferRoom(base, g, g', s);
    assert g'.defers[base..] == g.defers[base..] + [s.s];
  }

  lemma TameInside(n: nat, g: Gen, d: Stmt)
    requires !Wild(d) && !d.Defer? && Nesting(d) <= n
    ensures Deep(|g.defers|, n, g) && Inside(|g.defers|, n, g, d)
  {
    TameWithin(g, d);
  }

  // ----- the induction -----

  lemma DeferredFine(base: nat, n: nat, g: Gen, mark: nat)
    requires Ok(g) && Fine(g) && DefersOk(g.defers) && Deep(base, n, g) && mark >= base
    ensures Fine(Deferred(n, g, mark))
    decreases n, 0, 0
  {
    if g.err.None? && mark < |g.defers| {
      var todo := g.defers[mark..];
      forall d <- todo ensures !Wild(d) && Nesting(d) < n { assert d in g.defers[base..]; }
      assert todo[0] in todo;
      TodoFine(n - 1, g, todo);
    }
  }

  lemma TodoFine(n: nat, g: Gen, todo: seq<Stmt>)
    requires Ok(g) && Fine(g) && DefersOk(g.defers) && DefersOk(todo)
    requires forall d <- todo :: !Wild(d) && Nesting(d) <= n
    ensures Fine(LowerTodo(n, g, todo))
    decreases n, 1, todo, 2
  {
    hide Wild, Nesting, Lower, Shape;
    if todo != [] {
      var d, rest := todo[|todo| - 1], todo[..|todo| - 1];
      assert d in todo;
      LowerKeeps(n, g, d);
      if d.Defer? {
        DeferFine(n, g, d);
      } else {
        TameInside(n, g, d);
        LowerFine(|g.defers|, n, g, d);
      }
      TodoFine(n, Lower(n, g, d), rest);
    }
  }

  lemma DeferFine(n: nat, g: Gen, d: Stmt)
    requires Ok(g) && Fine(g) && d.Defer?
    ensures Fine(Lower(n, g, d))
  {
    if !Closed(g) { DeferIs(n, g, d.s); }
  }

  lemma {:induction false} LowerFine(base: nat, n: nat, g: Gen, s: Stmt)
    requires Ok(g) && Fine(g) && DefersOk(g.defers) && Shape(s) && Deep(base, n, g) && Inside(base, n, g, s)
    ensures Fine(Lower(n, g, s))
    decreases n, 1, s, 1
  {
    hide Deep, DefersOk;
    if !Closed(g) {
      match s
      case Block(stmts, own) => BlockFine(base, n, g, s);
      case Let(name, e) =>
        ExprFine(g, e);
        EmitFine(EmitExpr(g, e), [Store(e.id)]);
      case Assign(name, v) => EmitFine(g, AssignEvents(g.locals, g.depth, name, v));
      case Eval(e) => ExprFine(g, e);
      case Return(v) => ReturnFine(base, n, g, v);
      case If(c, yes, no) => IfFine(base, n, g, s);
      case For(_, _, _, _) => ForFine(base, n, g, s);
      case Switch(e, cases) => SwitchFine(base, n, g, s);
      case Break => JumpFine(base, n, g, false);
      case Continue => JumpFine(base, n, g, true);
      case Defer(d) =>
    }
  }

  lemma ReturnFine(base: nat, n: nat, g: Gen, v: Option<Value>)
    requires Ok(g) && Fine(g) && DefersOk(g.defers) && Deep(base, n, g) && Stays(base, g, ByReturn)
    ensures Fine(LowerReturn(n, g, v))
    decreases n, 0, 1
  {
    hide Deferred, DefersOk, Epilogue;
    if v.Some? { ExprFine(g, v.value.e); }
    var g1 := if v.Some? then EmitExpr(g, v.value.e) else g;
    DeferredFine(0, n, g1, 0);
    EmitFine(Deferred(n, g1, 0), Epilogue(v, g.depth, g.main));
    EndFine(Emit(Deferred(n, g1, 0), Epilogue(v, g.depth, g.main)), Ret, 0);
  }

  lemma JumpFine(base: nat, n: nat, g: Gen, cont: bool)
    requires Ok(g) && Fine(g) && DefersOk(g.defers) && Deep(base, n, g)
    requires Stays(base, g, if cont then ByContinue else ByBreak)
    ensures Fine(LowerJump(n, g, cont))
    decreases n, 0, 1
  {
    hide Deferred, DefersOk;
    var i := LoopFor(g.loops, cont);
    if i >= 0 {
      var l := g.loops[i];
      DeferredFine(base, n, g, l.defers);
      var g1 := Deferred(n, g, l.defers);
      EmitFine(g1, Pops(Minus(g.depth, l.depth)));
      EndFine(Emit(g1, Pops(Minus(g.depth, l.depth))), Ret, if cont then l.next.value else l.done);
    }
  }

  lemma {:induction false} AllFine(base: nat, n: nat, g: Gen, ss: seq<Stmt>)
    requires Ok(g) && Fine(g) && DefersOk(g.defers) && Deep(base, n, g) && AllInside(base, n, g, ss)
    requires forall x <- ss :: Shape(x)
    ensures Fine(LowerAll(n, g, ss)) && (Closed(LowerAll(n, g, ss)) || Deep(base, n, LowerAll(n, g, ss)))
    decreases n, 1, ss, 2
  {
    hide Lower, Shape, DefersOk, Deep, Inside, AllWithin;
    if ss != [] {
      var s, rest := ss[0], ss[1..];
      assert s in ss;
      LowerKeeps(n, g, s);
      FirstInside(base, n, g, ss);
      LowerFine(base, n, g, s);
      var g1 := Lower(n, g, s);
      if Closed(g) { ClosedLower(n, g, s); }
      if Stops(s) { StopsCloses(n, g, s); }
      if Closed(g1) {
        ClosedStays(n, g1, rest);
      } else {
        RestInside(base, n, g, g1, ss);
        if s.Defer? {
          DeferIs(n, g, s.s);
          DeferDeep(base, n, g, g1, s);
        } else {
          StillInside(base, n, g, g1, s);
        }
        AllFine(base, n, g1, rest);
      }
    }
  }

  lemma ClosedLower(n: nat, g: Gen, s: Stmt)
    requires Ok(g) && Closed(g)
    ensures Lower(n, g, s) == g
  {
  }

  lemma BlockFine(base: nat, n: nat, g: Gen, s: Stmt)
    requires Ok(g) && Fine(g) && s.Block? && DefersOk(g.defers) && Shape(s) && Deep(base, n, g) && Inside(base, n, g, s)
    ensures Fine(LowerBlock(n, g, s.stmts, s.own))
    decreases n, 1, s, 0
  {
    hide Emit, LowerAll, Deferred, DefersOk;
    EmitFine(g, [Push]);
    GrowsSelf(g);
    EmitGrows(g, g, [Push]);
    var g1 := if s.own then Emit(g, [Push]).(depth := g.depth + 1) else g;
    BlockInside(base, n, g, g1, s);
    AllFine(base, n, g1, s.stmts);
    LowerAllKeeps(n, g1, s.stmts);
    var g2 := LowerAll(n, g1, s.stmts);
    if !Closed(g2) {
      DeferredFine(base, n, g2, |g.defers|);
      EmitFine(Deferred(n, g2, |g.defers|), [Pop]);
    }
  }

  lemma BlockInside(base: nat, n: nat, g: Gen, g1: Gen, s: Stmt)
    requires s.Block? && Deep(base, n, g) && Inside(base, n, g, s) && g1.defers == g.defers && g1.loops == g.loops
    ensures Deep(base, n, g1) && AllInside(base, n, g1, s.stmts)
  {
    BlockWithin(base, g, g1, s);
  }

  lemma IfFine(base: nat, n: nat, g: Gen, s: Stmt)
    requires Ok(g) && Fine(g) && s.If? && DefersOk(g.defers) && Shape(s) && !Closed(g)
    requires Deep(base, n, g) && Inside(base, n, g, s)
    ensures Fine(Lower(n, g, s))
    decreases n, 1, s, 0
  {
    hide EmitExpr, NewBlocks, End, Br, Position, Deep, Inside, DefersOk, Grows, Emit, LowerBlock, LowerFor, LowerSwitch;
    var b := |g.blocks|;
    GrowsSelf(g);
    ExprFine(g, s.c);
    EmitExprGrows(g, g, s.c);
    var a := EmitExpr(g, s.c);
    BlocksFine(a, Cond(true, b, b + 1));
    NewBlocksGrows(g, a, 3);
    EndGrows(g, NewBlocks(a, 3), Cond(true, b, b + 1));
    var g1 := End(NewBlocks(a, 3), Cond(true, b, b + 1));
    IfInside(base, n, g, s);
    ArmFine(base, n, g, g1, s.yes, b, b + 2);
    var g2 := Br(Lower(n, Position(g1, b), s.yes), b + 2);
    if s.no.Some? { ArmFine(base, n, g, g2, s.no.value, b + 1, b + 2); }
    PlacedFine(g2, b + 1, b + 2);
    var g3 := Position(g2, b + 1);
    var g4 := Br(if s.no.Some? then Lower(n, g3, s.no.value) else g3, b + 2);
    PlacedFine(g4, b + 2, b);
  }

  lemma IfInside(base: nat, n: nat, g: Gen, s: Stmt)
    requires s.If? && Inside(base, n, g, s)
    ensures Inside(base, n, g, s.yes) && (s.no.Some? ==> Inside(base, n, g, s.no.value))
  {
    IfWithin(base, g, s);
  }

  lemma BlocksFine(g: Gen, end: Terminator)
    requires Ok(g) && Fine(g)
    ensures forall k: nat :: Fine(End(NewBlocks(g, k), end))
  {
  }

  lemma PlacedFine(g: Gen, b: nat, to: nat)
    requires Ok(g) && Fine(g)
    ensures Fine(Position(g, b)) && Fine(Br(Position(g, b), to)) && SameScope(g, Position(g, b))
  {
  }

  lemma ArmFine(base: nat, n: nat, g: Gen, g1: Gen, s: Stmt, b: nat, done: nat)
    requires Ok(g1) && Fine(g1) && SameScope(g, g1) && DefersOk(g.defers) && Arm(s) && Shape(s)
    requires Deep(base, n, g) && Inside(base, n, g, s)
    ensures var g2 := Br(Lower(n, Position(g1, b), s), done); Fine(g2) && SameScope(g, g2)
    decreases n, 1, s, 2
  {
    hide Lower, Position, Br, Deep, Inside, DefersOk, Shape;
    PlacedFine(g1, b, done);
    var q := Position(g1, b);
    StillInside(base, n, g, q, s);
    LowerFine(base, n, q, s);
    LowerKeeps(n, q, s);
    var l := Lower(n, q, s);
    EndFine(l, Ret, done);
    BrGrows(q, l, done);
  }

  lemma ForFine(base: nat, n: nat, g: Gen, s: Stmt)
    requires Ok(g) && Fine(g) && s.For? && DefersOk(g.defers) && Shape(s) && Deep(base, n, g) && Inside(base, n, g, s)
    ensures Fine(LowerFor(n, g, s))
    decreases n, 1, s, 0
  {
    hide Lower, ForHead, ForTail, Deep, Inside, DefersOk, Shape;
    var g0 := if s.init.Some? then Lower(n, g, s.init.value) else g;
    ForShape(s);
    if s.init.Some? {
      InitFine(n, g, s);
      LowerKeeps(n, g, s.init.value);
    }
    HeadFine(g0, s);
    ForHeadKeeps(g0, s);
    var inner := ForHead(g0, s);
    InnerInside(base, n, g, g0, inner, s);
    LowerFine(base, n, inner, s.body);
    TailFine(PopLoop(Lower(n, inner, s.body)), s, |g0.blocks|);
  }

  lemma InitFine(n: nat, g: Gen, s: Stmt)
    requires Ok(g) && Fine(g) && s.For? && Shape(s) && s.init.Some?
    ensures Fine(Lower(n, g, s.init.value))
  {
  }

  lemma InnerInside(base: nat, n: nat, g: Gen, g0: Gen, inner: Gen, s: Stmt)
    requires s.For? && Deep(base, n, g) && Inside(base, n, g, s) && inner.defers == g0.defers == g.defers
    requires inner.loops == g0.loops + [Loop(|g0.blocks| + 3, Some(|g0.blocks| + 2), |g0.defers|, g0.depth)]
    ensures Deep(base, n, inner) && Inside(base, n, inner, s.body)
  {
    InnerWithin(base, g, inner, s, |g0.blocks| + 3, |g0.blocks| + 2);
  }

  lemma HeadFine(g0: Gen, s: Stmt)
    requires Ok(g0) && Fine(g0) && s.For?
    ensures Fine(ForHead(g0, s))
  {
  }

  lemma TailFine(g4: Gen, s: Stmt, b: nat)
    requires Ok(g4) && Fine(g4) && s.For?
    ensures Fine(ForTail(g4, s, b))
  {
  }

  lemma SwitchFine(base: nat, n: nat, g: Gen, s: Stmt)
    requires Ok(g) && Fine(g) && s.Switch? && DefersOk(g.defers) && Shape(s) && Deep(base, n, g) && Inside(base, n, g, s)
    ensures Fine(LowerSwitch(n, g, s.e, s.cases))
    decreases n, 1, s, 0
  {
    hide EmitExpr, NewBlocks, End, LowerCases, DefersOk, Grows, Deep, Inside;
    var done := |g.blocks|;
    GrowsSelf(g);
    ExprFine(g, s.e);
    EmitExprGrows(g, g, s.e);
    var a := EmitExpr(g, s.e);
    var end := Table(LabelsFrom(s.cases, done + 1), OtherFrom(s.cases, done + 1, done));
    BlocksFine(a, end);
    NewBlocksGrows(g, a, 1 + |s.cases|);
    EndGrows(g, NewBlocks(a, 1 + |s.cases|), end);
    var g2 := End(NewBlocks(a, 1 + |s.cases|), end);
    var g3 := g2.(loops := g2.loops + [Loop(done, None, |g2.defers|, g2.depth)]);
    CasesInside(base, n, g, g3, s, done);
    CasesFine(base, n, g3, s.cases, done + 1, done);
    PlacedFine(PopLoop(LowerCases(n, g3, s.cases, done + 1, done)), done, done);
  }

  lemma CasesInside(base: nat, n: nat, g: Gen, g3: Gen, s: Stmt, done: nat)
    requires s.Switch? && Shape(s) && Deep(base, n, g) && Inside(base, n, g, s)
    requires g3.defers == g.defers && g3.loops == g.loops + [Loop(done, None, |g.defers|, g.depth)]
    ensures Deep(base, n, g3) && forall c <- s.cases :: c.body.Block? && Shape(c.body) && Inside(base, n, g3, c.body)
  {
    forall c <- s.cases ensures Room(base, g3) && Inside(base, n, g3, c.body) {
      CaseNesting(s.cases, c);
      CaseWithin(base, g, g3, s, c, done);
    }
  }

  lemma {:induction false} CaseNesting(cases: seq<Case>, c: Case)
    requires c in cases
    ensures Nesting(c.body) <= NestingCases(cases)
    decreases |cases|
  {
    if c != cases[0] { CaseNesting(cases[1..], c); }
  }

  lemma {:induction false} CasesFine(base: nat, n: nat, g: Gen, cases: seq<Case>, first: nat, done: nat)
    requires Ok(g) && Fine(g) && DefersOk(g.defers) && Deep(base, n, g)
    requires forall c <- cases :: c.body.Block? && Shape(c.body) && Inside(base, n, g, c.body)
    ensures Fine(LowerCases(n, g, cases, first, done))
    decreases n, 1, cases, 2
  {
    hide Lower, Br, Position, Deep, Inside, Shape, DefersOk;
    if cases != [] {
      var c := cases[0];
      assert c in cases && c.body < c;
      ArmFine(base, n, g, g, c.body, first, done);
      var g' := Br(Lower(n, Position(g, first), c.body), done);
      StillInside(base, n, g, g', c.body);
      forall d <- cases[1..] ensures d.body.Block? && Shape(d.body) && Inside(base, n, g', d.body) {
        assert d in cases;
        StillInside(base, n, g, g', d.body);
      }
      CasesFine(base, n, g', cases[1..], first + 1, done);
    }
  }

  // ----- whole functions -----

  /** If no live deferred statement gets out of itself, following the expansion as deep as
      deferred statements are nested in the text is enough. */
  lemma ExpansionEnds(n: nat, body: Stmt, params: Env, main: bool)
    requires Shape(body) && !Recurs(body) && n >= Nesting(body)
    ensures LowerFunction(n, body, params, main).err != Some(Endless)
  {
    hide Lower, Emit, Shape, Recurs, Nesting, Out;
    var g0 := Start(params, main);
    EmitFine(g0, Entry(main));
    GrowsSelf(g0);
    EmitGrows(g0, g0, Entry(main));
    var g1 := Emit(g0, Entry(main));
    LowerFine(0, n, g1, body);
    var g2 := Lower(n, g1, body);
    EmitFine(g2, Epilogue(None, g2.depth, main));
    EndFine(Emit(g2, Epilogue(None, g2.depth, main)), Ret, 0);
  }

  /** Whether the expansion ends can be read off the text: if a live deferred statement
      gets out of itself, and there is no stray, lowering fails at every bound; if none
      does, no bound from the nesting depth on is reached. */
  lemma ExpansionExactly(n: nat, body: Stmt, params: Env, main: bool)
    requires Shape(body) && body.Block?
    ensures Recurs(body) && !Stray(body) ==> LowerFunction(n, body, params, main).err.Some?
    ensures !Recurs(body) && n >= Nesting(body) ==> LowerFunction(n, body, params, main).err != Some(Endless)
  {
    hide LowerFunction, Shape, Recurs, Stray, Nesting;
    if LowerFunction(n, body, params, main).err.None? && !Stray(body) { SuccessIsTame(n, body, params, main); }
    if !Recurs(body) && n >= Nesting(body) { ExpansionEnds(n, body, params, main); }
  }

  ghost predicate OnlyEndless(body: Stmt, params: Env, main: bool) {
    forall n :: LowerFunction(n, body, params, main).err in {None, Some(Endless)}
  }

  /** For functions without any other error the expansion never ends, at any bound, if and
      only if a live deferred statement gets out of itself. */
  lemma EndlessExactly(body: Stmt, params: Env, main: bool)
    requires Shape(body) && body.Block? && !Stray(body) && OnlyEndless(body, params, main)
    ensures (forall n :: LowerFunction(n, body, params, main).err == Some(Endless)) <==> Recurs(body)
  {
    hide LowerFunction, Shape, Recurs, Stray, Nesting;
    forall n: nat ensures Recurs(body) ==> LowerFunction(n, body, params, main).err == Some(Endless) {
      ExpansionExactly(n, body, params, main);
    }
    ExpansionExactly(Nesting(body), body, params, main);
  }

  /** `defer return` does recur; `defer { defer e }` and a dead return do not. */
  lemma WhichRecur(e: Expr)
    ensures Recurs(Block([Defer(Return(None))], false))
    ensures !Recurs(Block([Defer(Block([Defer(Eval(e))], false))], false))
    ensures !Recurs(Block([Defer(For(None, None, None, Block([Break, Return(None)], false)))], false))
  {
    hide OutAll, RecursAll;
    OnlyOne(Defer(Return(None)));
    var nested := Block([Defer(Eval(e))], false);
    OnlyOne(Defer(Eval(e)));
    OnlyOne(Defer(nested));
    NestedStays(e);
    var body := Block([Break, Return(None)], false);
    BreakFirst();
    var loop := For(None, None, None, body);
    assert !GetsOut(loop) && !Recurs(loop);
    OnlyOne(Defer(loop));
  }

  lemma OnlyOne(s: Stmt)
    ensures RecursAll([s]) == Recurs(s)
    ensures forall kind :: OutAll([s], kind) == Out(s, kind)
  {
    assert [s][1..] == [] && !RecursAll([]);
    forall kind ensures OutAll([s], kind) == Out(s, kind) { assert !OutAll([], kind); }
  }

  lemma NestedStays(e: Expr)
    ensures !Wild(Block([Defer(Eval(e))], false))
  {
    hide OutAll, RecursAll;
    var d := Defer(Eval(e));
    OnlyOne(d);
    assert !Out(d, ByReturn) && !Out(d, ByBreak) && !Out(d, ByContinue);
    assert !Recurs(Eval(e)) && !GetsOut(Eval(e)) && !Recurs(d);
    var s := Block([d], false);
    assert Recurs(s) == RecursAll([d]);
    assert forall kind :: Out(s, kind) == OutAll([d], kind);
  }

  lemma BreakFirst()
    ensures !OutAll([Break, Return(None)], ByReturn) && !RecursAll([Break, Return(None)])
  {
    assert Stops([Break, Return(None)][0]) && !Out(Break, ByReturn) && !Recurs(Break);
  }
}
