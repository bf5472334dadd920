/** Lowering only ever appends: it fills the current block and blocks of its own making,
    and leaves loops, depth and the enclosing locals and defers as it found them. */
module LoweringGrowth {
  import opened Wrappers
  import opened Syntax
  import opened SourceSemantics
  import opened BasicBlocks
  import opened Lowering
  import opened WaysOut

  /** The trees the parser builds (parser.rs:268-431): the arms of if, for and switch are
      blocks, and a loop initializer is a simple statement. */
  predicate Shape(s: Stmt) {
    match s
    case Block(stmts, _) => forall x <- stmts :: Shape(x)
    case If(_, yes, no) =>
      && Arm(yes) && Shape(yes)
      && (no.Some? ==> Arm(no.value) && Shape(no.value))
    case For(init, _, _, body) =>
      && (init.Some? ==> init.value.Let? || init.value.Assign? || init.value.Eval?)
      && body.Block? && Shape(body)
    case Switch(_, cases) => forall c <- cases :: c.body.Block? && Shape(c.body)
    case Defer(d) => Shape(d)
    case _ => true
  }

  /** Statements that leave nothing more deferred. A way out does, if it expands a
      `defer defer s`; the end of the enclosing block forgets it. */
  predicate Settles(s: Stmt) { !s.Defer? && !s.Return? && !s.Break? && !s.Continue? }

  predicate Arm(s: Stmt) { s.Block? || s.If? }

  ghost predicate DefersOk(ds: seq<Stmt>) { forall d <- ds :: Shape(d) }

  lemma ForShape(s: Stmt)
    requires s.For? && Shape(s)
    ensures s.body.Block? && Arm(s.body) && Shape(s.body)
    ensures s.init.Some? ==> Shape(s.init.value) && Settles(s.init.value)
  {
  }

  // ----- growth -----

  ghost predicate Extends(c: Code, c': Code) {
    c.code <= c'.code && (c.end != Open ==> c' == c)
  }

  /** Only the current block and new blocks change. */
  ghost predicate Grows(g: Gen, g': Gen) {
    && Ok(g) && Ok(g') && |g.blocks| <= |g'.blocks|
    && (forall b :: 0 <= b < |g.blocks| && b != g.cur ==> g'.blocks[b] == g.blocks[b])
    && Extends(g.blocks[g.cur], g'.blocks[g.cur])
    && (g'.cur == g.cur || g'.cur >= |g.blocks|)
    && (g.err.Some? ==> g'.err == g.err)
  }

  /** An untouched block. */
  ghost predicate Blank(g: Gen, b: nat) { b < |g.blocks| && g.blocks[b] == Code([], Open) }

  ghost predicate Keeps(g: Gen, g': Gen) {
    && Grows(g, g') && g'.main == g.main && g'.depth == g.depth && g'.loops == g.loops
    && g.locals <= g'.locals && g.defers <= g'.defers
  }

  ghost predicate SameScope(g: Gen, g': Gen) {
    && g'.main == g.main && g'.depth == g.depth && g'.loops == g.loops
    && g'.locals == g.locals && g'.defers == g.defers
  }

  lemma GrowsTransitive(a: Gen, b: Gen, c: Gen)
    requires Grows(a, b) && Grows(b, c)
    ensures Grows(a, c)
  {
  }

  lemma GrowsSelf(g: Gen)
    requires Ok(g)
    ensures Grows(g, g)
  {
  }

  lemma EmitGrows(g0: Gen, g: Gen, es: Trace)
    requires Grows(g0, g)
    ensures Grows(g0, Emit(g, es)) && SameScope(g, Emit(g, es)) && |Emit(g, es).blocks| == |g.blocks|
  {
  }

  lemma EmitExprGrows(g0: Gen, g: Gen, e: Expr)
    requires Grows(g0, g)
    ensures Grows(g0, EmitExpr(g, e)) && SameScope(g, EmitExpr(g, e)) && |EmitExpr(g, e).blocks| == |g.blocks|
  {
  }

  lemma EndGrows(g0: Gen, g: Gen, end: Terminator)
    requires Grows(g0, g)
    ensures Grows(g0, End(g, end)) && SameScope(g, End(g, end)) && |End(g, end).blocks| == |g.blocks|
  {
  }

  lemma BrGrows(g0: Gen, g: Gen, to: nat)
    requires Grows(g0, g)
    ensures Grows(g0, Br(g, to)) && SameScope(g, Br(g, to)) && |Br(g, to).blocks| == |g.blocks|
  {
    hide Grows;
    EndGrows(g0, g, Jump(to));
  }

  lemma NewBlocksGrows(g0: Gen, g: Gen, n: nat)
    requires Grows(g0, g)
    ensures Grows(g0, NewBlocks(g, n)) && SameScope(g, NewBlocks(g, n))
  {
  }

  /** Moving on to a block made since `g0`. */
  lemma PositionGrows(g0: Gen, g: Gen, b: nat)
    requires Grows(g0, g) && b >= |g0.blocks|
    ensures Grows(g0, Position(g, b)) && SameScope(g, Position(g, b))
  {
  }

  /** Growth does not look at the scope. */
  lemma ScopeFree(g0: Gen, g: Gen, g': Gen)
    requires Grows(g0, g) && g'.blocks == g.blocks && g'.cur == g.cur && g'.err == g.err
    ensures Grows(g0, g')
  {
  }

  lemma LowerKeeps(n: nat, g: Gen, s: Stmt)
    requires Ok(g) && Shape(s) && DefersOk(g.defers)
    ensures Keeps(g, Lower(n, g, s)) && DefersOk(Lower(n, g, s).defers)
    ensures Settles(s) ==> Lower(n, g, s).defers == g.defers
    ensures Arm(s) ==> Lower(n, g, s).locals == g.locals
    decreases n, 1, s, 1
  {
    if !Closed(g) {
      match s
      case Block(stmts, own) => LowerBlockKeeps(n, g, stmts, own);
      case Let(name, e) =>
        GrowsSelf(g);
        EmitExprGrows(g, g, e);
        EmitGrows(g, EmitExpr(g, e), [Store(e.id)]);
        ScopeFree(g, Emit(EmitExpr(g, e), [Store(e.id)]), Lower(n, g, s));
      case Assign(name, v) =>
        GrowsSelf(g);
        EmitGrows(g, g, AssignEvents(g.locals, g.depth, name, v));
      case Eval(e) =>
        GrowsSelf(g);
        EmitExprGrows(g, g, e);
      case Return(v) => LowerReturnKeeps(n, g, v);
      case If(c, yes, no) => LowerIfKeeps(n, g, s);
      case For(_, _, _, _) => LowerForKeeps(n, g, s);
      case Switch(e, cases) => LowerSwitchKeeps(n, g, e, cases);
      case Break => LowerJumpKeeps(n, g, false);
      case Continue => LowerJumpKeeps(n, g, true);
      case Defer(d) =>
    }
  }

  lemma LowerBlockKeeps(n: nat, g: Gen, stmts: seq<Stmt>, own: bool)
    requires Ok(g) && DefersOk(g.defers) && forall x <- stmts :: Shape(x)
    ensures Keeps(g, LowerBlock(n, g, stmts, own))
    ensures LowerBlock(n, g, stmts, own).defers == g.defers && LowerBlock(n, g, stmts, own).locals == g.locals
    decreases n, 1, stmts, 3
  {
    hide Grows, Emit;
    GrowsSelf(g);
    EmitGrows(g, g, [Push]);
    var g1 := if own then Emit(g, [Push]).(depth := g.depth + 1) else g;
    if own { ScopeFree(g, Emit(g, [Push]), g1); }
    LowerAllKeeps(n, g1, stmts);
    var g2 := LowerAll(n, g1, stmts);
    GrowsTransitive(g, g1, g2);
    if Closed(g2) {
      ScopeFree(g, g2, Leave(g, g2));
    } else {
      DeferredKeeps(n, g2, |g.defers|);
      var q := Deferred(n, g2, |g.defers|);
      GrowsTransitive(g, g2, q);
      EmitGrows(g, q, [Pop]);
      var g3 := if own then Emit(q, [Pop]) else q;
      ScopeFree(g, g3, Leave(g, g3));
    }
  }

  lemma LowerAllKeeps(n: nat, g: Gen, ss: seq<Stmt>)
    requires Ok(g) && DefersOk(g.defers) && forall x <- ss :: Shape(x)
    ensures Keeps(g, LowerAll(n, g, ss)) && DefersOk(LowerAll(n, g, ss).defers)
    decreases n, 1, ss, 2
  {
    if ss != [] {
      LowerKeeps(n, g, ss[0]);
      LowerAllKeeps(n, Lower(n, g, ss[0]), ss[1..]);
      GrowsTransitive(g, Lower(n, g, ss[0]), LowerAll(n, g, ss));
    }
  }

  lemma DeferredKeeps(n: nat, g: Gen, mark: nat)
    requires Ok(g) && DefersOk(g.defers)
    ensures Keeps(g, Deferred(n, g, mark)) && DefersOk(Deferred(n, g, mark).defers)
    decreases n, 0, 0
  {
    if g.err.None? && mark < |g.defers| && n > 0 {
      LowerTodoKeeps(n - 1, g, g.defers[mark..]);
    }
  }

  lemma LowerTodoKeeps(n: nat, g: Gen, todo: seq<Stmt>)
    requires Ok(g) && DefersOk(g.defers) && DefersOk(todo)
    ensures Keeps(g, LowerTodo(n, g, todo)) && DefersOk(LowerTodo(n, g, todo).defers)
    decreases n, 1, todo, 2
  {
    if todo != [] {
      var d := todo[|todo| - 1];
      assert d in todo;
      LowerKeeps(n, g, d);
      LowerTodoKeeps(n, Lower(n, g, d), todo[..|todo| - 1]);
      GrowsTransitive(g, Lower(n, g, d), LowerTodo(n, g, todo));
    }
  }

  lemma LowerReturnKeeps(n: nat, g: Gen, v: Option<Value>)
    requires Ok(g) && DefersOk(g.defers)
    ensures Keeps(g, LowerReturn(n, g, v)) && DefersOk(LowerReturn(n, g, v).defers)
    decreases n, 0, 1
  {
    hide Grows, Emit, EmitExpr, End, Deferred;
    GrowsSelf(g);
    if v.Some? { EmitExprGrows(g, g, v.value.e); }
    var g1 := if v.Some? then EmitExpr(g, v.value.e) else g;
    DeferredKeeps(n, g1, 0);
    var g2 := Deferred(n, g1, 0);
    GrowsTransitive(g, g1, g2);
    EmitGrows(g, g2, Epilogue(v, g.depth, g.main));
    EndGrows(g, Emit(g2, Epilogue(v, g.depth, g.main)), Ret);
  }

  lemma LowerJumpKeeps(n: nat, g: Gen, cont: bool)
    requires Ok(g) && DefersOk(g.defers)
    ensures Keeps(g, LowerJump(n, g, cont)) && DefersOk(LowerJump(n, g, cont).defers)
    decreases n, 0, 1
  {
    hide Grows, Emit, Br, Deferred;
    GrowsSelf(g);
    var i := LoopFor(g.loops, cont);
    if i >= 0 {
      var l := g.loops[i];
      DeferredKeeps(n, g, l.defers);
      var g1 := Deferred(n, g, l.defers);
      EmitGrows(g, g1, Pops(Minus(g.depth, l.depth)));
      BrGrows(g, Emit(g1, Pops(Minus(g.depth, l.depth))), if cont then l.next.value else l.done);
    } else {
      ScopeFree(g, g, g);
      FailGrows(g, OutsideLoop);
    }
  }

  lemma FailGrows(g: Gen, e: Error)
    requires Ok(g)
    ensures Grows(g, Fail(g, e))
  {
  }

  lemma IfUnfolds(n: nat, g: Gen, s: Stmt)
    requires Ok(g) && s.If? && !Closed(g)
    ensures var b := |g.blocks|;
            var g1 := End(NewBlocks(EmitExpr(g, s.c), 3), Cond(true, b, b + 1));
            var g3 := Position(Br(Lower(n, Position(g1, b), s.yes), b + 2), b + 1);
            Lower(n, g, s) == Position(Br(if s.no.Some? then Lower(n, g3, s.no.value) else g3, b + 2), b + 2)
  {
    hide EmitExpr, End, Br, NewBlocks, Position;
  }

  lemma LowerIfKeeps(n: nat, g: Gen, s: Stmt)
    requires Ok(g) && DefersOk(g.defers) && s.If? && Shape(s) && !Closed(g)
    ensures Keeps(g, Lower(n, g, s)) && Lower(n, g, s).defers == g.defers
    ensures Lower(n, g, s).locals == g.locals
    decreases n, 1, s, 0
  {
    hide Grows, Emit, EmitExpr, End, Br, NewBlocks, Position;
    var b := |g.blocks|;
    GrowsSelf(g);
    var a := EmitExpr(g, s.c);
    EmitExprGrows(g, g, s.c);
    NewBlocksGrows(g, a, 3);
    EndGrows(g, NewBlocks(a, 3), Cond(true, b, b + 1));
    var g1 := End(NewBlocks(a, 3), Cond(true, b, b + 1));
    ArmKeeps(n, g, g1, s.yes, b, b + 2);
    var g2 := Br(Lower(n, Position(g1, b), s.yes), b + 2);
    PositionGrows(g, g2, b + 1);
    var g3 := Position(g2, b + 1);
    if s.no.Some? { ArmKeeps(n, g, g2, s.no.value, b + 1, b + 2); }
    BrGrows(g, g3, b + 2);
    var g4 := Br(if s.no.Some? then Lower(n, g3, s.no.value) else g3, b + 2);
    PositionGrows(g, g4, b + 2);
  }

  /** One arm, lowered into its own block. */
  lemma ArmKeeps(n: nat, g0: Gen, g: Gen, s: Stmt, b: nat, done: nat)
    requires Ok(g) && Grows(g0, g) && DefersOk(g.defers) && b >= |g0.blocks|
    requires Arm(s) && Shape(s)
    ensures var g' := Br(Lower(n, Position(g, b), s), done);
            Grows(g0, g') && SameScope(g, g')
    decreases n, 1, s, 2
  {
    hide Grows, Br, Position;
    PositionGrows(g0, g, b);
    var p := Position(g, b);
    LowerKeeps(n, p, s);
    GrowsTransitive(g0, p, Lower(n, p, s));
    BrGrows(g0, Lower(n, p, s), done);
  }

  lemma LowerForKeeps(n: nat, g: Gen, s: Stmt)
    requires Ok(g) && DefersOk(g.defers) && s.For? && Shape(s)
    ensures Keeps(g, LowerFor(n, g, s)) && LowerFor(n, g, s).defers == g.defers
    ensures LowerFor(n, g, s).locals == g.locals
    decreases n, 1, s, 0
  {
    hide Grows, ForHead, ForTail, Lower, DefersOk;
    assert Shape(s.body) && s.body.Block?;
    GrowsSelf(g);
    if s.init.Some? { LowerKeeps(n, g, s.init.value); }
    var g0 := if s.init.Some? then Lower(n, g, s.init.value) else g;
    ForHeadKeeps(g0, s);
    var inner := ForHead(g0, s);
    LowerKeeps(n, inner, s.body);
    var g4 := Lower(n, inner, s.body);
    GrowsTransitive(g0, inner, g4);
    ScopeFree(g0, g4, PopLoop(g4));
    assert PopLoop(g4).loops == g0.loops;
    ForTailKeeps(g0, PopLoop(g4), s, |g0.blocks|);
    ScopeFree(g0, ForTail(PopLoop(g4), s, |g0.blocks|), LowerFor(n, g, s));
    GrowsTransitive(g, g0, LowerFor(n, g, s));
  }

  lemma ForHeadKeeps(g0: Gen, s: Stmt)
    requires Ok(g0) && s.For?
    ensures Grows(g0, ForHead(g0, s))
    ensures ForHead(g0, s).loops == g0.loops + [Loop(|g0.blocks| + 3, Some(|g0.blocks| + 2), |g0.defers|, g0.depth)]
    ensures SameScope(g0, ForHead(g0, s).(loops := g0.loops))
  {
    hide Grows, EmitExpr, End, Br, NewBlocks, Position;
    var b := |g0.blocks|;
    GrowsSelf(g0);
    NewBlocksGrows(g0, g0, 4);
    BrGrows(g0, NewBlocks(g0, 4), b);
    PositionGrows(g0, Br(NewBlocks(g0, 4), b), b);
    var g1 := Position(Br(NewBlocks(g0, 4), b), b);
    if s.cond.Some? { EmitExprGrows(g0, g1, s.cond.value); }
    var g2 := if s.cond.Some? then EmitExpr(g1, s.cond.value) else g1;
    EndGrows(g0, g2, Cond(s.cond.Some?, b + 1, b + 3));
    PositionGrows(g0, End(g2, Cond(s.cond.Some?, b + 1, b + 3)), b + 1);
    var g3 := Position(End(g2, Cond(s.cond.Some?, b + 1, b + 3)), b + 1);
    ScopeFree(g0, g3, ForHead(g0, s));
  }

  lemma ForTailKeeps(g0: Gen, g4: Gen, s: Stmt, b: nat)
    requires Ok(g4) && Grows(g0, g4) && b == |g0.blocks| && s.For?
    ensures Grows(g0, ForTail(g4, s, b)) && SameScope(g4, ForTail(g4, s, b))
  {
    hide Grows, EmitExpr, Br, Position;
    BrGrows(g0, g4, b + 2);
    PositionGrows(g0, Br(g4, b + 2), b + 2);
    var g5 := Position(Br(g4, b + 2), b + 2);
    if s.post.Some? { EmitExprGrows(g0, g5, s.post.value); }
    var p := if s.post.Some? then EmitExpr(g5, s.post.value) else g5;
    BrGrows(g0, p, b);
    PositionGrows(g0, Br(p, b), b + 3);
  }

  lemma LowerSwitchKeeps(n: nat, g: Gen, e: Expr, cases: seq<Case>)
    requires Ok(g) && DefersOk(g.defers) && forall c <- cases :: c.body.Block? && Shape(c.body)
    ensures Keeps(g, LowerSwitch(n, g, e, cases)) && LowerSwitch(n, g, e, cases).defers == g.defers
    decreases n, 1, cases, 3
  {
    hide Grows, EmitExpr, End, NewBlocks, Position;
    var done := |g.blocks|;
    GrowsSelf(g);
    EmitExprGrows(g, g, e);
    NewBlocksGrows(g, EmitExpr(g, e), 1 + |cases|);
    var g1 := NewBlocks(EmitExpr(g, e), 1 + |cases|);
    var end := Table(LabelsFrom(cases, done + 1), OtherFrom(cases, done + 1, done));
    EndGrows(g, g1, end);
    var g2 := End(g1, end);
    var g3 := g2.(loops := g2.loops + [Loop(done, None, |g2.defers|, g2.depth)]);
    ScopeFree(g, g2, g3);
    LowerCasesKeeps(n, g, g3, cases, done + 1, done);
    var g4 := LowerCases(n, g3, cases, done + 1, done);
    ScopeFree(g, g4, PopLoop(g4));
    assert PopLoop(g4).loops == g.loops;
    PositionGrows(g, PopLoop(g4), done);
  }

  /** `g0` is the state before the switch made its blocks. */
  lemma LowerCasesKeeps(n: nat, g0: Gen, g: Gen, cases: seq<Case>, first: nat, done: nat)
    requires Ok(g) && Grows(g0, g) && first >= |g0.blocks| && DefersOk(g.defers)
    requires forall c <- cases :: c.body.Block? && Shape(c.body)
    ensures Grows(g0, LowerCases(n, g, cases, first, done)) && SameScope(g, LowerCases(n, g, cases, first, done))
    decreases n, 1, cases, 2
  {
    hide Grows, Br, Position;
    if cases != [] {
      var c := cases[0];
      assert c in cases && c.body < c;
      ArmKeeps(n, g0, g, c.body, first, done);
      LowerCasesKeeps(n, g0, Br(Lower(n, Position(g, first), c.body), done), cases[1..], first + 1, done);
    }
  }

  // ----- closed blocks -----

  /** A statement that control does not pass closes its block. */
  lemma {:induction false} StopsCloses(n: nat, g: Gen, s: Stmt)
    requires Ok(g) && Stops(s)
    ensures Closed(Lower(n, g, s))
    decreases s, 1
  {
    if !Closed(g) {
      match s
      case Block(stmts, own) =>
        var g1 := if own then Emit(g, [Push]).(depth := g.depth + 1) else g;
        AllStopsCloses(n, g1, stmts);
      case Return(v) =>
        hide Deferred, Epilogue;
      case Break => JumpCloses(n, g, false);
      case Continue => JumpCloses(n, g, true);
    }
  }

  lemma JumpCloses(n: nat, g: Gen, cont: bool)
    requires Ok(g)
    ensures Closed(LowerJump(n, g, cont))
  {
    hide Deferred, Emit;
  }

  lemma {:induction false} AllStopsCloses(n: nat, g: Gen, ss: seq<Stmt>)
    requires Ok(g) && StopsAll(ss)
    ensures Closed(LowerAll(n, g, ss))
    decreases ss, 0
  {
    hide Lower;
    if Stops(ss[0]) {
      StopsCloses(n, g, ss[0]);
      ClosedStays(n, Lower(n, g, ss[0]), ss[1..]);
    } else {
      AllStopsCloses(n, Lower(n, g, ss[0]), ss[1..]);
    }
  }

  lemma {:induction false} ClosedStays(n: nat, g: Gen, ss: seq<Stmt>)
    requires Ok(g) && Closed(g)
    ensures LowerAll(n, g, ss) == g
    decreases ss
  {
    if ss != [] { ClosedStays(n, g, ss[1..]); }
  }

  /** As long as the block is open, the newest of the registered statements are those of the
      list itself. */
  lemma {:induction false} RegistersTame(n: nat, g: Gen, ss: seq<Stmt>)
    requires Ok(g) && DefersOk(g.defers) && !RecursAll(ss) && forall x <- ss :: Shape(x)
    ensures var r := LowerAll(n, g, ss);
            g.defers <= r.defers && (!Closed(r) ==> Tame(r.defers[|g.defers|..]))
    decreases |ss|
  {
    hide Lower, Shape, Grows, Wild;
    if ss != [] {
      var s, rest := ss[0], ss[1..];
      assert s in ss;
      var g1 := Lower(n, g, s);
      LowerKeeps(n, g, s);
      if Stops(s) { StopsCloses(n, g, s); }
      if Closed(g1) {
        ClosedStays(n, g1, rest);
      } else {
        RegistersTame(n, g1, rest);
        RegistersOne(n, g, s);
        var r := LowerAll(n, g1, rest);
        assert r.defers[|g.defers|..] == g1.defers[|g.defers|..] + r.defers[|g1.defers|..];
      }
    }
  }

  lemma RegistersOne(n: nat, g: Gen, s: Stmt)
    requires Ok(g) && DefersOk(g.defers) && !Recurs(s) && Shape(s) && !Stops(s)
    ensures g.defers <= Lower(n, g, s).defers && Tame(Lower(n, g, s).defers[|g.defers|..])
  {
    LowerKeeps(n, g, s);
    hide Grows, LowerBlock, LowerFor, LowerSwitch, LowerReturn, LowerJump, Emit, EmitExpr, GetsOut;
    if s.Defer? && !Closed(g) { assert Lower(n, g, s).defers[|g.defers|..] == [s.s]; }
  }

  // ----- ways out and the statements they expand -----

  /** A way out of this kind expands nothing deferred before number `base`. */
  ghost predicate Stays(base: nat, g: Gen, kind: Kind) {
    match kind
    case ByReturn => base == 0
    case ByBreak => LoopFor(g.loops, false) >= 0 ==> g.loops[LoopFor(g.loops, false)].defers >= base
    case ByContinue => LoopFor(g.loops, true) >= 0 ==> g.loops[LoopFor(g.loops, true)].defers >= base
  }

  /** What is deferred from number `base` on stays where it is put. */
  ghost predicate Room(base: nat, g: Gen) { base <= |g.defers| && Tame(g.defers[base..]) }

  /** The statement keeps to that part: it may be lowered while older ones are expanded. */
  ghost predicate Within(base: nat, g: Gen, s: Stmt) {
    !Recurs(s) && forall kind :: Out(s, kind) ==> Stays(base, g, kind)
  }

  ghost predicate AllWithin(base: nat, g: Gen, ss: seq<Stmt>) {
    !RecursAll(ss) && forall kind :: OutAll(ss, kind) ==> Stays(base, g, kind)
  }

  lemma StillWithin(base: nat, g: Gen, g': Gen, s: Stmt)
    requires Room(base, g) && Within(base, g, s) && g'.defers == g.defers && g'.loops == g.loops
    ensures Room(base, g') && Within(base, g', s)
  {
  }

  lemma FirstWithin(base: nat, g: Gen, ss: seq<Stmt>)
    requires ss != [] && AllWithin(base, g, ss)
    ensures Within(base, g, ss[0])
  {
  }

  lemma RestWithin(base: nat, g: Gen, g': Gen, ss: seq<Stmt>)
    requires ss != [] && AllWithin(base, g, ss) && !Stops(ss[0]) && g'.loops == g.loops
    ensures AllWithin(base, g', ss[1..])
  {
    forall kind | OutAll(ss[1..], kind) ensures Stays(base, g', kind) { assert OutAll(ss, kind); }
  }

  lemma DeferRoom(base: nat, g: Gen, g': Gen, s: Stmt)
    requires Room(base, g) && s.Defer? && !Recurs(s) && g'.defers == g.defers + [s.s]
    ensures Room(base, g')
  {
    assert g'.defers[base..] == g.defers[base..] + [s.s];
  }

  lemma BlockWithin(base: nat, g: Gen, g1: Gen, s: Stmt)
    requires s.Block? && Room(base, g) && Within(base, g, s) && g1.defers == g.defers && g1.loops == g.loops
    ensures Room(base, g1) && AllWithin(base, g1, s.stmts)
  {
    forall kind | OutAll(s.stmts, kind) ensures Stays(base, g1, kind) { assert Out(s, kind); }
  }

  lemma IfWithin(base: nat, g: Gen, s: Stmt)
    requires s.If? && Within(base, g, s)
    ensures Within(base, g, s.yes) && (s.no.Some? ==> Within(base, g, s.no.value))
  {
  }

  lemma InnerWithin(base: nat, g: Gen, inner: Gen, s: Stmt, done: nat, next: nat)
    requires s.For? && Room(base, g) && Within(base, g, s) && inner.defers == g.defers
    requires exists loops, depth :: inner.loops == loops + [Loop(done, Some(next), |g.defers|, depth)]
    ensures Room(base, inner) && Within(base, inner, s.body)
  {
    forall kind | Out(s.body, kind) ensures Stays(base, inner, kind) {
      if kind == ByReturn { assert Out(s, kind); }
    }
  }

  lemma CaseWithin(base: nat, g: Gen, g3: Gen, s: Stmt, c: Case, done: nat)
    requires s.Switch? && c in s.cases && Room(base, g) && Within(base, g, s)
    requires g3.defers == g.defers && g3.loops == g.loops + [Loop(done, None, |g.defers|, g.depth)]
    ensures Room(base, g3) && Within(base, g3, c.body)
  {
    assert g3.loops[..|g.loops|] == g.loops;
    forall kind | Out(c.body, kind) ensures Stays(base, g3, kind) {
      if kind != ByBreak { assert Out(s, kind); }
    }
  }

  /** A tame statement keeps to what it defers itself. */
  lemma TameWithin(g: Gen, d: Stmt)
    requires !Wild(d) && !d.Defer?
    ensures Room(|g.defers|, g) && Within(|g.defers|, g, d)
  {
    forall kind ensures !Out(d, kind) { if kind == ByReturn {} else if kind == ByBreak {} }
  }
}
