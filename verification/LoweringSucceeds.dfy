/** When lowering succeeds, read off the text: names are declared before they are used, no
    live break or continue stands outside a loop, and no live deferred statement gets out of
    itself (control.rs:60-377). */
module LoweringSucceeds {
  import opened Wrappers
  import opened Syntax
  import opened SourceSemantics
  import opened BasicBlocks
  import opened Lowering
  import opened WaysOut
  import opened LoweringGrowth
  import opened LoweringCorrect
  import opened LoweringSimulation
  import opened DeferRecursion
  import opened DeferExpansion

  // ----- names in scope -----

  predicate Declared(e: Expr, names: set<string>) { forall n <- e.uses :: n in names }

  function NamesAfter(s: Stmt, names: set<string>): set<string> { if s.Let? then names + {s.name} else names }

  /** Every name of the statement that is not dead code has been declared. */
  predicate Resolved(s: Stmt, names: set<string>)
    decreases s, 1
  {
    match s
    case Block(stmts, _) => ResolvedAll(stmts, names)
    case Let(_, e) => Declared(e, names)
    case Assign(name, v) => name in names && Declared(v.e, names)
    case Eval(e) => Declared(e, names)
    case Return(v) => v.Some? ==> Declared(v.value.e, names)
    case If(c, yes, no) => Declared(c, names) && Resolved(yes, names) && (no.Some? ==> Resolved(no.value, names))
    case For(init, cond, post, body) =>
      var inner := if init.Some? then NamesAfter(init.value, names) else names;
      && (init.Some? ==> Resolved(init.value, names))
      && (cond.Some? ==> Declared(cond.value, inner)) && (post.Some? ==> Declared(post.value, inner))
      && Resolved(body, inner)
    case Switch(e, cases) => Declared(e, names) && forall c <- cases :: Resolved(c.body, names)
    case Defer(d) => d.Defer? || Resolved(d, names)
    case _ => true
  }

  predicate ResolvedAll(ss: seq<Stmt>, names: set<string>)
    decreases ss, 0
  {
    ss == [] ||
    (Resolved(ss[0], names) && (Stops(ss[0]) || ResolvedAll(ss[1..], NamesAfter(ss[0], names))))
  }

  ghost predicate Covers(env: Env, names: set<string>) { forall n <- names :: Find(env, n) >= 0 }

  lemma {:induction false} FindKept(env: Env, env': Env, n: string)
    requires env <= env' && Find(env, n) >= 0
    ensures Find(env', n) >= 0
    decreases |env'|
  {
    if |env'| > |env| {
      FindKept(env, env'[..|env'| - 1], n);
    } else {
      assert env == env';
    }
  }

  lemma CoversKept(env: Env, env': Env, names: set<string>)
    requires env <= env' && Covers(env, names)
    ensures Covers(env', names)
  {
    forall n <- names ensures Find(env', n) >= 0 { FindKept(env, env', n); }
  }

  lemma CoversMore(env: Env, l: Local, names: set<string>)
    requires Covers(env, names)
    ensures Covers(env + [l], names + {l.name})
  {
    CoversKept(env, env + [l], names);
  }

  /** The statement's names are declared where it is expanded. */
  ghost predicate Readable(env: Env, d: Stmt) {
    d.Defer? || exists names :: Covers(env, names) && Resolved(d, names)
  }

  lemma ReadableKept(env: Env, env': Env, d: Stmt)
    requires env <= env' && Readable(env, d)
    ensures Readable(env', d)
  {
    if !d.Defer? {
      var names :| Covers(env, names) && Resolved(d, names);
      CoversKept(env, env', names);
    }
  }

  ghost predicate AllReadable(env: Env, ds: seq<Stmt>) { forall d <- ds :: Readable(env, d) }

  lemma AllReadableKept(env: Env, env': Env, ds: seq<Stmt>)
    requires env <= env' && AllReadable(env, ds)
    ensures AllReadable(env', ds)
  {
    forall d <- ds ensures Readable(env', d) { ReadableKept(env, env', d); }
  }

  // ----- what lowering a statement needs -----

  /** A jump has a loop to go to. */
  ghost predicate HasLoop(g: Gen, kind: Kind) {
    match kind
    case ByReturn => true
    case ByBreak => LoopFor(g.loops, false) >= 0
    case ByContinue => LoopFor(g.loops, true) >= 0
  }

  ghost predicate Scene(base: nat, n: nat, g: Gen, names: set<string>) {
    Prepared(g) && Deep(base, n, g) && Covers(g.locals, names) && AllReadable(g.locals, g.defers[base..])
  }

  ghost predicate Part(base: nat, n: nat, g: Gen, s: Stmt, names: set<string>) {
    Shape(s) && Inside(base, n, g, s) && Resolved(s, names) && forall kind :: Out(s, kind) ==> HasLoop(g, kind)
  }

  ghost predicate Parts(base: nat, n: nat, g: Gen, ss: seq<Stmt>, names: set<string>) {
    && (forall x <- ss :: Shape(x)) && AllInside(base, n, g, ss) && ResolvedAll(ss, names)
    && forall kind :: OutAll(ss, kind) ==> HasLoop(g, kind)
  }

  /** No error, and open unless the text stops. */
  predicate Lowered(g: Gen, stops: bool)
    requires Ok(g)
  {
    g.err.None? && (!stops ==> !Terminated(g))
  }

  lemma SceneStill(base: nat, n: nat, g: Gen, g': Gen, names: set<string>)
    requires Scene(base, n, g, names) && Ok(g') && g'.err.None? && !Terminated(g')
    requires g'.defers == g.defers && g'.loops == g.loops && g.locals <= g'.locals
    ensures Scene(base, n, g', names)
  {
    hide Find, Wild, Shape, Resolved;
    CoversKept(g.locals, g'.locals, names);
    AllReadableKept(g.locals, g'.locals, g.defers[base..]);
  }

  lemma PartStill(base: nat, n: nat, g: Gen, g': Gen, s: Stmt, names: set<string>)
    requires Part(base, n, g, s, names) && g'.defers == g.defers && g'.loops == g.loops && Room(base, g)
    ensures Part(base, n, g', s, names)
  {
    StillWithin(base, g, g', s);
    forall kind | Out(s, kind) ensures HasLoop(g', kind) { assert HasLoop(g, kind); }
  }

  lemma FirstPart(base: nat, n: nat, g: Gen, ss: seq<Stmt>, names: set<string>)
    requires ss != [] && Parts(base, n, g, ss, names)
    ensures Part(base, n, g, ss[0], names)
  {
    FirstInside(base, n, g, ss);
    assert ss[0] in ss;
    forall kind | Out(ss[0], kind) ensures HasLoop(g, kind) { assert OutAll(ss, kind); }
  }

  lemma RestParts(base: nat, n: nat, g: Gen, g': Gen, ss: seq<Stmt>, names: set<string>)
    requires ss != [] && Parts(base, n, g, ss, names) && !Stops(ss[0]) && g'.loops == g.loops
    ensures Parts(base, n, g', ss[1..], NamesAfter(ss[0], names))
  {
    hide Shape;
    RestInside(base, n, g, g', ss);
    forall kind | OutAll(ss[1..], kind) ensures HasLoop(g', kind) { assert OutAll(ss, kind); }
  }

  // ----- straight-line code -----

  lemma ExprLowers(g: Gen, e: Expr, names: set<string>)
    requires Ok(g) && !Closed(g) && Covers(g.locals, names) && Declared(e, names)
    ensures var a := EmitExpr(g, e); Lowered(a, false) && SameScope(g, a) && Known(g.locals, e.uses)
  {
    hide Find;
  }

  lemma EmitLowers(g: Gen, es: Trace)
    requires Ok(g) && !Closed(g)
    ensures Lowered(Emit(g, es), false) && SameScope(g, Emit(g, es))
  {
  }

  lemma BrLowers(g: Gen, to: nat)
    requires Ok(g) && g.err.None?
    ensures Br(g, to).err.None?
  {
  }

  // ----- the induction -----

  lemma DeferredLowers(base: nat, n: nat, g: Gen, mark: nat, names: set<string>)
    requires Scene(base, n, g, names) && mark >= base
    ensures Lowered(Deferred(n, g, mark), false)
    decreases n, 0, 0
  {
    if mark < |g.defers| {
      var todo := g.defers[mark..];
      forall d <- todo ensures !Wild(d) && Nesting(d) < n && Readable(g.locals, d) { assert d in g.defers[base..]; }
      assert todo[0] in todo;
      TodoLowers(n - 1, g, todo);
    }
  }

  lemma TodoLowers(n: nat, g: Gen, todo: seq<Stmt>)
    requires Prepared(g) && DefersOk(todo) && forall d <- todo :: !Wild(d) && Nesting(d) <= n && Readable(g.locals, d)
    ensures Lowered(LowerTodo(n, g, todo), false)
    decreases n, 1, todo, 2
  {
    hide Wild, Nesting, Lower, Shape, Readable, Find;
    if todo == [] {
      PreparedOpen(g);
    } else {
      var d, rest := todo[|todo| - 1], todo[..|todo| - 1];
      assert d in todo;
      LowerKeeps(n, g, d);
      var g1 := Lower(n, g, d);
      OneExpanded(n, g, d);
      forall x <- rest ensures Readable(g1.locals, x) { ReadableKept(g.locals, g1.locals, x); }
      TodoLowers(n, g1, rest);
    }
  }

  lemma OneExpanded(n: nat, g: Gen, d: Stmt)
    requires Prepared(g) && Shape(d) && !Wild(d) && Nesting(d) <= n && Readable(g.locals, d)
    ensures Lowered(Lower(n, g, d), false) && Prepared(Lower(n, g, d))
    decreases n, 1, d, 2
  {
    hide Lower, Nesting, Find, Resolved, Shape;
    PreparedOpen(g);
    LowerKeeps(n, g, d);
    if d.Defer? {
      DeferIs(n, g, d.s);
    } else {
      var names :| Covers(g.locals, names) && Resolved(d, names);
      TameInside(n, g, d);
      TameStays(d);
      forall kind ensures !Out(d, kind) { if kind == ByReturn {} else if kind == ByBreak {} }
      LowerSucceeds(|g.defers|, n, g, d, names);
    }
  }

  lemma {:induction false} LowerSucceeds(base: nat, n: nat, g: Gen, s: Stmt, names: set<string>)
    requires Scene(base, n, g, names) && Part(base, n, g, s, names)
    ensures Lowered(Lower(n, g, s), Stops(s))
    decreases n, 1, s, 1
  {
    hide Scene, Part, Covers, Declared, Find;
    SceneOpen(base, n, g, names);
    PartResolved(base, n, g, s, names);
    match s
    case Block(_, _) => BlockLowers(base, n, g, s, names);
    case Let(_, e) => ExprLowers(g, e, names) by { assert Covers(g.locals, names); }
    case Assign(_, v) => AssignLowers(g, s, names);
    case Eval(e) => ExprLowers(g, e, names);
    case Return(v) => ReturnLowers(base, n, g, s, names);
    case If(_, _, _) => IfLowers(base, n, g, s, names);
    case For(_, _, _, _) => ForLowers(base, n, g, s, names);
    case Switch(_, _) => SwitchLowers(base, n, g, s, names);
    case Break => JumpLowers(base, n, g, s, false, names);
    case Continue => JumpLowers(base, n, g, s, true, names);
    case Defer(_) =>
  }

  lemma SceneOpen(base: nat, n: nat, g: Gen, names: set<string>)
    requires Scene(base, n, g, names)
    ensures Ok(g) && !Closed(g) && !Terminated(g) && Covers(g.locals, names) && Prepared(g) && Room(base, g) && Deep(base, n, g)
  {
  }

  lemma PartResolved(base: nat, n: nat, g: Gen, s: Stmt, names: set<string>)
    requires Part(base, n, g, s, names)
    ensures Resolved(s, names) && Shape(s)
  {
  }

  lemma AssignLowers(g: Gen, s: Stmt, names: set<string>)
    requires Ok(g) && !Closed(g) && s.Assign? && Covers(g.locals, names) && Resolved(s, names)
    ensures Find(g.locals, s.name) >= 0 && Known(g.locals, s.rhs.e.uses)
  {
    hide Find;
  }

  lemma ReturnLowers(base: nat, n: nat, g: Gen, s: Stmt, names: set<string>)
    requires Scene(base, n, g, names) && s.Return? && Part(base, n, g, s, names)
    ensures LowerReturn(n, g, s.value).err.None?
    decreases n, 0, 1
  {
    hide Deferred, DefersOk, Epilogue, Emit, EmitExpr, Find;
    var v := s.value;
    assert Out(s, ByReturn) && base == 0;
    var g1 := if v.Some? then EmitExpr(g, v.value.e) else g;
    if v.Some? { ExprLowers(g, v.value.e, names); }
    SceneStill(base, n, g, g1, names);
    DeferredLowers(0, n, g1, 0, names);
    EmitLowers(Deferred(n, g1, 0), Epilogue(v, g.depth, g.main));
  }

  lemma JumpLowers(base: nat, n: nat, g: Gen, s: Stmt, cont: bool, names: set<string>)
    requires Scene(base, n, g, names) && s == (if cont then Continue else Break) && Part(base, n, g, s, names)
    ensures LowerJump(n, g, cont).err.None?
    decreases n, 0, 1
  {
    hide Deferred, DefersOk, Emit, Br;
    var kind := if cont then ByContinue else ByBreak;
    assert Out(s, kind) && HasLoop(g, kind) && Stays(base, g, kind);
    var l := g.loops[LoopFor(g.loops, cont)];
    DeferredLowers(base, n, g, l.defers, names);
    var g1 := Deferred(n, g, l.defers);
    EmitLowers(g1, Pops(Minus(g.depth, l.depth)));
    BrLowers(Emit(g1, Pops(Minus(g.depth, l.depth))), if cont then l.next.value else l.done);
  }

  // ----- lists and blocks -----

  lemma {:induction false} AllSucceeds(base: nat, n: nat, g: Gen, ss: seq<Stmt>, names: set<string>)
    requires Scene(base, n, g, names) && Parts(base, n, g, ss, names)
    ensures var r := LowerAll(n, g, ss);
            Lowered(r, StopsAll(ss)) && (!Terminated(r) ==> exists after :: Scene(base, n, r, after))
    decreases n, 1, ss, 2
  {
    hide Lower, Scene, Part, Parts, Shape, Keeps;
    SceneOpen(base, n, g, names);
    if ss != [] {
      var s, rest := ss[0], ss[1..];
      assert s in ss;
      FirstPart(base, n, g, ss, names);
      PartResolved(base, n, g, s, names);
      LowerSucceeds(base, n, g, s, names);
      var g1 := Lower(n, g, s);
      if Stops(s) {
        StopsCloses(n, g, s);
        ClosedStays(n, g1, rest);
      } else {
        NextScene(base, n, g, s, names);
        RestParts(base, n, g, g1, ss, names) by { SameLoops(n, g, s); }
        AllSucceeds(base, n, g1, rest, NamesAfter(s, names));
      }
    }
  }

  lemma SameLoops(n: nat, g: Gen, s: Stmt)
    requires Prepared(g) && Shape(s)
    ensures Lower(n, g, s).loops == g.loops
  {
    hide Lower;
    LowerKeeps(n, g, s);
  }

  /** Behind a statement that is passed. */
  lemma NextScene(base: nat, n: nat, g: Gen, s: Stmt, names: set<string>)
    requires Scene(base, n, g, names) && Part(base, n, g, s, names) && !Stops(s) && Lowered(Lower(n, g, s), false)
    ensures Scene(base, n, Lower(n, g, s), NamesAfter(s, names))
  {
    hide Lower, Find, Shape, Resolved, Readable, Wild;
    var g1 := Lower(n, g, s);
    LowerKeeps(n, g, s);
    PreparedOpen(g);
    if s.Defer? {
      DeferIs(n, g, s.s);
      DeferDeep(base, n, g, g1, s);
      RegisteredReadable(g.locals, s, names);
      assert g1.defers[base..] == g.defers[base..] + [s.s];
    } else {
      TameSettles(s);
      SceneStill(base, n, g, g1, names);
      if s.Let? { LetCovers(n, g, s, names); }
    }
  }

  lemma RegisteredReadable(env: Env, s: Stmt, names: set<string>)
    requires s.Defer? && Resolved(s, names) && Covers(env, names)
    ensures Readable(env, s.s)
  {
    hide Covers;
  }

  lemma LetCovers(n: nat, g: Gen, s: Stmt, names: set<string>)
    requires s.Let? && Ok(g) && !Closed(g) && Covers(g.locals, names)
    ensures Covers(Lower(n, g, s).locals, names + {s.name})
  {
    hide Find, Emit;
    CoversMore(g.locals, Local(s.name, s.e.id, g.depth), names);
    assert Lower(n, g, s).locals == g.locals + [Local(s.name, s.e.id, g.depth)] by { hide Covers; LetLocals(n, g, s); }
  }

  lemma LetLocals(n: nat, g: Gen, s: Stmt)
    requires s.Let? && Ok(g) && !Closed(g)
    ensures Lower(n, g, s).locals == g.locals + [Local(s.name, s.e.id, g.depth)]
  {
  }

  lemma BlockLowers(base: nat, n: nat, g: Gen, s: Stmt, names: set<string>)
    requires Scene(base, n, g, names) && s.Block? && Part(base, n, g, s, names)
    ensures Lowered(LowerBlock(n, g, s.stmts, s.own), StopsAll(s.stmts))
    decreases n, 1, s, 0
  {
    hide Scene, Emit, LowerAll, Deferred, Parts;
    SceneOpen(base, n, g, names);
    EmitLowers(g, [Push]);
    var g1 := if s.own then Emit(g, [Push]).(depth := g.depth + 1) else g;
    SceneStill(base, n, g, g1, names);
    BlockParts(base, n, g, g1, s, names);
    AllSucceeds(base, n, g1, s.stmts, names);
    var g2 := LowerAll(n, g1, s.stmts);
    if !Terminated(g2) {
      var after :| Scene(base, n, g2, after);
      DeferredLowers(base, n, g2, |g.defers|, after);
      EmitLowers(Deferred(n, g2, |g.defers|), [Pop]);
    }
  }

  lemma BlockParts(base: nat, n: nat, g: Gen, g1: Gen, s: Stmt, names: set<string>)
    requires s.Block? && Part(base, n, g, s, names) && Deep(base, n, g) && g1.defers == g.defers && g1.loops == g.loops
    ensures Parts(base, n, g1, s.stmts, names) && base <= |g.defers|
  {
    BlockInside(base, n, g, g1, s);
    forall kind | OutAll(s.stmts, kind) ensures HasLoop(g1, kind) { assert Out(s, kind) && HasLoop(g, kind); }
  }

  // ----- branching statements -----

  /** An arm in its blank block. */
  lemma ArmLowers(base: nat, n: nat, g: Gen, gi: Gen, s: Stmt, b: nat, done: nat, names: set<string>)
    requires Scene(base, n, g, names) && Part(base, n, g, s, names) && Arm(s)
    requires Ok(gi) && SameScope(g, gi) && gi.err.None? && Blank(gi, b)
    ensures Br(Lower(n, Position(gi, b), s), done).err.None?
    decreases n, 1, s, 2
  {
    hide Lower, Scene, Part;
    SceneOpen(base, n, g, names);
    var q := Position(gi, b);
    SceneStill(base, n, g, q, names);
    PartStill(base, n, g, q, s, names);
    LowerSucceeds(base, n, q, s, names);
    BrLowers(Lower(n, q, s), done);
  }

  lemma IfLowers(base: nat, n: nat, g: Gen, s: Stmt, names: set<string>)
    requires Scene(base, n, g, names) && s.If? && Part(base, n, g, s, names)
    ensures Lowered(Lower(n, g, s), false)
    decreases n, 1, s, 0
  {
    hide Lower, Br, End, EmitExpr, NewBlocks, Scene, Later, Position;
    SceneOpen(base, n, g, names);
    var b := |g.blocks|;
    IfParts(base, n, g, s, names);
    IfShape(s);
    IfUnfolds(n, g, s);
    ExprLowers(g, s.c, names);
    IfHead(g, s.c, b);
    var g1 := End(NewBlocks(EmitExpr(g, s.c), 3), Cond(true, b, b + 1));
    BranchLowers(EmitExpr(g, s.c), 3, Cond(true, b, b + 1));
    ArmLowers(base, n, g, g1, s.yes, b, b + 2, names);
    ArmLaid(n, g1, s.yes, b, b + 2);
    var g2 := Br(Lower(n, Position(g1, b), s.yes), b + 2);
    if s.no.Some? { ArmLowers(base, n, g, g2, s.no.value, b + 1, b + 2, names); }
    ElseLaid(n, g2, s.no, b + 1, b + 2);
    var g3 := Position(g2, b + 1);
    PositionErr(g2, b + 1);
    var g4 := Br(if s.no.Some? then Lower(n, g3, s.no.value) else g3, b + 2);
    if s.no.None? { BrLowers(g3, b + 2); }
    assert Blank(g4, b + 2);
    BlankOpen(g4, b + 2);
  }

  lemma IfParts(base: nat, n: nat, g: Gen, s: Stmt, names: set<string>)
    requires s.If? && Part(base, n, g, s, names)
    ensures Shape(s) && Declared(s.c, names) && Part(base, n, g, s.yes, names)
    ensures s.no.Some? ==> Part(base, n, g, s.no.value, names)
  {
    IfInside(base, n, g, s);
    forall kind ensures (Out(s.yes, kind) ==> HasLoop(g, kind)) && (s.no.Some? && Out(s.no.value, kind) ==> HasLoop(g, kind)) {
      if Out(s, kind) { assert HasLoop(g, kind); }
    }
  }

  lemma BranchLowers(a: Gen, n: nat, end: Terminator)
    requires Ok(a) && !Closed(a)
    ensures End(NewBlocks(a, n), end).err.None?
  {
  }

  lemma PositionErr(g: Gen, b: nat)
    requires Ok(g)
    ensures Position(g, b).err == g.err
  {
  }

  lemma BlankOpen(g: Gen, b: nat)
    requires Ok(g) && g.err.None? && Blank(g, b)
    ensures Lowered(Position(g, b), false)
  {
  }

  lemma ForLowers(base: nat, n: nat, g: Gen, s: Stmt, names: set<string>)
    requires Scene(base, n, g, names) && s.For? && Part(base, n, g, s, names)
    ensures Lowered(LowerFor(n, g, s), false)
    decreases n, 1, s, 0
  {
    hide Lower, ForHead, ForTail, Scene, Part, Shape, Resolved;
    SceneOpen(base, n, g, names);
    PartResolved(base, n, g, s, names);
    ForShape(s);
    var inner := if s.init.Some? then NamesAfter(s.init.value, names) else names;
    var g0 := if s.init.Some? then Lower(n, g, s.init.value) else g;
    InitLowers(base, n, g, s, names);
    SceneOpen(base, n, g0, inner);
    LoopNames(s, names);
    HeadLowers(g0, s, inner);
    ForHeadKeeps(g0, s);
    ForHeadLaid(g0, s);
    var h := ForHead(g0, s);
    LoopScene(base, n, g, g0, h, s, names, inner);
    LowerSucceeds(base, n, h, s.body, inner);
    LowerKeeps(n, h, s.body);
    BodyBlocks(g0, s, h, Lower(n, h, s.body));
    TailLowers(PopLoop(Lower(n, h, s.body)), s, |g0.blocks|, inner);
    ForTailLaid(PopLoop(Lower(n, h, s.body)), s, |g0.blocks|);
  }

  lemma LoopNames(s: Stmt, names: set<string>)
    requires s.For? && Resolved(s, names)
    ensures var inner := if s.init.Some? then NamesAfter(s.init.value, names) else names;
            && (s.cond.Some? ==> Declared(s.cond.value, inner)) && (s.post.Some? ==> Declared(s.post.value, inner))
            && Resolved(s.body, inner)
  {
  }

  /** The initializer is straight-line code. */
  lemma InitLowers(base: nat, n: nat, g: Gen, s: Stmt, names: set<string>)
    requires Scene(base, n, g, names) && s.For? && Shape(s) && Resolved(s, names)
    ensures var g0 := if s.init.Some? then Lower(n, g, s.init.value) else g;
            Scene(base, n, g0, if s.init.Some? then NamesAfter(s.init.value, names) else names)
            && g0.defers == g.defers && g0.loops == g.loops
  {
    hide Lower, Scene;
    if s.init.Some? {
      var i := s.init.value;
      SceneOpen(base, n, g, names);
      LowerKeeps(n, g, i);
      SimpleLowers(n, g, i, names);
      SceneStill(base, n, g, Lower(n, g, i), names);
      if i.Let? {
        LetCovers(n, g, i, names);
        SceneNames(base, n, Lower(n, g, i), names, NamesAfter(i, names));
      }
    }
  }

  lemma SceneNames(base: nat, n: nat, g: Gen, names: set<string>, more: set<string>)
    requires Scene(base, n, g, names) && Covers(g.locals, more)
    ensures Scene(base, n, g, more)
  {
  }

  lemma SimpleLowers(n: nat, g: Gen, s: Stmt, names: set<string>)
    requires Ok(g) && !Closed(g) && Covers(g.locals, names) && Resolved(s, names) && (s.Let? || s.Assign? || s.Eval?)
    ensures Lowered(Lower(n, g, s), false)
  {
    hide Covers, Find, AssignEvents;
    match s
    case Let(_, e) => ExprLowers(g, e, names);
    case Assign(_, v) => AssignLowers(g, s, names);
    case Eval(e) => ExprLowers(g, e, names);
  }

  lemma HeadLowers(g0: Gen, s: Stmt, names: set<string>)
    requires Ok(g0) && !Closed(g0) && s.For? && Covers(g0.locals, names) && (s.cond.Some? ==> Declared(s.cond.value, names))
    ensures ForHead(g0, s).err.None?
  {
    hide Find;
    var b := |g0.blocks|;
    var g1 := Position(Br(NewBlocks(g0, 4), b), b);
    assert g1.err.None? && g1.cur == b && g1.locals == g0.locals && Blank(g1, b);
    if s.cond.Some? { ExprLowers(g1, s.cond.value, names); }
  }

  lemma LoopScene(base: nat, n: nat, g: Gen, g0: Gen, h: Gen, s: Stmt, names: set<string>, inner: set<string>)
    requires Scene(base, n, g0, inner) && s.For? && Part(base, n, g, s, names) && Room(base, g)
    requires g0.defers == g.defers && g0.loops == g.loops && Resolved(s.body, inner)
    requires Ok(h) && h.err.None? && Blank(h, h.cur) && SameScope(g0, h.(loops := g0.loops))
    requires h.loops == g0.loops + [Loop(|g0.blocks| + 3, Some(|g0.blocks| + 2), |g0.defers|, g0.depth)]
    ensures Scene(base, n, h, inner) && Part(base, n, h, s.body, inner)
  {
    hide Find, Wild;
    StillInside(base, n, g, g0, s) by { assert Deep(base, n, g); }
    InnerInside(base, n, g0, g0, h, s);
    ForShape(s);
    forall kind | Out(s.body, kind) ensures HasLoop(h, kind) { if kind == ByReturn { assert Out(s, kind); } }
  }

  lemma TailLowers(g4: Gen, s: Stmt, b: nat, names: set<string>)
    requires Ok(g4) && g4.err.None? && s.For? && Blank(g4, b + 2) && g4.cur != b + 2
    requires Covers(g4.locals, names) && (s.post.Some? ==> Declared(s.post.value, names))
    ensures ForTail(g4, s, b).err.None?
  {
    hide Find;
    StaysBlank(g4, b + 2, b + 2);
    BrLowers(g4, b + 2);
    var g5 := Position(Br(g4, b + 2), b + 2);
    assert g5.err.None? && !Closed(g5) && g5.locals == g4.locals;
    if s.post.Some? { ExprLowers(g5, s.post.value, names); }
    BrLowers(if s.post.Some? then EmitExpr(g5, s.post.value) else g5, b);
  }

  lemma SwitchLowers(base: nat, n: nat, g: Gen, s: Stmt, names: set<string>)
    requires Scene(base, n, g, names) && s.Switch? && Part(base, n, g, s, names)
    ensures Lowered(LowerSwitch(n, g, s.e, s.cases), false)
    decreases n, 1, s, 0
  {
    hide Scene, Part, EmitExpr, NewBlocks, End, LowerCases, Later, Shape;
    SceneOpen(base, n, g, names);
    PartResolved(base, n, g, s, names);
    SwitchShape(s);
    var done := |g.blocks|;
    var end := Table(LabelsFrom(s.cases, done + 1), OtherFrom(s.cases, done + 1, done));
    ExprLowers(g, s.e, names);
    SwitchHead(g, s.e, |s.cases|, end);
    BranchLowers(EmitExpr(g, s.e), 1 + |s.cases|, end);
    var g2 := End(NewBlocks(EmitExpr(g, s.e), 1 + |s.cases|), end);
    var g3 := g2.(loops := g2.loops + [Loop(done, None, |g2.defers|, g2.depth)]);
    BlankSplit(g2, g3, done, |s.cases|);
    var open := g.(loops := g3.loops);
    SwitchScene(base, n, g, open, s, names, done);
    CasesLower(base, n, open, g3, s.cases, done + 1, done, names);
    BlankOpen(PopLoop(LowerCases(n, g3, s.cases, done + 1, done)), done);
  }

  lemma SwitchScene(base: nat, n: nat, g: Gen, open: Gen, s: Stmt, names: set<string>, done: nat)
    requires Scene(base, n, g, names) && s.Switch? && Part(base, n, g, s, names)
    requires open == g.(loops := g.loops + [Loop(done, None, |g.defers|, g.depth)])
    ensures Scene(base, n, open, names)
    ensures forall c <- s.cases :: c.body.Block? && Part(base, n, open, c.body, names)
  {
    hide Find, Wild;
    assert open.loops[..|g.loops|] == g.loops;
    CasesInside(base, n, g, open, s, done);
    forall c <- s.cases ensures Part(base, n, open, c.body, names) {
      forall kind | Out(c.body, kind) ensures HasLoop(open, kind) {
        if kind != ByBreak { assert Out(s, kind) && HasLoop(g, kind); }
      }
    }
  }

  lemma {:induction false} CasesLower(base: nat, n: nat, open: Gen, g: Gen, cases: seq<Case>, first: nat, done: nat, names: set<string>)
    requires Scene(base, n, open, names) && Ok(g) && SameScope(open, g) && g.err.None?
    requires forall c <- cases :: c.body.Block? && Part(base, n, open, c.body, names)
    requires BlankFrom(g, first, |cases|) && done < first && Blank(g, done)
    ensures LowerCases(n, g, cases, first, done).err.None? && Blank(LowerCases(n, g, cases, first, done), done)
    decreases n, 1, cases, 2
  {
    hide Scene, Part, Lower, Br, Later, Position, Shape;
    if cases != [] {
      var c := cases[0];
      assert c in cases && c.body < c;
      SceneOpen(base, n, open, names);
      PartResolved(base, n, open, c.body, names);
      assert Blank(g, first);
      ArmLowers(base, n, open, g, c.body, first, done, names);
      ArmLaid(n, g, c.body, first, done);
      var g' := Br(Lower(n, Position(g, first), c.body), done);
      BlankStill(g, g', first, |cases|);
      CasesLower(base, n, open, g', cases[1..], first + 1, done, names);
    }
  }

  // ----- whole functions -----

  function NamesOf(params: Env): set<string> { set l <- params :: l.name }

  lemma {:induction false} ParamsCovered(params: Env)
    ensures Covers(params, NamesOf(params))
    decreases |params|
  {
    if params != [] {
      var front, l := params[..|params| - 1], params[|params| - 1];
      ParamsCovered(front);
      CoversMore(front, l, NamesOf(front));
      assert params == front + [l];
    }
  }

  /** Names are declared before they are used, and jumps stand inside loops, as far as the
      code is not dead: two checks on the text. */
  predicate WellFormed(body: Stmt, params: Env) {
    Resolved(body, NamesOf(params)) && !Out(body, ByBreak) && !Out(body, ByContinue)
  }

  /** A well-formed function in which no live deferred statement gets out of itself is lowered
      without error, at every bound from the nesting depth of its defers on. */
  lemma FunctionLowers(n: nat, body: Stmt, params: Env, main: bool)
    requires body.Block? && Shape(body) && WellFormed(body, params) && !Recurs(body) && n >= Nesting(body)
    ensures LowerFunction(n, body, params, main).err.None?
  {
    hide Lower, Shape, Recurs, Nesting, Out, Epilogue, Resolved, Covers;
    var g0 := Start(params, main);
    EmitLowers(g0, Entry(main));
    var g := Emit(g0, Entry(main));
    ParamsCovered(params);
    assert g.defers == [] && g.loops == [];
    StartScene(n, g, body, NamesOf(params));
    LowerSucceeds(0, n, g, body, NamesOf(params));
    var g1 := Lower(n, g, body);
    if !Closed(g1) { EmitLowers(g1, Epilogue(None, g1.depth, main)); }
  }

  lemma StartScene(n: nat, g: Gen, body: Stmt, names: set<string>)
    requires Ok(g) && !Closed(g) && g.defers == [] && g.loops == [] && Covers(g.locals, names)
    requires Shape(body) && Resolved(body, names) && !Out(body, ByBreak) && !Out(body, ByContinue)
    requires !Recurs(body) && n >= Nesting(body)
    ensures Scene(0, n, g, names) && Part(0, n, g, body, names)
  {
    hide Shape, Recurs, Nesting, Out, Resolved, Covers;
    forall kind | Out(body, kind) ensures HasLoop(g, kind) && Stays(0, g, kind) { if kind == ByBreak {} else if kind == ByContinue {} }
  }

  ghost predicate Succeeded(body: Stmt, params: Env, main: bool) { exists n :: LowerFunction(n, body, params, main).err.None? }

  /** For every well-formed function without strays: lowering succeeds at some bound if and
      only if no live deferred statement gets out of itself. */
  lemma SucceedsExactly(body: Stmt, params: Env, main: bool)
    requires body.Block? && Shape(body) && WellFormed(body, params) && !Stray(body)
    ensures Succeeded(body, params, main) <==> !Recurs(body)
    ensures !Recurs(body) ==> forall n :: n >= Nesting(body) ==> LowerFunction(n, body, params, main).err.None?
  {
    hide LowerFunction, Shape, Recurs, Stray, Nesting, WellFormed;
    if Succeeded(body, params, main) {
      var n :| LowerFunction(n, body, params, main).err.None?;
      SuccessIsTame(n, body, params, main);
    }
    if !Recurs(body) {
      forall n: nat | n >= Nesting(body) ensures LowerFunction(n, body, params, main).err.None? {
        FunctionLowers(n, body, params, main);
      }
      assert LowerFunction(Nesting(body), body, params, main).err.None?;
    }
  }
}
