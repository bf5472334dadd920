/** Lowering succeeds only where no deferred statement gets out of itself: such a statement
    is still registered when its own way out expands all that is deferred, so it expands
    itself again, without end (control.rs:69-75). */
module DeferRecursion {
  import opened Wrappers
  import opened Syntax
  import opened SourceSemantics
  import opened BasicBlocks
  import opened Lowering
  import opened WaysOut
  import opened LoweringGrowth
  import opened LoweringCorrect
  import opened LoweringSimulation

  /** No loop was entered with more than `k` statements deferred. */
  ghost predicate Ahead(g: Gen, k: nat) { forall l <- g.loops :: l.defers <= k }

  /** A way out of this kind passes the deferred statement number `k`. */
  ghost predicate Passes(g: Gen, kind: Kind, k: nat) {
    match kind
    case ByReturn => true
    case ByBreak => LoopFor(g.loops, false) >= 0 ==> g.loops[LoopFor(g.loops, false)].defers <= k
    case ByContinue => LoopFor(g.loops, true) >= 0 ==> g.loops[LoopFor(g.loops, true)].defers <= k
  }

  /** Statement `k` gets out this way, and nothing deferred after it gets out at all. */
  ghost predicate Trapped(g: Gen, kind: Kind, k: nat) {
    k < |g.defers| && !Recurs(g.defers[k]) && Out(g.defers[k], kind) && Tame(g.defers[k + 1..]) && Passes(g, kind, k)
  }

  /** Expanding what is deferred registers nothing that gets out of itself. */
  ghost predicate Straight(ds: seq<Stmt>) { forall d <- ds :: !Stray(Defer(d)) }

  // ----- what errors leave behind -----

  lemma ReturnErr(n: nat, g: Gen, v: Option<Value>)
    requires Prepared(g) && LowerReturn(n, g, v).err.None?
    ensures var g1 := if v.Some? then EmitExpr(g, v.value.e) else g;
            Prepared(g1) && SameScope(g, g1) && Deferred(n, g1, 0).err.None?
  {
    hide Deferred, Epilogue, DefersOk;
    var g1 := if v.Some? then EmitExpr(g, v.value.e) else g;
    DeferredKeeps(n, g1, 0);
    GrownErr(g1, Deferred(n, g1, 0));
  }

  lemma JumpErr(n: nat, g: Gen, cont: bool)
    requires Ok(g) && LowerJump(n, g, cont).err.None?
    ensures LoopFor(g.loops, cont) >= 0 && Deferred(n, g, g.loops[LoopFor(g.loops, cont)].defers).err.None?
  {
    hide Deferred;
  }

  lemma BlockErr(n: nat, g: Gen, s: Stmt)
    requires Prepared(g) && s.Block? && Shape(s) && LowerBlock(n, g, s.stmts, s.own).err.None?
    ensures var g1 := if s.own then Emit(g, [Push]).(depth := g.depth + 1) else g;
            && Prepared(g1) && g1.defers == g.defers && g1.loops == g.loops && LowerAll(n, g1, s.stmts).err.None?
            && var g2 := LowerAll(n, g1, s.stmts);
               && Keeps(g1, g2) && DefersOk(g2.defers)
               && (!Terminated(g2) ==>
                     && Prepared(g2) && Deferred(n, g2, |g.defers|).err.None?
                     && (!Terminated(Deferred(n, g2, |g.defers|)) ==> !Terminated(LowerBlock(n, g, s.stmts, s.own))))
  {
    hide DefersOk, LowerAll, Deferred, Grows;
    var g1 := if s.own then Emit(g, [Push]).(depth := g.depth + 1) else g;
    LowerAllKeeps(n, g1, s.stmts);
    GrownErr(g1, LowerAll(n, g1, s.stmts));
  }

  lemma GrownErr(g: Gen, g': Gen)
    requires Grows(g, g')
    ensures g'.err.None? ==> g.err.None?
  {
  }

  lemma AllErr(n: nat, g: Gen, ss: seq<Stmt>)
    requires Prepared(g) && ss != [] && (forall x <- ss :: Shape(x)) && LowerAll(n, g, ss).err.None?
    ensures var g1 := Lower(n, g, ss[0]);
            && g1.err.None? && LowerAll(n, g1, ss[1..]).err.None? && Keeps(g, g1) && DefersOk(g1.defers)
            && (Settles(ss[0]) ==> g1.defers == g.defers) && (!Terminated(g1) ==> Prepared(g1))
            && (Terminated(g1) ==> LowerAll(n, g, ss) == g1)
            && g1.defers <= LowerAll(n, g, ss).defers
  {
    hide Lower, Shape, DefersOk;
    var g1 := Lower(n, g, ss[0]);
    assert ss[0] in ss;
    LowerKeeps(n, g, ss[0]);
    LowerAllKeeps(n, g1, ss[1..]);
    GrownErr(g1, LowerAll(n, g1, ss[1..]));
    if Terminated(g1) { ClosedStays(n, g1, ss[1..]); }
  }

  lemma DeferIs(n: nat, g: Gen, d: Stmt)
    requires Ok(g) && !Closed(g)
    ensures Lower(n, g, Defer(d)) == g.(defers := g.defers + [d])
  {
  }

  lemma TodoErr(n: nat, g: Gen, todo: seq<Stmt>)
    requires Prepared(g) && todo != [] && DefersOk(todo)
    ensures var d, rest := todo[|todo| - 1], todo[..|todo| - 1];
            var g1 := Lower(n, g, d);
            && d in todo && Shape(d) && DefersOk(rest)
            && LowerTodo(n, g, todo) == LowerTodo(n, g1, rest)
            && (LowerTodo(n, g1, rest).err.None? ==> g1.err.None?)
            && g.defers <= g1.defers && (Settles(d) ==> g1.defers == g.defers) && g1.loops == g.loops
            && (g1.err.None? && !Terminated(g1) ==> Prepared(g1))
  {
    hide Lower, Shape, Grows;
    var d, rest := todo[|todo| - 1], todo[..|todo| - 1];
    LowerKeeps(n, g, d);
    var g1 := Lower(n, g, d);
    LowerTodoKeeps(n, g1, rest);
    GrownErr(g1, LowerTodo(n, g1, rest));
  }

  /** The blank block an arm is lowered into. */
  lemma ArmReady(n: nat, g: Gen, gi: Gen, s: Stmt, b: nat, done: nat)
    requires Prepared(g) && Ok(gi) && SameScope(g, gi) && gi.err.None? && Blank(gi, b)
    requires Br(Lower(n, Position(gi, b), s), done).err.None?
    ensures var q := Position(gi, b);
            Prepared(q) && q.defers == g.defers && q.loops == g.loops && Lower(n, q, s).err.None?
  {
    hide Lower;
  }

  // ----- what a successful lowering says -----

  lemma {:induction false} Succeeds(n: nat, g: Gen, s: Stmt)
    requires Prepared(g) && Shape(s) && !s.Defer? && !Stray(s) && Straight(g.defers) && Lower(n, g, s).err.None?
    ensures !Recurs(s) && (!Stops(s) ==> !Terminated(Lower(n, g, s)))
    decreases n, 1, s, 1
  {
    hide DefersOk, LoopsOk;
    match s
    case Block(_, _) => BlockSucceeds(n, g, s);
    case If(_, _, _) => IfSucceeds(n, g, s);
    case For(_, _, _, _) => ForSucceeds(n, g, s);
    case Switch(_, _) => SwitchSucceeds(n, g, s);
    case _ =>
  }

  lemma BlockSucceeds(n: nat, g: Gen, s: Stmt)
    requires Prepared(g) && s.Block? && Shape(s) && !Stray(s) && Straight(g.defers)
    requires LowerBlock(n, g, s.stmts, s.own).err.None?
    ensures !RecursAll(s.stmts) && (!StopsAll(s.stmts) ==> !Terminated(LowerBlock(n, g, s.stmts, s.own)))
    decreases n, 1, s, 0
  {
    hide Prepared, LowerAll, Deferred, LowerBlock, Recurs, DefersOk;
    PreparedOpen(g);
    BlockErr(n, g, s);
    var g1 := if s.own then Emit(g, [Push]).(depth := g.depth + 1) else g;
    var k := |g.defers|;
    PreparedAhead(g1);
    ListSucceeds(n, g1, s.stmts, k);
    var g2 := LowerAll(n, g1, s.stmts);
    if !Terminated(g2) && !StopsAll(s.stmts) {
      assert Ahead(g2, k);
      DeferredTame(n, g2, k, k);
    } else if !Terminated(g2) {
      AllStopsCloses(n, g1, s.stmts);
    }
  }

  lemma PreparedAhead(g: Gen)
    requires Prepared(g)
    ensures Ahead(g, |g.defers|)
  {
  }

  lemma {:induction false} ListSucceeds(n: nat, g: Gen, ss: seq<Stmt>, k: nat)
    requires Prepared(g) && (forall x <- ss :: Shape(x)) && LowerAll(n, g, ss).err.None?
    requires k <= |g.defers| && Ahead(g, k) && !StrayAll(ss) && Straight(g.defers)
    ensures var r := LowerAll(n, g, ss);
            if StopsAll(ss) then Tame(g.defers[k..]) && !RecursAll(ss)
            else
              && !Terminated(r) && g.defers <= r.defers && Straight(r.defers)
              && (Tame(r.defers[k..]) ==> !RecursAll(ss))
    decreases n, 1, ss, 2
  {
    hide Lower, Prepared, Recurs, Stray, Shape, GetsOut, DefersOk;
    PreparedOpen(g);
    if ss != [] {
      var s, rest := ss[0], ss[1..];
      assert s in ss;
      AllErr(n, g, ss);
      var g1 := Lower(n, g, s);
      if s.Defer? {
        DeferIs(n, g, s.s);
        ListSucceeds(n, g1, rest, k);
        var ds := if StopsAll(ss) then g1.defers else LowerAll(n, g, ss).defers;
        assert !Stops(s) && LowerAll(n, g, ss) == LowerAll(n, g1, rest);
        assert ds[k..][|g.defers| - k] == s.s;
        assert g1.defers[k..] == g.defers[k..] + [s.s];
        RecursDefer(s);
      } else {
        Succeeds(n, g, s);
        if Stops(s) {
          StopsTame(n, g, s, k);
        } else {
          ListSucceeds(n, g1, rest, k);
        }
      }
    }
  }

  lemma PreparedOpen(g: Gen)
    requires Prepared(g)
    ensures Ok(g) && !Closed(g) && !Terminated(g)
  {
  }

  lemma RecursDefer(s: Stmt)
    requires s.Defer?
    ensures Recurs(s) <==> Wild(s.s)
  {
  }

  /** A way out expands everything deferred since the loops around it were entered. */
  lemma StopsTame(n: nat, g: Gen, s: Stmt, k: nat)
    requires Prepared(g) && Shape(s) && Stops(s) && k <= |g.defers| && Ahead(g, k) && Lower(n, g, s).err.None?
    requires !Stray(s) && Straight(g.defers)
    ensures Tame(g.defers[k..])
    decreases n, 1, s, 0
  {
    hide Prepared, Deferred, LowerAll, Wild, DefersOk;
    PreparedOpen(g);
    match s
    case Return(v) =>
      ReturnErr(n, g, v);
      DeferredTame(n, if v.Some? then EmitExpr(g, v.value.e) else g, 0, k);
    case Break =>
      JumpErr(n, g, false);
      DeferredTame(n, g, g.loops[LoopFor(g.loops, false)].defers, k);
    case Continue =>
      JumpErr(n, g, true);
      DeferredTame(n, g, g.loops[LoopFor(g.loops, true)].defers, k);
    case Block(stmts, own) =>
      BlockErr(n, g, s);
      var g1 := if own then Emit(g, [Push]).(depth := g.depth + 1) else g;
      ListSucceeds(n, g1, stmts, k);
  }

  lemma DeferredTame(n: nat, g: Gen, mark: nat, k: nat)
    requires Prepared(g) && mark <= k <= |g.defers| && Ahead(g, k) && Straight(g.defers) && Deferred(n, g, mark).err.None?
    ensures Tame(g.defers[k..]) && (k == mark ==> !Terminated(Deferred(n, g, mark)))
    decreases n, 0, 0
  {
    if mark < |g.defers| {
      var todo := g.defers[mark..];
      TodoTame(n - 1, g, mark, |g.defers|, k, todo);
    }
  }

  /** From the newest deferred statement down to number `k`. */
  lemma {:induction false} TodoTame(n: nat, g: Gen, mark: nat, j: nat, k: nat, todo: seq<Stmt>)
    requires Prepared(g) && mark <= k <= |g.defers| && Ahead(g, k) && mark <= j <= |g.defers| && Straight(g.defers)
    requires todo == g.defers[mark..j] && Tame(g.defers[j..]) && LowerTodo(n, g, todo).err.None?
    ensures Tame(g.defers[k..]) && (k == mark ==> !Terminated(LowerTodo(n, g, todo)))
    decreases n, 1, todo, 2
  {
    hide Lower, Recurs, Stray, Shape, Wild;
    if j <= k {
      assert g.defers[k..] == g.defers[j..][k - j..];
    } else {
      assert forall d <- todo :: d in g.defers;
      TodoErr(n, g, todo);
      ShorterTodo(g.defers, mark, j);
      var d := todo[|todo| - 1];
      var g1 := Lower(n, g, d);
      ghost var more: seq<Stmt> := if d.Defer? then [d.s] else [];
      if d.Defer? {
        PreparedOpen(g);
        DeferIs(n, g, d.s);
        StrayBelow(d);
        TameDefer(d);
      } else {
        Succeeds(n, g, d) by { StrayOf(d); }
        DeferredTamed(n, g, d, j - 1) by { StrayOf(d); }
        TameSettles(d);
        assert g1.defers == g.defers + more;
      }
      OneLess(g.defers, more, mark, j, k);
      TodoTame(n, g1, mark, j - 1, k, todo[..|todo| - 1]);
    }
  }

  lemma OneLess(ds: seq<Stmt>, more: seq<Stmt>, mark: nat, j: nat, k: nat)
    requires mark <= k < j <= |ds| && !Wild(ds[j - 1]) && Tame(ds[j..]) && Tame(more)
    ensures Tame((ds + more)[j - 1..]) && (ds + more)[mark..j - 1] == ds[mark..j - 1]
    ensures Tame((ds + more)[k..]) ==> Tame(ds[k..])
  {
    hide Wild;
    assert (ds + more)[j - 1..] == [ds[j - 1]] + ds[j..] + more;
    assert (ds + more)[k..] == ds[k..] + more;
  }

  lemma StrayOf(d: Stmt)
    requires !Stray(Defer(d))
    ensures !Stray(d)
  {
  }

  /** What stands below a registered defer is tame, and so on downwards. */
  lemma StrayBelow(d: Stmt)
    requires d.Defer? && !Stray(Defer(d))
    ensures !Wild(d.s) && !Stray(Defer(d.s))
  {
  }

  lemma TameDefer(d: Stmt)
    requires d.Defer?
    ensures !Wild(d)
  {
  }

  lemma TameSettles(d: Stmt)
    requires !Stops(d) && !d.Defer?
    ensures Settles(d)
  {
  }

  lemma ShorterTodo(ds: seq<Stmt>, mark: nat, j: nat)
    requires mark < j <= |ds|
    ensures var todo := ds[mark..j]; todo[|todo| - 1] == ds[j - 1] && todo[..|todo| - 1] == ds[mark..j - 1]
  {
  }

  /** A deferred statement that was lowered without error, with only tame ones after it. */
  lemma DeferredTamed(n: nat, g: Gen, d: Stmt, k: nat)
    requires Prepared(g) && k < |g.defers| && g.defers[k] == d && Tame(g.defers[k + 1..]) && Ahead(g, k)
    requires Shape(d) && !d.Defer? && !Recurs(d) && !Stray(d) && Straight(g.defers) && Lower(n, g, d).err.None?
    ensures !Wild(d) && !Stops(d)
    decreases n, 1, d, 2
  {
    hide Prepared, Lower, Recurs, Shape, Out;
    if Out(d, ByReturn) { NotOut(n, g, d, ByReturn, k); }
    if Out(d, ByBreak) { NotOut(n, g, d, ByBreak, k); }
    if Out(d, ByContinue) { NotOut(n, g, d, ByContinue, k); }
    if Stops(d) { StopsGetsOut(d); }
  }

  // ----- ways out past a statement that has one -----

  lemma {:induction false} NotOut(n: nat, g: Gen, s: Stmt, kind: Kind, k: nat)
    requires Prepared(g) && Shape(s) && !s.Defer? && !Recurs(s) && Trapped(g, kind, k) && Lower(n, g, s).err.None?
    requires !Stray(s) && Straight(g.defers)
    ensures !Out(s, kind)
    decreases n, 1, s, 1
  {
    hide Prepared, Deferred, LowerAll, LowerFor, LowerSwitch, Trapped, DefersOk;
    PreparedOpen(g);
    match s
    case Block(stmts, own) =>
      BlockErr(n, g, s);
      var g1 := if own then Emit(g, [Push]).(depth := g.depth + 1) else g;
      TrappedStill(g, g1, kind, k);
      ListNotOut(n, g1, stmts, kind, k);
    case If(_, _, _) => IfNotOut(n, g, s, kind, k);
    case For(_, _, _, _) => if kind == ByReturn { ForNotOut(n, g, s, kind, k); }
    case Switch(_, _) => if kind != ByBreak { SwitchNotOut(n, g, s, kind, k); }
    case Return(v) =>
      if kind == ByReturn {
        ReturnErr(n, g, v);
        var g1 := if v.Some? then EmitExpr(g, v.value.e) else g;
        TrappedStill(g, g1, kind, k);
        DeferEscapes(n, g1, 0, kind, k);
      }
    case Break =>
      if kind == ByBreak {
        JumpErr(n, g, false);
        TrappedPasses(g, kind, k);
        DeferEscapes(n, g, g.loops[LoopFor(g.loops, false)].defers, kind, k);
      }
    case Continue =>
      if kind == ByContinue {
        JumpErr(n, g, true);
        TrappedPasses(g, kind, k);
        DeferEscapes(n, g, g.loops[LoopFor(g.loops, true)].defers, kind, k);
      }
    case _ =>
  }

  lemma TrappedPasses(g: Gen, kind: Kind, k: nat)
    requires Trapped(g, kind, k)
    ensures Passes(g, kind, k)
  {
  }

  lemma TrappedStill(g: Gen, g': Gen, kind: Kind, k: nat)
    requires Trapped(g, kind, k) && g'.defers == g.defers && g'.loops == g.loops
    ensures Trapped(g', kind, k)
  {
  }

  lemma {:induction false} ListNotOut(n: nat, g: Gen, ss: seq<Stmt>, kind: Kind, k: nat)
    requires Prepared(g) && (forall x <- ss :: Shape(x)) && !RecursAll(ss) && Trapped(g, kind, k)
    requires LowerAll(n, g, ss).err.None? && !StrayAll(ss) && Straight(g.defers)
    ensures !OutAll(ss, kind)
    decreases n, 1, ss, 2
  {
    hide Lower, Prepared, Recurs, Stray, Shape, Trapped, Out, Grows;
    if ss != [] {
      PreparedOpen(g);
      var s, rest := ss[0], ss[1..];
      assert s in ss;
      AllErr(n, g, ss);
      var g1 := Lower(n, g, s);
      if s.Defer? {
        DeferIs(n, g, s.s);
        RecursDefer(s);
        TrappedMore(g, g1, s.s, kind, k);
        DeferStays(s, kind);
        ListNotOut(n, g1, rest, kind, k);
      } else {
        NotOut(n, g, s, kind, k);
        if !Stops(s) {
          Succeeds(n, g, s);
          TameSettles(s);
          TrappedStill(g, g1, kind, k);
          ListNotOut(n, g1, rest, kind, k);
        }
      }
    }
  }

  lemma DeferStays(s: Stmt, kind: Kind)
    requires s.Defer?
    ensures !Out(s, kind)
  {
  }

  lemma TrappedMore(g: Gen, g': Gen, d: Stmt, kind: Kind, k: nat)
    requires Trapped(g, kind, k) && g'.defers == g.defers + [d] && g'.loops == g.loops && !Wild(d)
    ensures Trapped(g', kind, k)
  {
    assert g'.defers[k + 1..] == g.defers[k + 1..] + [d];
  }

  /** Expanding what is deferred reaches the statement again, at a smaller bound. */
  lemma DeferEscapes(n: nat, g: Gen, mark: nat, kind: Kind, k: nat)
    requires Prepared(g) && mark <= k && Trapped(g, kind, k) && Straight(g.defers)
    ensures Deferred(n, g, mark).err.Some?
    decreases n, 0, 0
  {
    if n > 0 {
      var todo := g.defers[mark..];
      TodoEscapes(n - 1, g, mark, |g.defers|, todo, kind, k);
    }
  }

  lemma {:induction false} TodoEscapes(n: nat, g: Gen, mark: nat, j: nat, todo: seq<Stmt>, kind: Kind, k: nat)
    requires Prepared(g) && mark <= k < j <= |g.defers| && todo == g.defers[mark..j] && Trapped(g, kind, k)
    requires Straight(g.defers)
    ensures LowerTodo(n, g, todo).err.Some?
    decreases n, 1, todo, 2
  {
    hide Lower, LowerTodo, Recurs, Stray, Shape, Wild, Out, Passes;
    if LowerTodo(n, g, todo).err.None? {
      assert forall d <- todo :: d in g.defers;
      TodoErr(n, g, todo);
      ShorterTodo(g.defers, mark, j);
      var d := todo[|todo| - 1];
      var g1 := Lower(n, g, d);
      if j - 1 == k {
        OutNoDefer(d, kind);
        NotOut(n, g, d, kind, k) by { StrayOf(d); }
      } else {
        assert d == g.defers[k + 1..][j - 1 - k - 1];
        if d.Defer? {
          PreparedOpen(g);
          DeferIs(n, g, d.s);
          StrayBelow(d);
          TrappedMore(g, g1, d.s, kind, k);
        } else {
          TameRecurs(d);
          Succeeds(n, g, d) by { StrayOf(d); }
          TameStays(d);
          TameSettles(d);
          TrappedStill(g, g1, kind, k);
        }
        SamePart(g.defers, g1.defers, mark, j - 1);
        TodoEscapes(n, g1, mark, j - 1, todo[..|todo| - 1], kind, k);
      }
    }
  }

  lemma SamePart(ds: seq<Stmt>, more: seq<Stmt>, i: nat, j: nat)
    requires ds <= more && i <= j <= |ds|
    ensures more[i..j] == ds[i..j]
  {
  }

  lemma OutNoDefer(d: Stmt, kind: Kind)
    requires Out(d, kind)
    ensures !d.Defer?
  {
  }

  lemma TameRecurs(d: Stmt)
    requires !Wild(d) && !d.Defer?
    ensures !Recurs(d)
  {
  }

  lemma TameStays(d: Stmt)
    requires !Wild(d) && !d.Defer?
    ensures !Stops(d)
  {
    if Stops(d) { StopsGetsOut(d); }
  }

  // ----- branching statements -----

  lemma IfSucceeds(n: nat, g: Gen, s: Stmt)
    requires !Stray(s) && Straight(g.defers)
    requires Prepared(g) && s.If? && Shape(s) && Lower(n, g, s).err.None?
    ensures !Recurs(s) && !Terminated(Lower(n, g, s))
    decreases n, 1, s, 0
  {
    hide Lower, Br, Position, Prepared, DefersOk, EmitExpr, Is;
    PreparedOpen(g);
    var p := Lower(n, g, s).blocks;
    var b := |g.blocks|;
    IfShape(s);
    ContainsItself(Lower(n, g, s));
    var g1, g2 := IfLayout(p, n, g, s);
    ArmReady(n, g, g1, s.yes, b, b + 2);
    Succeeds(n, Position(g1, b), s.yes);
    if s.no.Some? {
      ArmReady(n, g, g2, s.no.value, b + 1, b + 2);
      Succeeds(n, Position(g2, b + 1), s.no.value);
    }
  }

  lemma ContainsItself(g: Gen)
    requires Ok(g)
    ensures Contains(g.blocks, g)
  {
  }

  lemma IfNotOut(n: nat, g: Gen, s: Stmt, kind: Kind, k: nat)
    requires !Stray(s) && Straight(g.defers)
    requires Prepared(g) && s.If? && Shape(s) && !Recurs(s) && Trapped(g, kind, k) && Lower(n, g, s).err.None?
    ensures !Out(s, kind)
    decreases n, 1, s, 0
  {
    hide Lower, Br, Position, Prepared, DefersOk, EmitExpr, Is, Trapped;
    PreparedOpen(g);
    var p := Lower(n, g, s).blocks;
    var b := |g.blocks|;
    IfShape(s);
    ContainsItself(Lower(n, g, s));
    var g1, g2 := IfLayout(p, n, g, s);
    ArmReady(n, g, g1, s.yes, b, b + 2);
    TrappedStill(g, Position(g1, b), kind, k);
    NotOut(n, Position(g1, b), s.yes, kind, k);
    if s.no.Some? {
      ArmReady(n, g, g2, s.no.value, b + 1, b + 2);
      TrappedStill(g, Position(g2, b + 1), kind, k);
      NotOut(n, Position(g2, b + 1), s.no.value, kind, k);
    }
  }

  /** The body of a loop, in its block. */
  lemma ForInner(n: nat, g: Gen, s: Stmt) returns (g0: Gen, inner: Gen)
    requires Prepared(g) && s.For? && Shape(s) && LowerFor(n, g, s).err.None?
    ensures Prepared(inner) && inner.defers == g.defers && Lower(n, inner, s.body).err.None?
    ensures !Terminated(LowerFor(n, g, s)) && s.body.Block? && Shape(s.body)
    ensures inner.loops == g.loops + [Loop(|g0.blocks| + 3, Some(|g0.blocks| + 2), |g.defers|, g.depth)]
  {
    hide Lower, ForHead, ForTail, Br, DefersOk, Shape, LowerFor, Is;
    g0 := if s.init.Some? then Lower(n, g, s.init.value) else g;
    ContainsItself(LowerFor(n, g, s));
    ForShape(s);
    InitScope(n, g, s, g0);
    ForLayout(LowerFor(n, g, s).blocks, n, g, s, g0);
    inner := ForHead(g0, s);
  }

  lemma ForSucceeds(n: nat, g: Gen, s: Stmt)
    requires !Stray(s) && Straight(g.defers)
    requires Prepared(g) && s.For? && Shape(s) && LowerFor(n, g, s).err.None?
    ensures !Recurs(s) && !Terminated(LowerFor(n, g, s))
    decreases n, 1, s, 0
  {
    hide Lower, LowerFor, Prepared;
    var g0, inner := ForInner(n, g, s);
    Succeeds(n, inner, s.body);
  }

  lemma ForNotOut(n: nat, g: Gen, s: Stmt, kind: Kind, k: nat)
    requires !Stray(s) && Straight(g.defers)
    requires Prepared(g) && s.For? && Shape(s) && !Recurs(s) && kind == ByReturn && Trapped(g, kind, k)
    requires LowerFor(n, g, s).err.None?
    ensures !Out(s, kind)
    decreases n, 1, s, 0
  {
    hide Lower, LowerFor, Prepared;
    var g0, inner := ForInner(n, g, s);
    NotOut(n, inner, s.body, kind, k);
  }

  /** The body of case `i`, in its block. */
  lemma CaseInner(n: nat, g: Gen, s: Stmt, i: nat) returns (q: Gen)
    requires Prepared(g) && s.Switch? && Shape(s) && LowerSwitch(n, g, s.e, s.cases).err.None? && i < |s.cases|
    ensures Prepared(q) && q.defers == g.defers && Lower(n, q, s.cases[i].body).err.None?
    ensures s.cases[i].body.Block? && Shape(s.cases[i].body)
    ensures q.loops == g.loops + [Loop(|g.blocks|, None, |g.defers|, g.depth)]
  {
    hide Lower, LowerCases, LowerSwitch, Br, EmitExpr, DefersOk, Shape, Is;
    var p := LowerSwitch(n, g, s.e, s.cases).blocks;
    SwitchShape(s);
    ContainsItself(LowerSwitch(n, g, s.e, s.cases));
    var done := |g.blocks|;
    var g3 := SwitchLayout(p, n, g, s.e, s.cases);
    var gi := CaseLayout(p, n, g3, s.cases, done + 1, done, i);
    assert s.cases[i] in s.cases;
    var open := g.(loops := g3.loops);
    assert Prepared(open);
    ArmReady(n, open, gi, s.cases[i].body, done + 1 + i, done);
    q := Position(gi, done + 1 + i);
  }

  lemma SwitchShape(s: Stmt)
    requires s.Switch? && Shape(s)
    ensures forall c <- s.cases :: c.body.Block? && Shape(c.body)
  {
  }

  lemma SwitchOpen(n: nat, g: Gen, s: Stmt)
    requires Prepared(g) && s.Switch? && Shape(s) && LowerSwitch(n, g, s.e, s.cases).err.None?
    ensures !Terminated(LowerSwitch(n, g, s.e, s.cases))
  {
    hide Lower, LowerCases, LowerSwitch, Br, EmitExpr, DefersOk, Shape, Is;
    SwitchShape(s);
    ContainsItself(LowerSwitch(n, g, s.e, s.cases));
    var g3 := SwitchLayout(LowerSwitch(n, g, s.e, s.cases).blocks, n, g, s.e, s.cases);
  }

  lemma SwitchSucceeds(n: nat, g: Gen, s: Stmt)
    requires !Stray(s) && Straight(g.defers)
    requires Prepared(g) && s.Switch? && Shape(s) && LowerSwitch(n, g, s.e, s.cases).err.None?
    ensures !Recurs(s) && !Terminated(LowerSwitch(n, g, s.e, s.cases))
    decreases n, 1, s, 0
  {
    hide Lower, LowerSwitch, Prepared, Shape;
    SwitchOpen(n, g, s);
    forall c <- s.cases ensures !Recurs(c.body) {
      var i :| 0 <= i < |s.cases| && s.cases[i] == c;
      assert c.body < c;
      var q := CaseInner(n, g, s, i);
      Succeeds(n, q, c.body);
    }
  }

  lemma SwitchNotOut(n: nat, g: Gen, s: Stmt, kind: Kind, k: nat)
    requires !Stray(s) && Straight(g.defers)
    requires Prepared(g) && s.Switch? && Shape(s) && !Recurs(s) && kind != ByBreak && Trapped(g, kind, k)
    requires LowerSwitch(n, g, s.e, s.cases).err.None?
    ensures !Out(s, kind)
    decreases n, 1, s, 0
  {
    hide Lower, LowerSwitch, Prepared, Shape, Trapped;
    forall c <- s.cases ensures !Out(c.body, kind) {
      var i :| 0 <= i < |s.cases| && s.cases[i] == c;
      assert c.body < c;
      var q := CaseInner(n, g, s, i);
      TrappedSwitch(g, q, kind, k);
      NotOut(n, q, c.body, kind, k);
    }
  }

  /** Returns and continues do not see the switch. */
  lemma TrappedSwitch(g: Gen, q: Gen, kind: Kind, k: nat)
    requires Trapped(g, kind, k) && kind != ByBreak && q.defers == g.defers
    requires q.loops == g.loops + [Loop(|g.blocks|, None, |g.defers|, g.depth)]
    ensures Trapped(q, kind, k)
  {
    assert q.loops[..|q.loops| - 1] == g.loops;
  }

  // ----- whole functions -----

  /** A function that is lowered without error has no live deferred statement that gets
      out of itself, whatever the bound. */
  lemma SuccessIsTame(n: nat, body: Stmt, params: Env, main: bool)
    requires Shape(body) && !body.Defer? && !Stray(body) && LowerFunction(n, body, params, main).err.None?
    ensures !Recurs(body)
  {
    hide Lower, Shape, Recurs, Stray, Epilogue;
    var g0 := Start(params, main);
    var g1 := Emit(g0, Entry(main));
    Succeeds(n, g1, body);
  }
}
