/** The mutual induction that puts the constructs together, and its consequence for whole
    functions: the machine halts exactly when the source run ends, with the same trace. */
module LoweringInduction {
  import opened Wrappers
  import opened Syntax
  import opened SourceSemantics
  import opened BasicBlocks
  import opened Lowering
  import opened WaysOut
  import opened LoweringGrowth
  import opened LoweringCorrect
  import opened LoweringSimulation
  import opened DeferRecursion

  lemma ReadyIn(g: Gen, g': Gen)
    requires Prepared(g) && Ok(g') && !Closed(g') && g'.defers == g.defers && g'.loops == g.loops
    ensures Prepared(g')
  {
  }

  // ----- the simple statements -----

  lemma SimLet(p: Program, w: World, n: nat, g: Gen, s: Stmt, fuel: nat, t: Trace)
    requires Prepared(g) && s.Let? && Lower(n, g, s).err.None? && Contains(p, Lower(n, g, s))
    ensures Lands(p, w, AtEnd(g, t), fuel, g, Lower(n, g, s), Exec(w, s, g.locals, g.depth, fuel, t))
  {
    hide Prepared, Emit, EmitExpr;
    LetUnfolds(n, g, s);
    var g1 := EmitExpr(g, s.e);
    var g2 := Emit(g1, [Store(s.e.id)]);
    GrowsSelf(g);
    EmitExprGrows(g, g, s.e);
    GrowsSelf(g1);
    EmitGrows(g1, g1, [Store(s.e.id)]);
    BlocksOnly(p, g2, Lower(n, g, s));
    ContainsEarlier(p, g1, g2);
    var t1 := t + [Did(g.locals, s.e)];
    RunEmitExpr(p, w, g, s.e, t);
    RunEmit(p, w, g1, [Store(s.e.id)], t1);
    assert t1 + [Store(s.e.id)] == t + [Did(g.locals, s.e), Store(s.e.id)];
    ReachesTransitive(p, w, AtEnd(g, t), AtEnd(g1, t1), AtEnd(g2, t1 + [Store(s.e.id)]));
  }

  lemma LetUnfolds(n: nat, g: Gen, s: Stmt)
    requires Prepared(g) && s.Let?
    ensures Ok(g) && !Terminated(g)
    ensures var g2 := Emit(EmitExpr(g, s.e), [Store(s.e.id)]);
            Lower(n, g, s) == g2.(locals := g2.locals + [Local(s.name, s.e.id, g.depth)])
  {
    hide Emit, EmitExpr;
  }

  lemma SimAssign(p: Program, w: World, n: nat, g: Gen, s: Stmt, fuel: nat, t: Trace)
    requires Prepared(g) && s.Assign? && Lower(n, g, s).err.None? && Contains(p, Lower(n, g, s))
    ensures Lands(p, w, AtEnd(g, t), fuel, g, Lower(n, g, s), Exec(w, s, g.locals, g.depth, fuel, t))
  {
    hide Emit, AssignEvents;
    var es := AssignEvents(g.locals, g.depth, s.name, s.rhs);
    assert Lower(n, g, s) == Emit(g, es);
    GrowsSelf(g);
    EmitGrows(g, g, es);
    RunEmit(p, w, g, es, t);
  }

  lemma SimEval(p: Program, w: World, n: nat, g: Gen, s: Stmt, fuel: nat, t: Trace)
    requires Prepared(g) && s.Eval? && Lower(n, g, s).err.None? && Contains(p, Lower(n, g, s))
    ensures Lands(p, w, AtEnd(g, t), fuel, g, Lower(n, g, s), Exec(w, s, g.locals, g.depth, fuel, t))
  {
    hide EmitExpr;
    GrowsSelf(g);
    EmitExprGrows(g, g, s.e);
    RunEmitExpr(p, w, g, s.e, t);
  }

  // ----- expanding deferred statements -----

  /** Running the expansion of `ds`: it gets to its end, or the source does not either. */
  ghost predicate Expands(p: Program, w: World, g: Gen, g': Gen, ds: seq<Stmt>, fuel: nat, t: Trace)
    requires Ok(g) && Ok(g')
  {
    var q := RunAll(w, ds, g.locals, g.depth, fuel, t);
    if q.Timeout? then Runs(p, w, AtEnd(g, t), fuel)
    else !Terminated(g') && q.how.Normal? && q.env == g'.locals && Reaches(p, w, AtEnd(g, t), AtEnd(g', q.t))
  }

  lemma NothingDeferred(p: Program, w: World, n: nat, g: Gen, mark: nat, fuel: nat, t: Trace)
    requires Ok(g) && !Terminated(g) && Suffix(g.defers, mark) == []
    ensures Deferred(n, g, mark) == g && Expands(p, w, g, g, Suffix(g.defers, mark), fuel, t)
  {
    ReachesSelf(p, w, AtEnd(g, t));
  }

  lemma DeferredRuns(p: Program, w: World, n: nat, g: Gen, mark: nat, fuel: nat, t: Trace)
    requires Prepared(g) && Tame(Suffix(g.defers, mark))
    requires Deferred(n, g, mark).err.None? && Contains(p, Deferred(n, g, mark))
    ensures Expands(p, w, g, Deferred(n, g, mark), Suffix(g.defers, mark), fuel, t)
    decreases n, 0, 0
  {
    if mark >= |g.defers| {
      NothingDeferred(p, w, n, g, mark, fuel, t);
    } else {
      var todo := g.defers[mark..];
      assert |todo| <= |g.defers|;
      SimTodo(p, w, n - 1, g, todo, fuel, t);
    }
  }

  lemma SimTodo(p: Program, w: World, n: nat, g: Gen, todo: seq<Stmt>, fuel: nat, t: Trace)
    requires Prepared(g) && DefersOk(todo) && Tame(todo)
    requires LowerTodo(n, g, todo).err.None? && Contains(p, LowerTodo(n, g, todo))
    ensures Expands(p, w, g, LowerTodo(n, g, todo), todo, fuel, t)
    decreases n, 1, todo, 2
  {
    hide Lower, Contains, Exec;
    if todo == [] {
      ReachesSelf(p, w, AtEnd(g, t));
    } else {
      var d := todo[|todo| - 1];
      var rest := todo[..|todo| - 1];
      assert d in todo;
      var g1 := Lower(n, g, d);
      LowerKeeps(n, g, d);
      LowerTodoKeeps(n, g1, rest);
      ContainsEarlier(p, g1, LowerTodo(n, g, todo));
      SimExpanded(p, w, n, g, d, fuel, t);
      var q := Exec(w, d, g.locals, g.depth, fuel, t);
      if q.Done? {
        SimTodo(p, w, n, g1, rest, fuel, q.t);
        ExpandsFrom(p, w, g, g1, LowerTodo(n, g, todo), rest, fuel, t, q.t);
      }
    }
  }

  /** One deferred statement. If it is a defer, what stands below it is registered, and
      nothing happens. */
  lemma SimExpanded(p: Program, w: World, n: nat, g: Gen, d: Stmt, fuel: nat, t: Trace)
    requires Prepared(g) && Shape(d) && !Wild(d) && Lower(n, g, d).err.None? && Contains(p, Lower(n, g, d))
    ensures var q := Exec(w, d, g.locals, g.depth, fuel, t);
            var g1 := Lower(n, g, d);
            if q.Timeout? then Runs(p, w, AtEnd(g, t), fuel)
            else
              && q.how.Normal? && q.depth == g.depth && q.env == g1.locals && Prepared(g1)
              && Reaches(p, w, AtEnd(g, t), AtEnd(g1, q.t))
    decreases n, 1, d, 2
  {
    hide Lower, Contains, Exec, Shape, Wild;
    var g1 := Lower(n, g, d);
    LowerKeeps(n, g, d);
    if d.Defer? {
      DeferIs(n, g, d.s);
      DeferRuns(w, d, g.locals, g.depth, fuel, t);
      ReachesSelf(p, w, AtEnd(g, t));
    } else {
      TameWithin(g, d);
      TameNormal(w, d, g.locals, g.depth, fuel, t);
      Sim(p, w, |g.defers|, n, g, d, fuel, t);
    }
  }

  lemma DeferRuns(w: World, d: Stmt, env: Env, depth: nat, fuel: nat, t: Trace)
    requires d.Defer?
    ensures Exec(w, d, env, depth, fuel, t) == Done(Normal, env, depth, t)
  {
  }

  lemma TameNormal(w: World, d: Stmt, env: Env, depth: nat, fuel: nat, t: Trace)
    requires Shape(d) && !Wild(d) && !d.Defer?
    ensures var q := Exec(w, d, env, depth, fuel, t); q.Done? ==> q.how.Normal? && q.depth == depth
  {
    hide Exec, Out;
    OutEnds(w, d, env, depth, fuel, t);
    DepthKept(w, d, env, depth, fuel, t);
  }

  lemma ExpandsFrom(p: Program, w: World, g: Gen, g1: Gen, g2: Gen, ds: seq<Stmt>, fuel: nat, t: Trace, t1: Trace)
    requires Ok(g) && Ok(g1) && Ok(g2) && g1.depth == g.depth
    requires Reaches(p, w, AtEnd(g, t), AtEnd(g1, t1)) && Expands(p, w, g1, g2, ds, fuel, t1)
    ensures var q := RunAll(w, ds, g1.locals, g.depth, fuel, t1);
            if q.Timeout? then Runs(p, w, AtEnd(g, t), fuel)
            else !Terminated(g2) && q.how.Normal? && q.env == g2.locals && Reaches(p, w, AtEnd(g, t), AtEnd(g2, q.t))
  {
    var q := RunAll(w, ds, g1.locals, g.depth, fuel, t1);
    if q.Timeout? {
      ReachesRuns(p, w, AtEnd(g, t), AtEnd(g1, t1), fuel);
    } else {
      ReachesTransitive(p, w, AtEnd(g, t), AtEnd(g1, t1), AtEnd(g2, q.t));
    }
  }

  // ----- leaving early -----

  lemma SimReturn(p: Program, w: World, n: nat, g: Gen, v: Option<Value>, fuel: nat, t: Trace)
    requires Prepared(g) && Tame(g.defers) && LowerReturn(n, g, v).err.None? && Contains(p, LowerReturn(n, g, v))
    ensures Lands(p, w, AtEnd(g, t), fuel, g, LowerReturn(n, g, v), Exec(w, Return(v), g.locals, g.depth, fuel, t))
    decreases n, 0, 1
  {
    hide Deferred, Emit, EmitExpr, End, Epilogue, Contains, DefersOk, LoopsOk;
    var g1 := if v.Some? then EmitExpr(g, v.value.e) else g;
    var g2 := Deferred(n, g1, 0);
    var epilogue := Epilogue(v, g.depth, g.main);
    var g3 := Emit(g2, epilogue);
    var t1 := if v.Some? then t + [Did(g.locals, v.value.e)] else t;
    GrowsSelf(g);
    if v.Some? { EmitExprGrows(g, g, v.value.e); }
    ReturnParts(p, n, g, g1, g2, g3, v);
    if v.Some? { RunEmitExpr(p, w, g, v.value.e, t); } else { ReachesSelf(p, w, AtEnd(g, t)); }
    ReadyIn(g, g1);
    DeferredRuns(p, w, n, g1, 0, fuel, t1);
    ExpandsFrom(p, w, g, g1, g2, g.defers, fuel, t, t1);
    var q := RunAll(w, g.defers, g.locals, g.depth, fuel, t1);
    if q.Done? {
      RunEmit(p, w, g2, epilogue, q.t);
      Ended(p, g3, Ret);
      ReachesStep(p, w, AtEnd(g3, q.t + epilogue));
      ReachesTransitive(p, w, AtEnd(g, t), AtEnd(g2, q.t), AtEnd(g3, q.t + epilogue));
      ReachesTransitive(p, w, AtEnd(g, t), AtEnd(g3, q.t + epilogue), Halted(q.t + epilogue));
    }
  }

  lemma ReturnParts(p: Program, n: nat, g: Gen, g1: Gen, g2: Gen, g3: Gen, v: Option<Value>)
    requires Prepared(g) && Grows(g, g1) && SameScope(g, g1)
    requires g2 == Deferred(n, g1, 0) && g3 == Emit(g2, Epilogue(v, g.depth, g.main))
    requires End(g3, Ret).err.None? && Contains(p, End(g3, Ret))
    ensures g1.err.None? && g2.err.None? && g3.err.None? && SameScope(g, g1)
    ensures Contains(p, g1) && Contains(p, g2) && Contains(p, g3)
    ensures Suffix(g1.defers, 0) == g.defers
  {
    hide Deferred, Emit, End, Epilogue;
    DeferredKeeps(n, g1, 0);
    GrowsSelf(g2);
    EmitGrows(g2, g2, Epilogue(v, g.depth, g.main));
    GrowsSelf(g3);
    EndGrows(g3, g3, Ret);
    ContainsEarlier(p, g3, End(g3, Ret));
    ContainsEarlier(p, g2, g3);
    ContainsEarlier(p, g1, g2);
  }

  lemma SimJump(p: Program, w: World, base: nat, n: nat, g: Gen, s: Stmt, cont: bool, fuel: nat, t: Trace)
    requires Prepared(g) && s == (if cont then Continue else Break) && Room(base, g) && Within(base, g, s)
    requires LowerJump(n, g, cont).err.None? && Contains(p, LowerJump(n, g, cont))
    ensures Lands(p, w, AtEnd(g, t), fuel, g, LowerJump(n, g, cont), Exec(w, s, g.locals, g.depth, fuel, t))
    decreases n, 0, 1
  {
    hide Deferred, Emit, Br, Contains, DefersOk, Room, Within;
    var i := LoopFor(g.loops, cont);
    var l := g.loops[i];
    var g1 := Deferred(n, g, l.defers);
    var pops := Pops(Minus(g.depth, l.depth));
    var g2 := Emit(g1, pops);
    var to := if cont then l.next.value else l.done;
    JumpParts(p, n, g, g1, g2, l.defers, pops, to);
    JumpRoom(base, g, s, cont);
    DeferredRuns(p, w, n, g, l.defers, fuel, t);
    var q := RunAll(w, Suffix(g.defers, l.defers), g.locals, g.depth, fuel, t);
    if q.Done? {
      RunEmit(p, w, g1, pops, q.t);
      BrIs(p, g2, to);
      ReachesStep(p, w, AtEnd(g2, q.t + pops));
      ReachesTransitive(p, w, AtEnd(g, t), AtEnd(g1, q.t), AtEnd(g2, q.t + pops));
      ReachesTransitive(p, w, AtEnd(g, t), AtEnd(g2, q.t + pops), At(to, 0, q.t + pops));
    }
  }

  lemma JumpRoom(base: nat, g: Gen, s: Stmt, cont: bool)
    requires s == (if cont then Continue else Break) && Room(base, g) && Within(base, g, s) && LoopFor(g.loops, cont) >= 0
    ensures Tame(Suffix(g.defers, g.loops[LoopFor(g.loops, cont)].defers))
  {
    var mark := g.loops[LoopFor(g.loops, cont)].defers;
    assert Out(s, if cont then ByContinue else ByBreak);
    if mark <= |g.defers| { assert g.defers[mark..] == g.defers[base..][mark - base..]; }
  }

  lemma JumpParts(p: Program, n: nat, g: Gen, g1: Gen, g2: Gen, mark: nat, pops: Trace, to: nat)
    requires Prepared(g) && g1 == Deferred(n, g, mark) && g2 == Emit(g1, pops)
    requires Br(g2, to).err.None? && Contains(p, Br(g2, to))
    ensures g1.err.None? && g2.err.None? && Contains(p, g1) && Contains(p, g2)
  {
    hide Deferred, Emit, Br;
    DeferredKeeps(n, g, mark);
    GrowsSelf(g1);
    EmitGrows(g1, g1, pops);
    GrowsSelf(g2);
    BrGrows(g2, g2, to);
    ContainsEarlier(p, g2, Br(g2, to));
    ContainsEarlier(p, g1, g2);
  }

  // ----- statement lists and blocks -----

  /** Adding one more deferred statement in front of what the rest of the block leaves. */
  lemma DeferFirst(p: Program, w: World, c: Config, fuel: nat, g: Gen, x: Stmt, g2: Gen, r: Outcome)
    requires Prepared(g) && Ok(g2) && g.defers <= g2.defers
    requires var g1 := g.(defers := g.defers + [x]);
             g1.defers <= g2.defers && LandsAll(p, w, c, fuel, g1, g2, r)
    requires r.Done? && r.how.Normal? ==> r.depth == g.depth
    ensures var q := if r.Timeout? then r else Exec(w, x, r.env, r.depth, fuel, r.t);
            LandsAll(p, w, c, fuel, g, g2, if q.Timeout? then q else r.(t := q.t, env := q.env))
  {
    hide Exec, Contains;
    var g1 := g.(defers := g.defers + [x]);
    if r.Done? && !r.how.Normal? {
      LeavesDefer(p, w, c, fuel, g, x, r);
    } else if r.Timeout? && Runs(p, w, c, fuel) {
    } else {
      var t :| Pending(p, w, c, fuel, g1, g2, r, t);
      var ds := Suffix(g2.defers, |g1.defers|);
      assert Suffix(g2.defers, |g.defers|) == [x] + ds;
      RunAllFirst(w, x, ds, g2.locals, g.depth, fuel, t);
      var q := if r.Timeout? then r else Exec(w, x, r.env, r.depth, fuel, r.t);
      assert Pending(p, w, c, fuel, g, g2, if q.Timeout? then q else r.(t := q.t, env := q.env), t);
    }
  }

  /** The oldest deferred statement runs last. */
  lemma {:induction false} RunAllFirst(w: World, x: Stmt, ds: seq<Stmt>, env: Env, depth: nat, fuel: nat, t: Trace)
    ensures var r := RunAll(w, ds, env, depth, fuel, t);
            var q := if r.Timeout? then r else Exec(w, x, r.env, depth, fuel, r.t);
            && (r.Done? ==> r.how.Normal? && r.depth == depth)
            && RunAll(w, [x] + ds, env, depth, fuel, t) == if q.Timeout? then Timeout else r.(t := q.t, env := q.env)
    decreases |ds|
  {
    hide Exec;
    var all := [x] + ds;
    if ds == [] {
      assert all == [x] && all[..0] == [];
    } else {
      var last := |ds| - 1;
      assert all[|all| - 1] == ds[last] && all[..|all| - 1] == [x] + ds[..last];
      var q := Exec(w, ds[last], env, depth, fuel, t);
      if q.Done? { RunAllFirst(w, x, ds[..last], q.env, depth, fuel, q.t); }
    }
  }

  lemma LeavesDefer(p: Program, w: World, c: Config, fuel: nat, g: Gen, x: Stmt, r: Outcome)
    requires Prepared(g) && r.Done? && !r.how.Normal?
    requires Leaves(p, w, c, fuel, g.(defers := g.defers + [x]), r)
    ensures var q := Exec(w, x, r.env, r.depth, fuel, r.t);
            if q.Timeout? then Runs(p, w, c, fuel) else Leaves(p, w, c, fuel, g, r.(t := q.t, env := q.env))
  {
    hide Exec, RunAll, Epilogue, Pops;
    var g1 := g.(defers := g.defers + [x]);
    match r.how
    case Returned(_) =>
      DeferLast(w, g.defers, x, 0, r.env, r.depth, fuel, r.t);
      assert Suffix(g.defers, 0) == g.defers && Suffix(g1.defers, 0) == g1.defers;
    case Normal =>
    case Broke =>
      var i := LoopFor(g.loops, false);
      assert g.loops[i] in g.loops;
      DeferLast(w, g.defers, x, g.loops[i].defers, r.env, r.depth, fuel, r.t);
    case Continued =>
      var i := LoopFor(g.loops, true);
      assert g.loops[i] in g.loops;
      DeferLast(w, g.defers, x, g.loops[i].defers, r.env, r.depth, fuel, r.t);
  }

  /** The newest deferred statement runs first. */
  lemma DeferLast(w: World, ds: seq<Stmt>, x: Stmt, m: nat, env: Env, depth: nat, fuel: nat, t: Trace)
    requires m <= |ds|
    ensures var q := Exec(w, x, env, depth, fuel, t);
            && RunAll(w, Suffix(ds + [x], m), env, depth, fuel, t)
               == (if q.Timeout? then Timeout else RunAll(w, Suffix(ds, m), q.env, depth, fuel, q.t))
  {
    hide Exec;
    var a := Suffix(ds, m);
    assert Suffix(ds + [x], m) == a + [x];
    assert (a + [x])[..|a|] == a;
  }

  lemma SimBody(p: Program, w: World, base: nat, n: nat, g: Gen, ss: seq<Stmt>, fuel: nat, t: Trace)
    requires Prepared(g) && Room(base, g) && AllWithin(base, g, ss) && forall x <- ss :: Shape(x)
    requires LowerAll(n, g, ss).err.None? && Contains(p, LowerAll(n, g, ss))
    ensures LandsAll(p, w, AtEnd(g, t), fuel, g, LowerAll(n, g, ss), ExecBody(w, ss, g.locals, g.depth, fuel, t))
    decreases n, 1, ss, 2
  {
    hide Contains, Exec, Leaves, DefersOk, LoopsOk, Shape, Lower, Room, Within, AllWithin, Recurs;
    var g2 := LowerAll(n, g, ss);
    if ss == [] {
      ReachesSelf(p, w, AtEnd(g, t));
      assert Suffix(g.defers, |g.defers|) == [];
      assert Pending(p, w, AtEnd(g, t), fuel, g, g, Done(Normal, g.locals, g.depth, t), t);
    } else {
      var s, rest := ss[0], ss[1..];
      assert s in ss;
      var g1 := Lower(n, g, s);
      LowerKeepsFirst(p, n, g, s, rest);
      FirstWithin(base, g, ss);
      assert forall x <- rest :: x in ss;
      if s.Defer? {
        WithinRecurs(base, g, s);
        DeferUnfolds(n, g, s);
        assert AtEnd(g1, t) == AtEnd(g, t);
        RestWithin(base, g, g1, ss);
        DeferRoom(base, g, g1, s);
        SimBody(p, w, base, n, g1, rest, fuel, t);
        var r := ExecBody(w, rest, g.locals, g.depth, fuel, t);
        BodyDepthKept(w, rest, g.locals, g.depth, fuel, t);
        DeferFirst(p, w, AtEnd(g, t), fuel, g, s.s, g2, r);
      } else {
        Sim(p, w, base, n, g, s, fuel, t);
        var r := Exec(w, s, g.locals, g.depth, fuel, t);
        if r.Done? && r.how.Normal? {
          OutEnds(w, s, g.locals, g.depth, fuel, t);
          NormalSettles(w, s, g.locals, g.depth, fuel, t);
          ReadyIn(g, g1);
          RestWithin(base, g, g1, ss);
          StillWithin(base, g, g1, s) by { FirstWithin(base, g, ss); }
          SimBody(p, w, base, n, g1, rest, fuel, r.t);
          BodyFrom(p, w, g, g1, g2, fuel, t, r.t, ExecBody(w, rest, g1.locals, g1.depth, fuel, r.t));
        }
      }
    }
  }

  lemma WithinRecurs(base: nat, g: Gen, s: Stmt)
    requires Within(base, g, s)
    ensures !Recurs(s)
  {
  }

  lemma NormalSettles(w: World, s: Stmt, env: Env, depth: nat, fuel: nat, t: Trace)
    requires !s.Defer? && Exec(w, s, env, depth, fuel, t).Done? && Exec(w, s, env, depth, fuel, t).how.Normal?
    ensures Settles(s)
  {
  }

  lemma LowerKeepsFirst(p: Program, n: nat, g: Gen, s: Stmt, rest: seq<Stmt>)
    requires Prepared(g) && Shape(s) && forall x <- rest :: Shape(x)
    requires LowerAll(n, Lower(n, g, s), rest).err.None? && Contains(p, LowerAll(n, Lower(n, g, s), rest))
    ensures var g1 := Lower(n, g, s);
            && Keeps(g, g1) && g1.err.None? && Contains(p, g1) && (Settles(s) ==> g1.defers == g.defers)
            && g1.defers <= LowerAll(n, g1, rest).defers && DefersOk(g1.defers)
  {
    hide Lower, LowerAll, Shape, DefersOk;
    var g1 := Lower(n, g, s);
    LowerKeeps(n, g, s);
    LowerAllKeeps(n, g1, rest);
    ContainsEarlier(p, g1, LowerAll(n, g1, rest));
  }

  lemma DeferUnfolds(n: nat, g: Gen, s: Stmt)
    requires Prepared(g) && s.Defer? && Shape(s) && !Recurs(s)
    ensures Lower(n, g, s) == g.(defers := g.defers + [s.s])
    ensures Prepared(Lower(n, g, s))
  {
  }

  /** The rest of a list, seen from its start. */
  lemma BodyFrom(p: Program, w: World, g: Gen, g1: Gen, g2: Gen, fuel: nat, t: Trace, t1: Trace, r: Outcome)
    requires Ok(g) && Ok(g1) && Ok(g2) && Reaches(p, w, AtEnd(g, t), AtEnd(g1, t1))
    requires g1.defers == g.defers && g1.loops == g.loops && g1.depth == g.depth && g1.main == g.main
    requires LandsAll(p, w, AtEnd(g1, t1), fuel, g1, g2, r)
    ensures LandsAll(p, w, AtEnd(g, t), fuel, g, g2, r)
  {
    hide Leaves, RunAll;
    LandsAllFrom(p, w, AtEnd(g, t), AtEnd(g1, t1), fuel, g1, g2, r);
    SameLeaves(p, w, AtEnd(g, t), fuel, g1, g, r);
    if !(r.Done? && !r.how.Normal?) && !(r.Timeout? && Runs(p, w, AtEnd(g, t), fuel)) {
      var u :| Pending(p, w, AtEnd(g, t), fuel, g1, g2, r, u);
      assert Pending(p, w, AtEnd(g, t), fuel, g, g2, r, u);
    }
  }

  lemma SimBlock(p: Program, w: World, base: nat, n: nat, g: Gen, s: Stmt, fuel: nat, t: Trace)
    requires Prepared(g) && s.Block? && Shape(s) && Room(base, g) && Within(base, g, s)
    requires LowerBlock(n, g, s.stmts, s.own).err.None? && Contains(p, LowerBlock(n, g, s.stmts, s.own))
    ensures Lands(p, w, AtEnd(g, t), fuel, g, LowerBlock(n, g, s.stmts, s.own), Exec(w, s, g.locals, g.depth, fuel, t))
    decreases n, 1, s, 0
  {
    hide Contains, Leaves, DefersOk, LoopsOk, Shape, Room, Within, AllWithin, LowerAll, Emit, Deferred, Leave, ExecBody;
    var g1 := if s.own then Emit(g, [Push]).(depth := g.depth + 1) else g;
    var t1 := if s.own then t + [Push] else t;
    var g2 := LowerAll(n, g1, s.stmts);
    var r := ExecBody(w, s.stmts, g1.locals, g1.depth, fuel, t1);
    BlockParts(p, n, g, g1, g2, s);
    BlockEnter(p, w, g, g1, s, t);
    BlockWithin(base, g, g1, s);
    SimBody(p, w, base, n, g1, s.stmts, fuel, t1);
    LandsAllFrom(p, w, AtEnd(g, t), AtEnd(g1, t1), fuel, g1, g2, r);
    SameLeaves(p, w, AtEnd(g, t), fuel, g1, g, r);
    if r.Timeout? && Runs(p, w, AtEnd(g, t), fuel) {
    } else if r.Timeout? || r.how.Normal? {
      var u :| Pending(p, w, AtEnd(g, t), fuel, g1, g2, r, u);
      AllWithinRecurs(base, g1, s.stmts);
      RegistersTame(n, g1, s.stmts);
      BlockReady(g, g1, g2);
      DeferredRuns(p, w, n, g2, |g.defers|, fuel, u);
      BlockExit(p, w, n, g, g1, g2, s, fuel, AtEnd(g, t), u, r);
    }
  }

  lemma BlockEnter(p: Program, w: World, g: Gen, g1: Gen, s: Stmt, t: Trace)
    requires Prepared(g) && s.Block? && g1 == (if s.own then Emit(g, [Push]).(depth := g.depth + 1) else g)
    requires Contains(p, g1) && g1.err.None?
    ensures Reaches(p, w, AtEnd(g, t), AtEnd(g1, if s.own then t + [Push] else t)) && Prepared(g1)
    ensures g1.defers == g.defers && g1.loops == g.loops && g1.main == g.main && g1.locals == g.locals
  {
    hide Emit;
    GrowsSelf(g);
    EmitGrows(g, g, [Push]);
    if s.own {
      BlocksOnly(p, Emit(g, [Push]), g1);
      RunEmit(p, w, g, [Push], t);
    } else {
      ReachesSelf(p, w, AtEnd(g, t));
    }
  }

  lemma BlockParts(p: Program, n: nat, g: Gen, g1: Gen, g2: Gen, s: Stmt)
    requires Prepared(g) && s.Block? && Shape(s)
    requires g1 == (if s.own then Emit(g, [Push]).(depth := g.depth + 1) else g) && g2 == LowerAll(n, g1, s.stmts)
    requires LowerBlock(n, g, s.stmts, s.own).err.None? && Contains(p, LowerBlock(n, g, s.stmts, s.own))
    ensures g1.err.None? && g2.err.None? && Contains(p, g1) && Contains(p, g2) && Keeps(g1, g2)
    ensures DefersOk(g2.defers) && g1.defers == g.defers && g1.locals == g.locals && g1.loops == g.loops
    ensures forall x <- s.stmts :: Shape(x)
    ensures !Terminated(g2) ==>
              var q := Deferred(n, g2, |g.defers|);
              && q.err.None? && Contains(p, q) && Keeps(g2, q)
              && (s.own ==> Emit(q, [Pop]).err.None? && Contains(p, Emit(q, [Pop])))
              && LowerBlock(n, g, s.stmts, s.own) == Leave(g, if s.own then Emit(q, [Pop]) else q)
  {
    hide Emit, LowerAll, Deferred, Keeps, Extends;
    BlockGrowth(n, g, g1, g2, s);
    var q := Deferred(n, g2, |g.defers|);
    var g3 := if Closed(g2) then g2 else if s.own then Emit(q, [Pop]) else q;
    BlocksOnly(p, g3, LowerBlock(n, g, s.stmts, s.own));
    if !Closed(g2) {
      GrowsSelf(q);
      EmitGrows(q, q, [Pop]);
      ContainsEarlier(p, q, g3);
      ContainsEarlier(p, g2, q);
    }
    ContainsEarlier(p, g1, g2);
  }

  lemma BlockGrowth(n: nat, g: Gen, g1: Gen, g2: Gen, s: Stmt)
    requires Prepared(g) && s.Block? && Shape(s)
    requires g1 == (if s.own then Emit(g, [Push]).(depth := g.depth + 1) else g) && g2 == LowerAll(n, g1, s.stmts)
    ensures Keeps(g1, g2) && Grows(g1, g2) && DefersOk(g2.defers)
    ensures g1.defers == g.defers && g1.locals == g.locals && g1.loops == g.loops && g1.main == g.main
    ensures forall x <- s.stmts :: Shape(x)
    ensures Keeps(g2, Deferred(n, g2, |g.defers|)) && Grows(g2, Deferred(n, g2, |g.defers|))
  {
    hide Emit, LowerAll, Deferred, Grows;
    GrowsSelf(g);
    EmitGrows(g, g, [Push]);
    LowerAllKeeps(n, g1, s.stmts);
    DeferredKeeps(n, g2, |g.defers|);
  }

  lemma AllWithinRecurs(base: nat, g: Gen, ss: seq<Stmt>)
    requires AllWithin(base, g, ss)
    ensures !RecursAll(ss)
  {
  }

  lemma BlockReady(g: Gen, g1: Gen, g2: Gen)
    requires Prepared(g) && Prepared(g1) && Keeps(g1, g2) && g1.loops == g.loops && DefersOk(g2.defers)
    requires g2.err.None? && !Terminated(g2)
    ensures Prepared(g2)
  {
    hide DefersOk, Wild;
  }

  lemma BlockExit(p: Program, w: World, n: nat, g: Gen, g1: Gen, g2: Gen, s: Stmt, fuel: nat, c: Config, u: Trace, r: Outcome)
    requires Prepared(g) && s.Block? && Ok(g2) && Pending(p, w, c, fuel, g1, g2, r, u)
    requires Keeps(g1, g2) && g1.depth == (if s.own then g.depth + 1 else g.depth) && g1.defers == g.defers
    requires g1.locals == g.locals
    requires var q := Deferred(n, g2, |g.defers|);
             && q.err.None? && Keeps(g2, q)
             && (s.own ==> Emit(q, [Pop]).err.None? && Contains(p, Emit(q, [Pop])))
             && LowerBlock(n, g, s.stmts, s.own) == Leave(g, if s.own then Emit(q, [Pop]) else q)
             && Expands(p, w, g2, q, Suffix(g2.defers, |g.defers|), fuel, u)
    ensures Lands(p, w, c, fuel, g, LowerBlock(n, g, s.stmts, s.own),
                  if r.Done? && r.how.Normal? then Done(Normal, g.locals, g.depth, if s.own then r.t + [Pop] else r.t) else r)
  {
    hide Emit, Deferred, LowerBlock, RunAll, Contains, Grows;
    var q := Deferred(n, g2, |g.defers|);
    var g3 := if s.own then Emit(q, [Pop]) else q;
    GrowsSelf(q);
    EmitGrows(q, q, [Pop]);
    if r.Timeout? {
      ReachesRuns(p, w, c, AtEnd(g2, u), fuel);
    } else {
      ReachesTransitive(p, w, c, AtEnd(g2, u), AtEnd(q, r.t));
      if s.own {
        RunEmit(p, w, q, [Pop], r.t);
        ReachesTransitive(p, w, c, AtEnd(q, r.t), AtEnd(g3, r.t + [Pop]));
      }
    }
  }

  // ----- branching statements -----

  lemma SimIfArms(p: Program, w: World, base: nat, n: nat, g: Gen, s: Stmt, fuel: nat, t: Trace)
    requires Prepared(g) && s.If? && Shape(s) && Room(base, g) && Within(base, g, s)
    requires Lower(n, g, s).err.None? && Contains(p, Lower(n, g, s))
    ensures Lands(p, w, AtEnd(g, t), fuel, g, Lower(n, g, s), Exec(w, s, g.locals, g.depth, fuel, t))
    decreases n, 1, s, 0
  {
    hide Contains, Leaves, Lower, Br, EmitExpr, DefersOk, LoopsOk, Room, Within;
    var b := |g.blocks|;
    var t1 := t + [Did(g.locals, s.c)];
    var g1, g2 := IfLayout(p, n, g, s);
    IfShape(s);
    IfWithin(base, g, s);
    var r := Exec(w, s, g.locals, g.depth, fuel, t);
    if w(Effects(t1)) != 0 {
      ArmSim(p, w, base, n, g, g1, s.yes, b, b + 2, fuel, t1);
    } else if s.no.Some? {
      ArmSim(p, w, base, n, g, g2, s.no.value, b + 1, b + 2, fuel, t1);
    }
    SimIf(p, w, n, g, s, g1, g2, fuel, t, r);
  }

  /** One arm, simulated from its blank block. */
  lemma ArmSim(p: Program, w: World, base: nat, n: nat, g: Gen, g1: Gen, s: Stmt, b: nat, done: nat, fuel: nat, t: Trace)
    requires Prepared(g) && Ok(g1) && SameScope(g, g1) && g1.err.None? && Blank(g1, b)
    requires Arm(s) && Shape(s) && Room(base, g) && Within(base, g, s)
    requires Br(Lower(n, Position(g1, b), s), done).err.None? && Contains(p, Br(Lower(n, Position(g1, b), s), done))
    ensures Lands(p, w, At(b, 0, t), fuel, Position(g1, b), Lower(n, Position(g1, b), s), Exec(w, s, g.locals, g.depth, fuel, t))
    decreases n, 1, s, 2
  {
    hide Contains, Lower, Br, DefersOk, LoopsOk, Lands, Shape;
    var q := Position(g1, b);
    PositionLater(g1, b);
    BrIs(p, Lower(n, q, s), done);
    ReadyIn(g, q);
    StillWithin(base, g, q, s);
    Sim(p, w, base, n, q, s, fuel, t);
  }

  lemma SimCases(p: Program, w: World, base: nat, n: nat, g: Gen, s: Stmt, fuel: nat, t: Trace)
    requires Prepared(g) && s.Switch? && Shape(s) && Room(base, g) && Within(base, g, s)
    requires LowerSwitch(n, g, s.e, s.cases).err.None? && Contains(p, LowerSwitch(n, g, s.e, s.cases))
    ensures Lands(p, w, AtEnd(g, t), fuel, g, LowerSwitch(n, g, s.e, s.cases), Exec(w, s, g.locals, g.depth, fuel, t))
    decreases n, 1, s, 0
  {
    hide Contains, Leaves, Lower, LowerCases, LowerSwitch, Br, EmitExpr, DefersOk, Room, Within;
    var cases := s.cases;
    var done := |g.blocks|;
    var t1 := t + [Did(g.locals, s.e)];
    var i := Chosen(cases, w(Effects(t1)));
    var g3 := SwitchLayout(p, n, g, s.e, cases);
    var q := Exec(w, s, g.locals, g.depth, fuel, t);
    if i < 0 {
      SimSwitch(p, w, n, g, s.e, cases, g3, g3, fuel, t, q, q);
    } else {
      var gi := CaseLayout(p, n, g3, cases, done + 1, done, i);
      CaseOk(cases, i);
      var body := cases[i].body;
      assert cases[i] in cases && body < cases[i];
      var r := Exec(w, body, g.locals, g.depth, fuel, t1);
      DepthKept(w, body, g.locals, g.depth, fuel, t1);
      var open := g.(loops := g3.loops);
      ReadySwitch(g, open);
      CaseWithin(base, g, open, s, cases[i], |g.blocks|);
      ArmSim(p, w, base, n, open, gi, body, done + 1 + i, done, fuel, t1);
      SimSwitch(p, w, n, g, s.e, cases, g3, gi, fuel, t, r, q);
    }
  }

  lemma ReadySwitch(g: Gen, open: Gen)
    requires Prepared(g) && open == g.(loops := open.loops)
    requires open.loops == g.loops + [Loop(|g.blocks|, None, |g.defers|, g.depth)]
    ensures Prepared(open)
  {
  }

  lemma SimFor(p: Program, w: World, base: nat, n: nat, g: Gen, s: Stmt, fuel: nat, t: Trace)
    requires Prepared(g) && s.For? && Shape(s) && Room(base, g) && Within(base, g, s)
    requires LowerFor(n, g, s).err.None? && Contains(p, LowerFor(n, g, s))
    ensures Lands(p, w, AtEnd(g, t), fuel, g, LowerFor(n, g, s), Exec(w, s, g.locals, g.depth, fuel, t))
    decreases n, 1, s, 0, fuel + 1
  {
    hide Contains, Leaves, Lower, LowerFor, ForHead, ForTail, DefersOk, LoopsOk, ExecLoop, Shape, Room, Within;
    var g0 := if s.init.Some? then Lower(n, g, s.init.value) else g;
    var b := |g0.blocks|;
    InitScope(n, g, s, g0);
    ForLayout(p, n, g, s, g0);
    LowerForKeeps(n, g, s);
    var r0 := if s.init.Some? then Exec(w, s.init.value, g.locals, g.depth, fuel, t) else Done(Normal, g.locals, g.depth, t);
    SimInit(p, w, n, g, s, g0, fuel, t);
    ReachesStep(p, w, AtEnd(g0, r0.t));
    ReachesTransitive(p, w, AtEnd(g, t), AtEnd(g0, r0.t), At(b, 0, r0.t));
    ReadyIn(g, g0);
    StillWithin(base, g, g0, s);
    SimLoop(p, w, base, n, g, s, g0, fuel, fuel, r0.t);
    var q := ExecLoop(w, s, g0.locals, g.depth, fuel, fuel, r0.t);
    if q.Timeout? {
      ReachesRuns(p, w, AtEnd(g, t), At(b, 0, r0.t), fuel);
    } else {
      ArrivesFrom(p, w, AtEnd(g, t), At(b, 0, r0.t), fuel, g0, q, b + 3);
      SameLeaves(p, w, AtEnd(g, t), fuel, g0, g, q);
    }
  }

  /** The initializer of a loop is straight-line code. */
  lemma SimInit(p: Program, w: World, n: nat, g: Gen, s: Stmt, g0: Gen, fuel: nat, t: Trace)
    requires Prepared(g) && s.For? && Shape(s)
    requires g0 == (if s.init.Some? then Lower(n, g, s.init.value) else g) && g0.err.None? && Contains(p, g0)
    ensures var r := if s.init.Some? then Exec(w, s.init.value, g.locals, g.depth, fuel, t) else Done(Normal, g.locals, g.depth, t);
            && r.Done? && r.how.Normal? && r.depth == g.depth && r.env == g0.locals && !Terminated(g0)
            && Reaches(p, w, AtEnd(g, t), AtEnd(g0, r.t))
  {
    hide Lower, Contains, DefersOk, LoopsOk;
    if s.init.None? {
      ReachesSelf(p, w, AtEnd(g, t));
    } else if s.init.value.Let? {
      SimLet(p, w, n, g, s.init.value, fuel, t);
    } else if s.init.value.Assign? {
      SimAssign(p, w, n, g, s.init.value, fuel, t);
    } else {
      SimEval(p, w, n, g, s.init.value, fuel, t);
    }
  }

  lemma SimLoop(p: Program, w: World, base: nat, n: nat, g: Gen, s: Stmt, g0: Gen, fuel: nat, rounds: nat, t: Trace)
    requires Prepared(g) && s.For? && Shape(s) && Prepared(g0) && ForLaid(p, n, g, s, g0) && rounds <= fuel
    requires Room(base, g0) && Within(base, g0, s)
    ensures LoopArrives(p, w, At(|g0.blocks|, 0, t), fuel, rounds, g0,
                        ExecLoop(w, s, g0.locals, g0.depth, fuel, rounds, t), |g0.blocks| + 3)
    decreases n, 1, s, 0, rounds
  {
    hide Contains, Leaves, Lower, LowerFor, ForHead, DefersOk, LoopsOk, Exec, Shape, Room, Within;
    if rounds > 0 {
      var b := |g0.blocks|;
      var inner := ForHead(g0, s);
      var t1 := t + CondCode(g0, s);
      var q := ExecLoop(w, s, g0.locals, g0.depth, fuel, rounds, t);
      var r := Exec(w, s.body, g0.locals, g0.depth, fuel, t1);
      assert s.cond.None? ==> t1 == t;
      if !(s.cond.Some? && w(Effects(t1)) == 0) {
        ForShape(s);
        InnerReady(g0, inner, s, b);
        InnerWithin(base, g0, inner, s, b + 3, b + 2);
        Sim(p, w, base, n, inner, s.body, fuel, t1);
        DepthKept(w, s.body, g0.locals, g0.depth, fuel, t1);
        BodyArrives(p, w, n, g, s, g0, fuel, t1, r);
        if r.Done? && !r.how.Broke? && !r.how.Returned? {
          var t2 := r.t + if r.how.Normal? then [] else Pops(r.depth - g0.depth);
          assert s.post.None? ==> t2 + PostCode(g0, s) == t2;
          SimLoop(p, w, base, n, g, s, g0, fuel, rounds - 1, t2 + PostCode(g0, s));
        }
      }
      LoopStep(p, w, n, g, s, g0, fuel, rounds, t, t1, r, q);
    }
  }

  lemma InnerReady(g0: Gen, inner: Gen, s: Stmt, b: nat)
    requires Prepared(g0) && s.For? && Ok(inner) && inner.err.None? && inner.cur == b + 1 && Blank(inner, b + 1)
    requires inner.loops == g0.loops + [Loop(b + 3, Some(b + 2), |g0.defers|, g0.depth)]
    requires SameScope(g0, inner.(loops := g0.loops))
    ensures Prepared(inner)
  {
  }

  lemma Sim(p: Program, w: World, base: nat, n: nat, g: Gen, s: Stmt, fuel: nat, t: Trace)
    requires Prepared(g) && Shape(s) && !s.Defer? && Room(base, g) && Within(base, g, s)
    requires Lower(n, g, s).err.None? && Contains(p, Lower(n, g, s))
    ensures Lands(p, w, AtEnd(g, t), fuel, g, Lower(n, g, s), Exec(w, s, g.locals, g.depth, fuel, t))
    decreases n, 1, s, 1
  {
    LowerUnfolds(n, g, s);
    hide Lower, Lands, Exec, Contains, Prepared, Shape, Room, Within, LowerBlock, LowerFor, LowerSwitch, LowerReturn, LowerJump;
    match s
    case Block(_, _) => SimBlock(p, w, base, n, g, s, fuel, t);
    case Let(_, _) => SimLet(p, w, n, g, s, fuel, t);
    case Assign(_, _) => SimAssign(p, w, n, g, s, fuel, t);
    case Eval(_) => SimEval(p, w, n, g, s, fuel, t);
    case Return(v) =>
      AllTame(base, g, s);
      SimReturn(p, w, n, g, v, fuel, t);
    case If(_, _, _) => SimIfArms(p, w, base, n, g, s, fuel, t);
    case For(_, _, _, _) => SimFor(p, w, base, n, g, s, fuel, t);
    case Switch(_, _) => SimCases(p, w, base, n, g, s, fuel, t);
    case Break => SimJump(p, w, base, n, g, s, false, fuel, t);
    case Continue => SimJump(p, w, base, n, g, s, true, fuel, t);
  }

  lemma AllTame(base: nat, g: Gen, s: Stmt)
    requires s.Return? && Room(base, g) && Within(base, g, s)
    ensures Tame(g.defers)
  {
    assert Out(s, ByReturn) && g.defers[0..] == g.defers;
  }

  lemma LowerUnfolds(n: nat, g: Gen, s: Stmt)
    requires Prepared(g)
    ensures s.Block? ==> Lower(n, g, s) == LowerBlock(n, g, s.stmts, s.own)
    ensures s.Return? ==> Lower(n, g, s) == LowerReturn(n, g, s.value)
    ensures s.For? ==> Lower(n, g, s) == LowerFor(n, g, s)
    ensures s.Switch? ==> Lower(n, g, s) == LowerSwitch(n, g, s.e, s.cases)
    ensures s.Break? ==> Lower(n, g, s) == LowerJump(n, g, false)
    ensures s.Continue? ==> Lower(n, g, s) == LowerJump(n, g, true)
  {
    hide LowerBlock, LowerFor, LowerSwitch, LowerReturn, LowerJump, Emit, EmitExpr, DefersOk, LoopsOk;
  }

  // ----- whole functions -----

  const FROM_START := At(0, 0, [])

  /** One source run, one machine run. */
  lemma FunctionSimulated(w: World, n: nat, body: Stmt, params: Env, main: bool, fuel: nat)
    requires body.Block? && Shape(body) && (Stray(body) ==> !Recurs(body)) && LowerFunction(n, body, params, main).err.None?
    ensures var p := LowerFunction(n, body, params, main).blocks;
            match RunFunction(w, body, params, main, fuel)
            case Running => Runs(p, w, FROM_START, fuel)
            case Finished(t) => Reaches(p, w, FROM_START, Halted(t))
  {
    hide Lower, Exec, Emit, Epilogue, Shape;
    if !Stray(body) { SuccessIsTame(n, body, params, main); }
    var p := LowerFunction(n, body, params, main).blocks;
    var g0 := Start(params, main);
    var g1 := Emit(g0, Entry(main));
    var g2 := Lower(n, g1, body);
    var r := Exec(w, body, params, 0, fuel, Entry(main));
    EntryRuns(p, w, n, g0, g1, g2, body, params, main);
    StartWithin(g1, body);
    Sim(p, w, 0, n, g1, body, fuel, Entry(main));
    LandsFrom(p, w, FROM_START, AtEnd(g1, Entry(main)), fuel, g1, g2, r);
    assert r.Done? ==> r.how.Normal? || r.how.Returned?;
    if r.Done? && r.how.Normal? {
      var g3 := Emit(g2, Epilogue(None, g2.depth, main));
      FallsOff(p, w, g2, g3, r.t, Epilogue(None, g2.depth, main));
    }
  }

  lemma StartWithin(g: Gen, body: Stmt)
    requires g.defers == [] && !Recurs(body)
    ensures Room(0, g) && Within(0, g, body)
  {
  }

  lemma EntryRuns(p: Program, w: World, n: nat, g0: Gen, g1: Gen, g2: Gen, body: Stmt, params: Env, main: bool)
    requires body.Block? && Shape(body) && !Recurs(body) && g0 == Start(params, main) && g1 == Emit(g0, Entry(main))
    requires g2 == Lower(n, g1, body) && LowerFunction(n, body, params, main).err.None?
    requires p == LowerFunction(n, body, params, main).blocks
    ensures Reaches(p, w, FROM_START, AtEnd(g1, Entry(main))) && Prepared(g1) && Contains(p, g2) && g2.err.None?
    ensures g1.locals == params && g1.depth == 0 && g1.main == main
    ensures g1.defers == [] && g1.loops == [] && g2.depth == 0
    ensures !Closed(g2) ==>
              var g3 := Emit(g2, Epilogue(None, g2.depth, main));
              g3.err.None? && End(g3, Ret).err.None? && Contains(p, g3) && Contains(p, End(g3, Ret))
  {
    hide Lower, Shape, Epilogue;
    LowerKeeps(n, g1, body);
    var final := LowerFunction(n, body, params, main);
    assert Contains(p, final);
    if !Closed(g2) {
      var g3 := Emit(g2, Epilogue(None, g2.depth, main));
      GrowsSelf(g2);
      EmitGrows(g2, g2, Epilogue(None, g2.depth, main));
      GrowsSelf(g3);
      EndGrows(g3, g3, Ret);
      ContainsEarlier(p, g3, final);
      ContainsEarlier(p, g2, g3);
    }
    ContainsEarlier(p, g1, g2);
    RunEmit(p, w, g0, Entry(main), []);
    assert [] + Entry(main) == Entry(main);
  }

  lemma FallsOff(p: Program, w: World, g2: Gen, g3: Gen, t: Trace, epilogue: Trace)
    requires Ok(g2) && g3 == Emit(g2, epilogue) && g3.err.None? && Contains(p, g3)
    requires Reaches(p, w, FROM_START, AtEnd(g2, t)) && End(g3, Ret).err.None? && Contains(p, End(g3, Ret))
    ensures Reaches(p, w, FROM_START, Halted(t + epilogue))
  {
    RunEmit(p, w, g2, epilogue, t);
    Ended(p, g3, Ret);
    ReachesTransitive(p, w, FROM_START, AtEnd(g2, t), AtEnd(g3, t + epilogue));
    ReachesStep(p, w, AtEnd(g3, t + epilogue));
    ReachesTransitive(p, w, FROM_START, AtEnd(g3, t + epilogue), Halted(t + epilogue));
  }

  ghost predicate Halts(p: Program, w: World, t: Trace) { Reaches(p, w, FROM_START, Halted(t)) }

  ghost predicate Ends(w: World, body: Stmt, params: Env, main: bool, t: Trace) {
    exists fuel :: RunFunction(w, body, params, main, fuel) == Finished(t)
  }

  /** Lowering preserves meaning, in both directions and for every outcome of the
      conditions: the emitted blocks halt with a trace exactly when the source run ends
      with it, and they never fall off a block. */
  lemma LoweringPreserves(w: World, n: nat, body: Stmt, params: Env, main: bool)
    requires body.Block? && Shape(body) && (Stray(body) ==> !Recurs(body)) && LowerFunction(n, body, params, main).err.None?
    ensures var p := LowerFunction(n, body, params, main).blocks;
            && (forall t :: Halts(p, w, t) <==> Ends(w, body, params, main, t))
            && (forall k :: Steps(p, w, FROM_START, k) != Stuck)
  {
    hide LowerFunction, RunFunction, Shape;
    var p := LowerFunction(n, body, params, main).blocks;
    forall k: nat | !Steps(p, w, FROM_START, k).At?
      ensures exists t :: RunFunction(w, body, params, main, k) == Finished(t) && Steps(p, w, FROM_START, k) == Halted(t)
    {
      FunctionSimulated(w, n, body, params, main, k);
      var r := RunFunction(w, body, params, main, k);
      assert r.Finished?;
      var j: nat :| Steps(p, w, FROM_START, j) == Halted(r.t);
      HaltsOnce(p, w, FROM_START, j, k);
    }
    forall t
      ensures Halts(p, w, t) <==> Ends(w, body, params, main, t)
    {
      if Halts(p, w, t) {
        var k: nat :| Steps(p, w, FROM_START, k) == Halted(t);
      }
      if Ends(w, body, params, main, t) {
        var fuel: nat :| RunFunction(w, body, params, main, fuel) == Finished(t);
        FunctionSimulated(w, n, body, params, main, fuel);
      }
    }
  }
}
