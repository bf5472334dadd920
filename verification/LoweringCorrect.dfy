/** The emitted blocks do what the source says: same trace, same termination. */
module LoweringCorrect {
  import opened Wrappers
  import opened Syntax
  import opened SourceSemantics
  import opened BasicBlocks
  import opened Lowering
  import opened WaysOut
  import opened LoweringGrowth

  /** The finished program still has everything emitted so far. */
  ghost predicate Contains(p: Program, g: Gen) {
    Ok(g) && |g.blocks| <= |p| && forall b :: 0 <= b < |g.blocks| ==> Extends(g.blocks[b], p[b])
  }

  /** Where the machine stands when everything emitted so far has run. */
  function AtEnd(g: Gen, t: Trace): Config
    requires Ok(g)
  {
    At(g.cur, |g.blocks[g.cur].code|, t)
  }

  lemma ContainsEarlier(p: Program, g: Gen, g': Gen)
    requires Grows(g, g') && Contains(p, g')
    ensures Contains(p, g)
  {
    forall b | 0 <= b < |g.blocks|
      ensures Extends(g.blocks[b], p[b])
    {
      assert Extends(g'.blocks[b], p[b]);
      if b != g.cur { assert g'.blocks[b] == g.blocks[b]; }
    }
  }

  // ----- outcomes -----

  /** Deferred statements, newest first, from where the block was left. */
  function RunAll(w: World, ds: seq<Stmt>, env: Env, depth: nat, fuel: nat, t: Trace): Outcome
    decreases |ds|
  {
    if ds == [] then Done(Normal, env, depth, t)
    else
      var q := Exec(w, ds[|ds| - 1], env, depth, fuel, t);
      if q.Timeout? then Timeout else RunAll(w, ds[..|ds| - 1], q.env, depth, fuel, q.t)
  }

  function Suffix(ds: seq<Stmt>, mark: nat): seq<Stmt> { if mark <= |ds| then ds[mark..] else [] }

  /** A jump runs the defers it passes, pops the frames it leaves, and arrives. */
  ghost predicate Jumps(p: Program, w: World, c: Config, fuel: nat, ds: seq<Stmt>, r: Outcome, block: nat, depth: nat)
    requires r.Done?
  {
    var q := RunAll(w, ds, r.env, r.depth, fuel, r.t);
    if q.Timeout? then Runs(p, w, c, fuel)
    else Reaches(p, w, c, At(block, 0, q.t + Pops(Minus(r.depth, depth))))
  }

  ghost predicate Exits(p: Program, w: World, c: Config, fuel: nat, ds: seq<Stmt>, main: bool, r: Outcome)
    requires r.Done? && r.how.Returned?
  {
    var q := RunAll(w, ds, r.env, r.depth, fuel, r.t);
    if q.Timeout? then Runs(p, w, c, fuel)
    else Reaches(p, w, c, Halted(q.t + Epilogue(r.how.value, r.depth, main)))
  }

  /** Leaving early: `g` is the state in which the statement was lowered. */
  ghost predicate Leaves(p: Program, w: World, c: Config, fuel: nat, g: Gen, r: Outcome)
    requires r.Done? && !r.how.Normal?
  {
    match r.how
    case Returned(_) => Exits(p, w, c, fuel, g.defers, g.main, r)
    case Broke =>
      var i := LoopFor(g.loops, false);
      i >= 0 && Jumps(p, w, c, fuel, Suffix(g.defers, g.loops[i].defers), r, g.loops[i].done, g.loops[i].depth)
    case Continued =>
      var i := LoopFor(g.loops, true);
      i >= 0 && Jumps(p, w, c, fuel, Suffix(g.defers, g.loops[i].defers), r, g.loops[i].next.value, g.loops[i].depth)
  }

  ghost predicate Lands(p: Program, w: World, c: Config, fuel: nat, g: Gen, g': Gen, r: Outcome)
    requires Ok(g')
  {
    match r
    case Timeout => Runs(p, w, c, fuel)
    case Done(Normal, env, d, t) =>
      !Terminated(g') && env == g'.locals && d == g.depth && Reaches(p, w, c, AtEnd(g', t))
    case Done(_, _, _, _) => Leaves(p, w, c, fuel, g, r)
  }

  /** A statement list may stop with its own defers still to run. */
  ghost predicate Pending(p: Program, w: World, c: Config, fuel: nat, g: Gen, g': Gen, r: Outcome, t: Trace)
    requires Ok(g')
  {
    && !Terminated(g') && Reaches(p, w, c, AtEnd(g', t))
    && RunAll(w, Suffix(g'.defers, |g.defers|), g'.locals, g.depth, fuel, t) == r
  }

  ghost predicate LandsAll(p: Program, w: World, c: Config, fuel: nat, g: Gen, g': Gen, r: Outcome)
    requires Ok(g')
  {
    if r.Done? && !r.how.Normal? then Leaves(p, w, c, fuel, g, r)
    else (r.Timeout? && Runs(p, w, c, fuel)) || exists t :: Pending(p, w, c, fuel, g, g', r, t)
  }

  /** Loops were entered with no more defers than there are now. */
  ghost predicate LoopsOk(g: Gen) { forall l <- g.loops :: l.defers <= |g.defers| }

  /** What a state must satisfy for the next statement to be lowered into it. */
  ghost predicate Prepared(g: Gen) { Ok(g) && !Closed(g) && DefersOk(g.defers) && LoopsOk(g) }

  // ----- coming from further back -----

  lemma LeavesFrom(p: Program, w: World, c: Config, d: Config, fuel: nat, g: Gen, r: Outcome)
    requires Reaches(p, w, c, d) && r.Done? && !r.how.Normal? && Leaves(p, w, d, fuel, g, r)
    ensures Leaves(p, w, c, fuel, g, r)
  {
    forall e | Reaches(p, w, d, e)
      ensures Reaches(p, w, c, e)
    {
      ReachesTransitive(p, w, c, d, e);
    }
    if Runs(p, w, d, fuel) { ReachesRuns(p, w, c, d, fuel); }
  }

  lemma LandsFrom(p: Program, w: World, c: Config, d: Config, fuel: nat, g: Gen, g': Gen, r: Outcome)
    requires Ok(g') && Reaches(p, w, c, d) && Lands(p, w, d, fuel, g, g', r)
    ensures Lands(p, w, c, fuel, g, g', r)
  {
    if r.Timeout? {
      ReachesRuns(p, w, c, d, fuel);
    } else if r.how.Normal? {
      ReachesTransitive(p, w, c, d, AtEnd(g', r.t));
    } else {
      LeavesFrom(p, w, c, d, fuel, g, r);
    }
  }

  lemma LandsAllFrom(p: Program, w: World, c: Config, d: Config, fuel: nat, g: Gen, g': Gen, r: Outcome)
    requires Ok(g') && Reaches(p, w, c, d) && LandsAll(p, w, d, fuel, g, g', r)
    ensures LandsAll(p, w, c, fuel, g, g', r)
  {
    if r.Done? && !r.how.Normal? {
      LeavesFrom(p, w, c, d, fuel, g, r);
    } else if r.Timeout? && Runs(p, w, d, fuel) {
      ReachesRuns(p, w, c, d, fuel);
    } else {
      var t :| Pending(p, w, d, fuel, g, g', r, t);
      ReachesTransitive(p, w, c, d, AtEnd(g', t));
      assert Pending(p, w, c, fuel, g, g', r, t);
    }
  }

  // ----- straight-line code -----

  lemma RunEmit(p: Program, w: World, g: Gen, es: Trace, t: Trace)
    requires Ok(g) && Emit(g, es).err.None? && Contains(p, Emit(g, es))
    ensures Reaches(p, w, AtEnd(g, t), AtEnd(Emit(g, es), t + es))
    ensures Terminated(Emit(g, es)) == Terminated(g)
  {
    var pc := |g.blocks[g.cur].code|;
    if es == [] {
      assert t + es == t;
      ReachesSelf(p, w, AtEnd(g, t));
    } else {
      assert Extends(Emit(g, es).blocks[g.cur], p[g.cur]);
      assert p[g.cur].code[pc..pc + |es|] == es;
      ReachesAlong(p, w, g.cur, pc, es, t);
    }
  }

  lemma RunEmitExpr(p: Program, w: World, g: Gen, e: Expr, t: Trace)
    requires Ok(g) && EmitExpr(g, e).err.None? && Contains(p, EmitExpr(g, e))
    ensures Reaches(p, w, AtEnd(g, t), AtEnd(EmitExpr(g, e), t + [Did(g.locals, e)]))
    ensures Terminated(EmitExpr(g, e)) == Terminated(g)
  {
    RunEmit(p, w, g, [Did(g.locals, e)], t);
  }

  /** Closing a block fixes what the program has there. */
  lemma Ended(p: Program, g: Gen, end: Terminator)
    requires Ok(g) && end != Open && End(g, end).err.None? && Contains(p, End(g, end))
    ensures g.err.None? && !Terminated(g) && g.cur < |p| && p[g.cur] == g.blocks[g.cur].(end := end)
  {
    assert Extends(End(g, end).blocks[g.cur], p[g.cur]);
  }

  // ----- how runs end -----

  /** A run never surfaces above its own depth, and a normal end is at its own depth. */
  lemma DepthKept(w: World, s: Stmt, env: Env, depth: nat, fuel: nat, t: Trace)
    ensures var r := Exec(w, s, env, depth, fuel, t);
            r.Done? ==> r.depth >= depth && (r.how.Normal? ==> r.depth == depth)
    decreases s, 1
  {
    match s
    case Block(stmts, own) =>
      BodyDepthKept(w, stmts, env, if own then depth + 1 else depth, fuel, if own then t + [Push] else t);
    case If(c, yes, no) =>
      DepthKept(w, yes, env, depth, fuel, t + [Did(env, c)]);
      if no.Some? { DepthKept(w, no.value, env, depth, fuel, t + [Did(env, c)]); }
    case For(init, _, _, _) =>
      if init.Some? { DepthKept(w, init.value, env, depth, fuel, t); }
      var r := if init.Some? then Exec(w, init.value, env, depth, fuel, t) else Done(Normal, env, depth, t);
      if r.Done? && r.how.Normal? { LoopDepthKept(w, s, r.env, depth, fuel, fuel, r.t); }
    case Switch(e, cases) =>
      var t1 := t + [Did(env, e)];
      var i := Chosen(cases, w(Effects(t1)));
      if i >= 0 {
        assert cases[i] in cases && cases[i].body < cases[i];
        DepthKept(w, cases[i].body, env, depth, fuel, t1);
      }
    case _ =>
  }

  lemma BodyDepthKept(w: World, ss: seq<Stmt>, env: Env, depth: nat, fuel: nat, t: Trace)
    ensures var r := ExecBody(w, ss, env, depth, fuel, t);
            r.Done? ==> r.depth >= depth && (r.how.Normal? ==> r.depth == depth)
    decreases ss, 0
  {
    if ss == [] {
    } else if ss[0].Defer? {
      BodyDepthKept(w, ss[1..], env, depth, fuel, t);
    } else {
      DepthKept(w, ss[0], env, depth, fuel, t);
      var r := Exec(w, ss[0], env, depth, fuel, t);
      if r.Done? { BodyDepthKept(w, ss[1..], r.env, depth, fuel, r.t); }
    }
  }

  lemma LoopDepthKept(w: World, s: Stmt, env: Env, depth: nat, fuel: nat, rounds: nat, t: Trace)
    requires s.For?
    ensures var r := ExecLoop(w, s, env, depth, fuel, rounds, t);
            r.Done? ==> (r.how.Normal? || r.how.Returned?) && r.depth >= depth && (r.how.Normal? ==> r.depth == depth)
    decreases s, 0, rounds
  {
    hide Exec, Did, Effects, Pops, Shape;
    if rounds > 0 {
      var t1 := if s.cond.Some? then t + [Did(env, s.cond.value)] else t;
      DepthKept(w, s.body, env, depth, fuel, t1);
      var r := Exec(w, s.body, env, depth, fuel, t1);
      if r.Done? {
        var t2 := r.t + if r.how.Normal? then [] else Pops(r.depth - depth);
        LoopDepthKept(w, s, env, depth, fuel, rounds - 1, if s.post.Some? then t2 + [Did(env, s.post.value)] else t2);
      }
    }
  }

  function KindOf(how: Completion): Kind
    requires !how.Normal?
  {
    match how case Broke => ByBreak case Continued => ByContinue case Returned(_) => ByReturn
  }

  /** A run that leaves early leaves by a way out that the text shows, and it does leave
      where the text never goes on. */
  lemma {:induction false} OutEnds(w: World, s: Stmt, env: Env, depth: nat, fuel: nat, t: Trace)
    requires Shape(s)
    ensures var r := Exec(w, s, env, depth, fuel, t);
            r.Done? ==> (!r.how.Normal? ==> Out(s, KindOf(r.how))) && (Stops(s) ==> !r.how.Normal?)
    decreases s, 1
  {
    match s
    case Block(stmts, own) =>
      BodyOutEnds(w, stmts, env, if own then depth + 1 else depth, fuel, if own then t + [Push] else t);
    case If(c, yes, no) =>
      OutEnds(w, yes, env, depth, fuel, t + [Did(env, c)]);
      if no.Some? { OutEnds(w, no.value, env, depth, fuel, t + [Did(env, c)]); }
    case For(init, _, _, _) =>
      var r := if init.Some? then Exec(w, init.value, env, depth, fuel, t) else Done(Normal, env, depth, t);
      assert Shape(s.body);
      if r.Done? { LoopOutEnds(w, s, r.env, depth, fuel, fuel, r.t); }
    case Switch(e, cases) =>
      var t1 := t + [Did(env, e)];
      var i := Chosen(cases, w(Effects(t1)));
      if i >= 0 {
        assert cases[i] in cases && cases[i].body < cases[i];
        OutEnds(w, cases[i].body, env, depth, fuel, t1);
        DepthKept(w, cases[i].body, env, depth, fuel, t1);
      }
    case _ =>
  }

  lemma {:induction false} BodyOutEnds(w: World, ss: seq<Stmt>, env: Env, depth: nat, fuel: nat, t: Trace)
    requires forall x <- ss :: Shape(x)
    ensures var r := ExecBody(w, ss, env, depth, fuel, t);
            r.Done? ==> (!r.how.Normal? ==> OutAll(ss, KindOf(r.how))) && (StopsAll(ss) ==> !r.how.Normal?)
    decreases ss, 0
  {
    if ss != [] {
      assert ss[0] in ss;
      if ss[0].Defer? {
        BodyOutEnds(w, ss[1..], env, depth, fuel, t);
        assert StopsAll(ss) == StopsAll(ss[1..]) && !Out(ss[0], ByReturn);
      } else {
        OutEnds(w, ss[0], env, depth, fuel, t);
        var r := Exec(w, ss[0], env, depth, fuel, t);
        if r.Done? { BodyOutEnds(w, ss[1..], r.env, depth, fuel, r.t); }
      }
    }
  }

  lemma {:induction false} LoopOutEnds(w: World, s: Stmt, env: Env, depth: nat, fuel: nat, rounds: nat, t: Trace)
    requires s.For? && Shape(s.body)
    ensures var r := ExecLoop(w, s, env, depth, fuel, rounds, t);
            r.Done? && !r.how.Normal? ==> r.how.Returned? && Out(s.body, ByReturn)
    decreases s, 0, rounds
  {
    hide Exec, Did, Effects, Pops, Shape, Out;
    if rounds > 0 {
      var t1 := if s.cond.Some? then t + [Did(env, s.cond.value)] else t;
      OutEnds(w, s.body, env, depth, fuel, t1);
      DepthKept(w, s.body, env, depth, fuel, t1);
      var r := Exec(w, s.body, env, depth, fuel, t1);
      if r.Done? {
        var t2 := r.t + if r.how.Normal? then [] else Pops(r.depth - depth);
        LoopOutEnds(w, s, env, depth, fuel, rounds - 1, if s.post.Some? then t2 + [Did(env, s.post.value)] else t2);
      }
    }
  }
}
