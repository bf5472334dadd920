/** The simulation: one lemma per construct, tied together by a mutual induction on the
    statement, the loop fuel, and how deeply deferred statements expand one another. */
module LoweringSimulation {
  import opened Wrappers
  import opened Syntax
  import opened SourceSemantics
  import opened BasicBlocks
  import opened Lowering
  import opened LoweringGrowth
  import opened LoweringCorrect

  // ----- what the finished program looks like around a construct -----

  /** Blocks only get longer and errors stay, whichever block is current. */
  ghost predicate Later(g: Gen, g': Gen) {
    && Ok(g) && Ok(g') && |g.blocks| <= |g'.blocks|
    && (forall b :: 0 <= b < |g.blocks| ==> Extends(g.blocks[b], g'.blocks[b]))
    && (g.err.Some? ==> g'.err == g.err)
  }

  lemma GrowsLater(g: Gen, g': Gen)
    requires Grows(g, g')
    ensures Later(g, g')
  {
    forall b | 0 <= b < |g.blocks|
      ensures Extends(g.blocks[b], g'.blocks[b])
    {
      if b != g.cur { assert g'.blocks[b] == g.blocks[b]; }
    }
  }

  lemma LaterTransitive(a: Gen, b: Gen, c: Gen)
    requires Later(a, b) && Later(b, c)
    ensures Later(a, c)
  {
    forall i | 0 <= i < |a.blocks|
      ensures Extends(a.blocks[i], c.blocks[i])
    {
      assert Extends(a.blocks[i], b.blocks[i]) && Extends(b.blocks[i], c.blocks[i]);
    }
  }

  lemma ContainsBefore(p: Program, g: Gen, g': Gen)
    requires Later(g, g') && Contains(p, g')
    ensures Contains(p, g)
  {
    forall i | 0 <= i < |g.blocks|
      ensures Extends(g.blocks[i], p[i])
    {
      assert Extends(g.blocks[i], g'.blocks[i]) && Extends(g'.blocks[i], p[i]);
    }
  }

  lemma PositionLater(g: Gen, b: nat)
    requires Ok(g)
    ensures Later(g, Position(g, b)) && SameScope(g, Position(g, b)) && Position(g, b).blocks == g.blocks
  {
  }

  /** The finished program at `b`: exactly `code`, closed by `end`. */
  ghost predicate Is(p: Program, b: nat, code: Trace, end: Terminator) { b < |p| && p[b] == Code(code, end) }

  lemma BrIs(p: Program, g: Gen, to: nat)
    requires Ok(g) && Br(g, to).err.None? && Contains(p, Br(g, to))
    ensures Contains(p, g) && g.err.None?
    ensures !Terminated(g) ==> Is(p, g.cur, g.blocks[g.cur].code, Jump(to))
  {
    GrowsSelf(g);
    BrGrows(g, g, to);
    ContainsEarlier(p, g, Br(g, to));
    if !Closed(g) { Ended(p, g, Jump(to)); }
  }

  /** Arriving at the block where the arms of a construct meet. */
  ghost predicate Arrives(p: Program, w: World, c: Config, fuel: nat, g: Gen, r: Outcome, done: nat) {
    match r
    case Timeout => Runs(p, w, c, fuel)
    case Done(Normal, env, d, t) => env == g.locals && d == g.depth && Reaches(p, w, c, At(done, 0, t))
    case Done(_, _, _, _) => Leaves(p, w, c, fuel, g, r)
  }

  lemma ArrivesFrom(p: Program, w: World, c: Config, d: Config, fuel: nat, g: Gen, r: Outcome, done: nat)
    requires Reaches(p, w, c, d) && Arrives(p, w, d, fuel, g, r, done)
    ensures Arrives(p, w, c, fuel, g, r, done)
  {
    if r.Timeout? {
      ReachesRuns(p, w, c, d, fuel);
    } else if r.how.Normal? {
      ReachesTransitive(p, w, c, d, At(done, 0, r.t));
    } else {
      LeavesFrom(p, w, c, d, fuel, g, r);
    }
  }

  /** An arm lowered into the blank block `b` and joined to `done`. */
  lemma ArmArrives(p: Program, w: World, n: nat, g: Gen, s: Stmt, b: nat, done: nat, fuel: nat, t: Trace, r: Outcome)
    requires Ok(g) && g.err.None? && Blank(g, b) && Arm(s) && Shape(s) && DefersOk(g.defers)
    requires var l := Lower(n, Position(g, b), s);
             && Br(l, done).err.None? && Contains(p, Br(l, done))
             && Lands(p, w, At(b, 0, t), fuel, Position(g, b), l, r)
    ensures Arrives(p, w, At(b, 0, t), fuel, g, r, done)
  {
    hide Leaves, Br;
    var q := Position(g, b);
    var l := Lower(n, q, s);
    LowerKeeps(n, q, s);
    BrIs(p, l, done);
    SameLeaves(p, w, At(b, 0, t), fuel, q, g, r);
    if r.Done? && r.how.Normal? {
      ReachesStep(p, w, AtEnd(l, r.t));
      ReachesTransitive(p, w, At(b, 0, t), AtEnd(l, r.t), At(done, 0, r.t));
    }
  }

  /** Leaving early only depends on the enclosing defers and loops. */
  lemma SameLeaves(p: Program, w: World, c: Config, fuel: nat, g: Gen, g': Gen, r: Outcome)
    requires g.defers == g'.defers && g.loops == g'.loops && g.main == g'.main
    ensures r.Done? && !r.how.Normal? ==> (Leaves(p, w, c, fuel, g, r) <==> Leaves(p, w, c, fuel, g', r))
  {
  }

  // ----- if -----

  ghost predicate IfLaid(p: Program, n: nat, g: Gen, s: Stmt, g1: Gen, g2: Gen)
    requires s.If? && Ok(g) && Ok(g1) && Ok(g2)
  {
    var b := |g.blocks|;
    && EmitExpr(g, s.c).err.None? && Contains(p, EmitExpr(g, s.c))
    && Is(p, g.cur, EmitExpr(g, s.c).blocks[g.cur].code, Cond(true, b, b + 1))
    && SameScope(g, g1) && g1.err.None? && Blank(g1, b)
    && Br(Lower(n, Position(g1, b), s.yes), b + 2).err.None?
    && Contains(p, Br(Lower(n, Position(g1, b), s.yes), b + 2))
    && SameScope(g, g2) && g2.err.None? && Blank(g2, b + 1)
    && (s.no.Some? ==>
          && Br(Lower(n, Position(g2, b + 1), s.no.value), b + 2).err.None?
          && Contains(p, Br(Lower(n, Position(g2, b + 1), s.no.value), b + 2)))
    && (s.no.None? ==> Is(p, b + 1, [], Jump(b + 2)))
    && Lower(n, g, s).cur == b + 2 && Blank(Lower(n, g, s), b + 2) && SameScope(g, Lower(n, g, s))
  }

  /** Lowering one arm into block `b` leaves the other blank blocks blank. */
  lemma ArmLaid(n: nat, g: Gen, s: Stmt, b: nat, done: nat)
    requires Ok(g) && Arm(s) && Shape(s) && DefersOk(g.defers)
    ensures var g' := Br(Lower(n, Position(g, b), s), done);
            && Later(Position(g, b), g') && Later(g, g') && SameScope(g, g') && |g.blocks| <= |g'.blocks|
            && (b < |g.blocks| && g.err.None? ==> forall x :: Blank(g, x) && x != b ==> Blank(g', x))
  {
    hide Lower, Br;
    var q := Position(g, b);
    var l := Lower(n, q, s);
    LowerKeeps(n, q, s);
    BrGrows(q, l, done);
    PositionLater(g, b);
    GrowsLater(q, Br(l, done));
    LaterTransitive(g, q, Br(l, done));
  }

  lemma IfLayout(p: Program, n: nat, g: Gen, s: Stmt) returns (g1: Gen, g2: Gen)
    requires Prepared(g) && s.If? && Shape(s) && Lower(n, g, s).err.None? && Contains(p, Lower(n, g, s))
    ensures Ok(g1) && Ok(g2) && IfLaid(p, n, g, s, g1, g2)
  {
    hide Lower, Br, End, EmitExpr, NewBlocks, Later, Extends, DefersOk, Shape;
    var b := |g.blocks|;
    var a := EmitExpr(g, s.c);
    var nb := NewBlocks(a, 3);
    g1 := End(nb, Cond(true, b, b + 1));
    g2 := Br(Lower(n, Position(g1, b), s.yes), b + 2);
    IfUnfolds(n, g, s);
    IfShape(s);
    IfHead(g, s.c, b);
    ArmLaid(n, g1, s.yes, b, b + 2);
    var g3 := Position(g2, b + 1);
    var m := if s.no.Some? then Lower(n, g3, s.no.value) else g3;
    var g4 := Br(m, b + 2);
    ElseLaid(n, g2, s.no, b + 1, b + 2);
    PositionLater(g4, b + 2);
    LaterErr(g2, g4);
    LaterErr(g1, g2);
    LaterErr(a, g1);
    ContainsBefore(p, g4, Position(g4, b + 2));
    ContainsBefore(p, g2, g4);
    ContainsBefore(p, g1, g2);
    ContainsBefore(p, a, g1);
    Ended(p, nb, Cond(true, b, b + 1));
    if s.no.None? { BrIs(p, g3, b + 2); }
  }

  lemma IfShape(s: Stmt)
    requires s.If? && Shape(s)
    ensures Arm(s.yes) && Shape(s.yes) && (s.no.Some? ==> Arm(s.no.value) && Shape(s.no.value))
  {
  }

  lemma LaterErr(g: Gen, g': Gen)
    requires Later(g, g') && g'.err.None?
    ensures g.err.None?
  {
  }

  lemma ElseLaid(n: nat, g: Gen, no: Option<Stmt>, b: nat, done: nat)
    requires Ok(g) && DefersOk(g.defers) && (no.Some? ==> Arm(no.value) && Shape(no.value))
    ensures var q := Position(g, b);
            var g' := Br(if no.Some? then Lower(n, q, no.value) else q, done);
            && Later(g, g') && SameScope(g, g')
            && (b < |g.blocks| && g.err.None? ==> forall x :: Blank(g, x) && x != b ==> Blank(g', x))
  {
    hide Lower, Br;
    if no.Some? {
      ArmLaid(n, g, no.value, b, done);
    } else {
      var q := Position(g, b);
      GrowsSelf(q);
      BrGrows(q, q, done);
      PositionLater(g, b);
      GrowsLater(q, Br(q, done));
      LaterTransitive(g, q, Br(q, done));
    }
  }

  lemma IfHead(g: Gen, c: Expr, b: nat)
    requires Ok(g) && b == |g.blocks|
    ensures var a := EmitExpr(g, c);
            var g1 := End(NewBlocks(a, 3), Cond(true, b, b + 1));
            && Later(a, g1) && SameScope(g, g1) && a.cur == g.cur && NewBlocks(a, 3).cur == g.cur
            && (g1.err.None? ==> |g1.blocks| == b + 3 && Blank(g1, b) && Blank(g1, b + 1) && Blank(g1, b + 2))
            && (g1.err.None? ==> NewBlocks(a, 3).blocks[g.cur] == a.blocks[g.cur])
  {
  }

  lemma SimIf(p: Program, w: World, n: nat, g: Gen, s: Stmt, g1: Gen, g2: Gen, fuel: nat, t: Trace, r: Outcome)
    requires Prepared(g) && s.If? && Shape(s) && Ok(g1) && Ok(g2) && IfLaid(p, n, g, s, g1, g2)
    requires r == Exec(w, s, g.locals, g.depth, fuel, t)
    requires var t1 := t + [Did(g.locals, s.c)];
             var b := |g.blocks|;
             if w(Effects(t1)) != 0 then
               Lands(p, w, At(b, 0, t1), fuel, Position(g1, b), Lower(n, Position(g1, b), s.yes), r)
             else s.no.Some? ==>
               Lands(p, w, At(b + 1, 0, t1), fuel, Position(g2, b + 1), Lower(n, Position(g2, b + 1), s.no.value), r)
    ensures Lands(p, w, AtEnd(g, t), fuel, g, Lower(n, g, s), r)
  {
    hide Leaves, Br, EmitExpr, Lower, Position;
    var b := |g.blocks|;
    var t1 := t + [Did(g.locals, s.c)];
    var a := EmitExpr(g, s.c);
    EmitExprGrows(g, g, s.c) by { GrowsSelf(g); }
    RunEmitExpr(p, w, g, s.c, t);
    ReachesStep(p, w, AtEnd(a, t1));
    var target := if w(Effects(t1)) != 0 then b else b + 1;
    assert a.cur == g.cur by { CurKept(g, s.c); }
    ReachesTransitive(p, w, AtEnd(g, t), AtEnd(a, t1), At(target, 0, t1));
    var c := At(target, 0, t1);
    if w(Effects(t1)) != 0 {
      ArmArrives(p, w, n, g1, s.yes, b, b + 2, fuel, t1, r);
      SameLeaves(p, w, c, fuel, g1, g, r);
    } else if s.no.Some? {
      ArmArrives(p, w, n, g2, s.no.value, b + 1, b + 2, fuel, t1, r);
      SameLeaves(p, w, c, fuel, g2, g, r);
    } else {
      ReachesStep(p, w, c);
    }
    ArrivesFrom(p, w, AtEnd(g, t), c, fuel, g, r, b + 2);
  }

  lemma CurKept(g: Gen, e: Expr)
    requires Ok(g)
    ensures EmitExpr(g, e).cur == g.cur
  {
  }

  // ----- for -----

  function CondCode(g0: Gen, s: Stmt): Trace
    requires s.For?
  {
    if s.cond.Some? then [Did(g0.locals, s.cond.value)] else []
  }

  function PostCode(g0: Gen, s: Stmt): Trace
    requires s.For?
  {
    if s.post.Some? then [Did(g0.locals, s.post.value)] else []
  }

  /** `g0` is the state after the initializer. */
  ghost predicate ForLaid(p: Program, n: nat, g: Gen, s: Stmt, g0: Gen)
    requires s.For? && Ok(g) && Ok(g0)
  {
    var b := |g0.blocks|;
    var inner := ForHead(g0, s);
    var g4 := Lower(n, inner, s.body);
    && g0.err.None? && Contains(p, g0)
    && (!Terminated(g0) ==> Is(p, g0.cur, g0.blocks[g0.cur].code, Jump(b)))
    && Is(p, b, CondCode(g0, s), Cond(s.cond.Some?, b + 1, b + 3))
    && inner.cur == b + 1 && inner.err.None? && Blank(inner, b + 1)
    && inner.loops == g0.loops + [Loop(b + 3, Some(b + 2), |g0.defers|, g0.depth)]
    && SameScope(g0, inner.(loops := g0.loops))
    && g4.err.None? && Contains(p, g4) && g4.locals == g0.locals
    && (!Terminated(g4) ==> Is(p, g4.cur, g4.blocks[g4.cur].code, Jump(b + 2)))
    && Is(p, b + 2, PostCode(g0, s), Jump(b))
    && LowerFor(n, g, s).cur == b + 3 && Blank(LowerFor(n, g, s), b + 3)
  }

  /** The condition block is filled and closed, the other three are blank. */
  ghost predicate HeadBlocks(g0: Gen, s: Stmt, inner: Gen)
    requires s.For?
  {
    var b := |g0.blocks|;
    && |inner.blocks| == b + 4 && inner.cur == b + 1
    && inner.blocks[b] == Code(CondCode(g0, s), Cond(s.cond.Some?, b + 1, b + 3))
    && Blank(inner, b + 1) && Blank(inner, b + 2) && Blank(inner, b + 3)
  }

  lemma ForHeadLaid(g0: Gen, s: Stmt)
    requires Ok(g0) && s.For? && ForHead(g0, s).err.None?
    ensures g0.err.None? && HeadBlocks(g0, s, ForHead(g0, s))
    ensures !Terminated(g0) ==> ForHead(g0, s).blocks[g0.cur] == g0.blocks[g0.cur].(end := Jump(|g0.blocks|))
  {
    var b := |g0.blocks|;
    var g1 := Position(Br(NewBlocks(g0, 4), b), b);
    var g2 := if s.cond.Some? then EmitExpr(g1, s.cond.value) else g1;
    assert g1.err.None? && g1.cur == b && g1.locals == g0.locals && Blank(g1, b);
    assert s.cond.Some? ==> [] + [Did(g0.locals, s.cond.value)] == CondCode(g0, s);
    assert g2.err.None? && g2.blocks[b] == Code(CondCode(g0, s), Open);
  }

  /** The post block, filled and closed; the end block stays blank. */
  lemma ForTailLaid(g4: Gen, s: Stmt, b: nat)
    requires Ok(g4) && s.For? && Blank(g4, b + 2) && Blank(g4, b + 3) && g4.cur != b + 2 && g4.cur != b + 3
    ensures var g7 := ForTail(g4, s, b);
            g7.err.None? ==>
              && Br(g4, b + 2).err.None? && Later(Br(g4, b + 2), g7)
              && g7.cur == b + 3 && Blank(g7, b + 3)
              && g7.blocks[b + 2] == Code(if s.post.Some? then [Did(g4.locals, s.post.value)] else [], Jump(b))
  {
    hide Later, Blank;
    var j := Br(g4, b + 2);
    var g5 := Position(j, b + 2);
    StaysBlank(g4, b + 2, b + 2);
    StaysBlank(g4, b + 2, b + 3);
    PostLaid(g5, s, b);
    if ForTail(g4, s, b).err.None? {
      PositionLater(j, b + 2);
      LaterTransitive(j, g5, ForTail(g4, s, b));
    }
  }

  lemma StaysBlank(g: Gen, to: nat, k: nat)
    requires Ok(g) && Blank(g, k) && k != g.cur
    ensures Blank(Br(g, to), k) && (Br(g, to).err.None? ==> Position(Br(g, to), k).cur == k)
    ensures Blank(Position(Br(g, to), to), k) && Br(g, to).locals == g.locals
    ensures Br(g, to).err.None? ==> g.err.None?
  {
  }

  /** The post expression in its blank block, and on to the end block. */
  lemma PostLaid(g5: Gen, s: Stmt, b: nat)
    requires Ok(g5) && s.For? && Blank(g5, b + 2) && Blank(g5, b + 3) && (g5.err.None? ==> g5.cur == b + 2)
    ensures var g7 := Position(Br(if s.post.Some? then EmitExpr(g5, s.post.value) else g5, b), b + 3);
            g7.err.None? ==>
              && g5.err.None? && Later(g5, g7) && g7.cur == b + 3 && Blank(g7, b + 3)
              && g7.blocks[b + 2] == Code(if s.post.Some? then [Did(g5.locals, s.post.value)] else [], Jump(b))
  {
    hide Later;
    var e := if s.post.Some? then EmitExpr(g5, s.post.value) else g5;
    var g6 := Br(e, b);
    GrowsSelf(g5);
    if s.post.Some? { EmitExprGrows(g5, g5, s.post.value); }
    BrGrows(g5, e, b);
    GrowsLater(g5, g6);
    PositionLater(g6, b + 3);
    LaterTransitive(g5, g6, Position(g6, b + 3));
  }

  lemma ForLayout(p: Program, n: nat, g: Gen, s: Stmt, g0: Gen)
    requires Prepared(g) && s.For? && Shape(s) && LowerFor(n, g, s).err.None? && Contains(p, LowerFor(n, g, s))
    requires g0 == if s.init.Some? then Lower(n, g, s.init.value) else g
    ensures ForLaid(p, n, g, s, g0)
  {
    hide Lower, ForHead, ForTail, Br, Later, Extends, Grows, Position, Shape, DefersOk, Contains, LoopsOk, Is, Blank;
    ForShape(s);
    InitScope(n, g, s, g0);
    var b := |g0.blocks|;
    var g7 := ForTail(PopLoop(Lower(n, ForHead(g0, s), s.body)), s, b);
    BlocksOnly(p, g7, LowerFor(n, g, s));
    ForBlocks(p, n, g0, s, g7);
    SameBlank(g7, LowerFor(n, g, s), b + 3);
  }

  lemma SameBlank(g: Gen, g': Gen, b: nat)
    requires g'.blocks == g.blocks
    ensures Blank(g, b) ==> Blank(g', b)
  {
  }

  /** The four blocks of a loop, in the finished program. */
  lemma ForBlocks(p: Program, n: nat, g0: Gen, s: Stmt, g7: Gen)
    requires Ok(g0) && DefersOk(g0.defers) && s.For? && s.body.Block? && Shape(s.body)
    requires g7 == ForTail(PopLoop(Lower(n, ForHead(g0, s), s.body)), s, |g0.blocks|) && g7.err.None? && Contains(p, g7)
    ensures var b := |g0.blocks|;
            var inner := ForHead(g0, s);
            var g4 := Lower(n, inner, s.body);
            && g0.err.None? && Contains(p, g0)
            && (!Terminated(g0) ==> Is(p, g0.cur, g0.blocks[g0.cur].code, Jump(b)))
            && Is(p, b, CondCode(g0, s), Cond(s.cond.Some?, b + 1, b + 3))
            && inner.cur == b + 1 && inner.err.None? && Blank(inner, b + 1)
            && inner.loops == g0.loops + [Loop(b + 3, Some(b + 2), |g0.defers|, g0.depth)]
            && SameScope(g0, inner.(loops := g0.loops))
            && g4.err.None? && Contains(p, g4) && g4.locals == g0.locals
            && (!Terminated(g4) ==> Is(p, g4.cur, g4.blocks[g4.cur].code, Jump(b + 2)))
            && Is(p, b + 2, PostCode(g0, s), Jump(b))
            && g7.cur == b + 3 && Blank(g7, b + 3)
  {
    hide Lower, ForHead, ForTail, Br, Later, Extends, Grows, Position, Shape, DefersOk, Contains;
    var b := |g0.blocks|;
    var inner := ForHead(g0, s);
    var g4 := Lower(n, inner, s.body);
    ForHeadKeeps(g0, s);
    LowerKeeps(n, inner, s.body);
    GrowsLater(g0, inner);
    GrowsLater(inner, g4);
    TailErr(PopLoop(g4), s, b);
    LaterErr(inner, g4);
    ForHeadLaid(g0, s);
    BodyBlocks(g0, s, inner, g4);
    ForTailLaid(PopLoop(g4), s, b);
    ContainsBefore(p, Br(PopLoop(g4), b + 2), g7);
    BrIs(p, PopLoop(g4), b + 2);
    BlocksOnly(p, g4, PopLoop(g4));
    ContainsBefore(p, inner, g4);
    ContainsBefore(p, g0, inner);
    BlockIs(p, inner, g0.cur);
    BlockIs(p, inner, b);
    BlockIs(p, g7, b + 2);
  }

  lemma InitScope(n: nat, g: Gen, s: Stmt, g0: Gen)
    requires Prepared(g) && s.For? && Shape(s)
    requires g0 == if s.init.Some? then Lower(n, g, s.init.value) else g
    ensures Ok(g0) && Keeps(g, g0) && g0.defers == g.defers && DefersOk(g0.defers)
  {
    ForShape(s);
    GrowsSelf(g);
    if s.init.Some? { LowerKeeps(n, g, s.init.value); }
  }

  /** A block closed in an earlier state is what the program has. */
  lemma BlockIs(p: Program, g: Gen, b: nat)
    requires Contains(p, g) && b < |g.blocks|
    ensures g.blocks[b].end != Open ==> Is(p, b, g.blocks[b].code, g.blocks[b].end)
  {
    assert Extends(g.blocks[b], p[b]);
  }

  lemma BlocksOnly(p: Program, g: Gen, g': Gen)
    requires Ok(g) && Ok(g') && g.blocks == g'.blocks
    ensures Contains(p, g) <==> Contains(p, g')
  {
  }

  lemma BodyBlocks(g0: Gen, s: Stmt, inner: Gen, g4: Gen)
    requires s.For? && HeadBlocks(g0, s, inner) && Grows(inner, g4)
    ensures var b := |g0.blocks|;
            Blank(g4, b + 2) && Blank(g4, b + 3) && g4.cur != b + 2 && g4.cur != b + 3
  {
  }

  lemma TailErr(g4: Gen, s: Stmt, b: nat)
    requires Ok(g4) && s.For? && ForTail(g4, s, b).err.None?
    ensures g4.err.None?
  {
  }

  /** Straight-line code of a closed block, then its terminator. */
  lemma RunBlock(p: Program, w: World, b: nat, code: Trace, end: Terminator, t: Trace)
    requires Is(p, b, code, end)
    ensures Reaches(p, w, At(b, 0, t), At(b, |code|, t + code))
    ensures Reaches(p, w, At(b, 0, t), Step(p, w, At(b, |code|, t + code)))
  {
    assert p[b].code[0..0 + |code|] == code;
    ReachesAlong(p, w, b, 0, code, t);
    ReachesStep(p, w, At(b, |code|, t + code));
    ReachesTransitive(p, w, At(b, 0, t), At(b, |code|, t + code), Step(p, w, At(b, |code|, t + code)));
  }

  /** A loop that is out of rounds has at least taken a step for each. */
  ghost predicate LoopArrives(p: Program, w: World, c: Config, fuel: nat, rounds: nat, g: Gen, r: Outcome, done: nat) {
    if r.Timeout? then Runs(p, w, c, if rounds <= fuel then rounds else fuel)
    else Arrives(p, w, c, fuel, g, r, done)
  }

  /** The body of a loop, from its block to the post block. */
  lemma BodyArrives(p: Program, w: World, n: nat, g: Gen, s: Stmt, g0: Gen, fuel: nat, t: Trace, r: Outcome)
    requires s.For? && Ok(g) && Ok(g0) && ForLaid(p, n, g, s, g0)
    requires var b := |g0.blocks|;
             Lands(p, w, At(b + 1, 0, t), fuel, ForHead(g0, s), Lower(n, ForHead(g0, s), s.body), r)
    ensures Arrives(p, w, At(|g0.blocks| + 1, 0, t), fuel, ForHead(g0, s), r, |g0.blocks| + 2)
  {
    hide Leaves, Lower, ForHead, LowerFor;
    var b := |g0.blocks|;
    var g4 := Lower(n, ForHead(g0, s), s.body);
    if r.Done? && r.how.Normal? {
      ReachesStep(p, w, AtEnd(g4, r.t));
      ReachesTransitive(p, w, At(b + 1, 0, t), AtEnd(g4, r.t), At(b + 2, 0, r.t));
    }
  }

  /** From the end of the body: where the loop goes on, or leaves. */
  lemma AfterBody(p: Program, w: World, n: nat, g: Gen, s: Stmt, g0: Gen, fuel: nat, c: Config, r: Outcome)
    requires s.For? && Ok(g) && Ok(g0) && ForLaid(p, n, g, s, g0)
    requires r.Done? && r.depth >= g0.depth
    requires Arrives(p, w, c, fuel, ForHead(g0, s), r, |g0.blocks| + 2)
    ensures var b := |g0.blocks|;
            var t2 := r.t + if r.how.Normal? then [] else Pops(r.depth - g0.depth);
            match r.how
            case Returned(_) => Leaves(p, w, c, fuel, g0, r)
            case Broke => Reaches(p, w, c, At(b + 3, 0, t2))
            case _ => Reaches(p, w, c, At(b, 0, t2 + PostCode(g0, s)))
  {
    hide Lower, ForHead, LowerFor;
    var b := |g0.blocks|;
    var inner := ForHead(g0, s);
    var t2 := r.t + if r.how.Normal? then [] else Pops(r.depth - g0.depth);
    assert LoopFor(inner.loops, false) == LoopFor(inner.loops, true) == |g0.loops|;
    assert Suffix(inner.defers, |g0.defers|) == [];
    assert r.how.Normal? ==> t2 == r.t;
    if r.how.Normal? || r.how.Continued? {
      RunBlock(p, w, b + 2, PostCode(g0, s), Jump(b), t2);
      ReachesTransitive(p, w, c, At(b + 2, 0, t2), At(b, 0, t2 + PostCode(g0, s)));
    }
  }

  /** One round of a loop, given its body and the rounds after it. */
  lemma LoopStep(p: Program, w: World, n: nat, g: Gen, s: Stmt, g0: Gen, fuel: nat, rounds: nat, t: Trace, t1: Trace, r: Outcome, q: Outcome)
    requires s.For? && Ok(g) && Ok(g0) && ForLaid(p, n, g, s, g0) && 0 < rounds <= fuel
    requires t1 == t + CondCode(g0, s) && q == ExecLoop(w, s, g0.locals, g0.depth, fuel, rounds, t)
    requires !(s.cond.Some? && w(Effects(t1)) == 0) ==>
               && r == Exec(w, s.body, g0.locals, g0.depth, fuel, t1)
               && (r.Done? ==> r.depth >= g0.depth)
               && Arrives(p, w, At(|g0.blocks| + 1, 0, t1), fuel, ForHead(g0, s), r, |g0.blocks| + 2)
               && (r.Done? && !r.how.Broke? && !r.how.Returned? ==>
                     var t3 := r.t + (if r.how.Normal? then [] else Pops(r.depth - g0.depth)) + PostCode(g0, s);
                     && q == ExecLoop(w, s, g0.locals, g0.depth, fuel, rounds - 1, t3)
                     && LoopArrives(p, w, At(|g0.blocks|, 0, t3), fuel, rounds - 1, g0, q, |g0.blocks| + 3))
    ensures LoopArrives(p, w, At(|g0.blocks|, 0, t), fuel, rounds, g0, q, |g0.blocks| + 3)
  {
    hide Lower, ForHead, LowerFor, Exec, Leaves;
    var b := |g0.blocks|;
    var c := At(b, 0, t);
    var end := Cond(s.cond.Some?, b + 1, b + 3);
    RunBlock(p, w, b, CondCode(g0, s), end, t);
    assert s.cond.None? ==> t1 == t;
    if s.cond.Some? && w(Effects(t1)) == 0 {
      assert Step(p, w, At(b, |CondCode(g0, s)|, t1)) == At(b + 3, 0, t1);
    } else {
      var d := At(b + 1, 0, t1);
      assert Step(p, w, At(b, |CondCode(g0, s)|, t1)) == d;
      if r.Timeout? {
        ReachesRuns(p, w, c, d, fuel);
        RunsLess(p, w, c, rounds, fuel);
      } else {
        AfterBody(p, w, n, g, s, g0, fuel, d, r);
        LoopGoesOn(p, w, n, g, s, g0, fuel, rounds, t, t1, r, q);
      }
    }
  }

  lemma LoopGoesOn(p: Program, w: World, n: nat, g: Gen, s: Stmt, g0: Gen, fuel: nat, rounds: nat, t: Trace, t1: Trace, r: Outcome, q: Outcome)
    requires s.For? && Ok(g) && Ok(g0) && ForLaid(p, n, g, s, g0) && 0 < rounds <= fuel
    requires t1 == t + CondCode(g0, s) && r.Done? && r.depth >= g0.depth
    requires !(s.cond.Some? && w(Effects(t1)) == 0)
    requires var b := |g0.blocks|;
             var d := At(b + 1, 0, t1);
             var t2 := r.t + if r.how.Normal? then [] else Pops(r.depth - g0.depth);
             match r.how
             case Returned(_) => q == r && Leaves(p, w, d, fuel, g0, r)
             case Broke => q == Done(Normal, g0.locals, g0.depth, t2) && Reaches(p, w, d, At(b + 3, 0, t2))
             case _ => Reaches(p, w, d, At(b, 0, t2 + PostCode(g0, s)))
                       && LoopArrives(p, w, At(b, 0, t2 + PostCode(g0, s)), fuel, rounds - 1, g0, q, b + 3)
    ensures LoopArrives(p, w, At(|g0.blocks|, 0, t), fuel, rounds, g0, q, |g0.blocks| + 3)
  {
    hide Lower, ForHead, LowerFor, Leaves;
    var b := |g0.blocks|;
    var c := At(b, 0, t);
    var d := At(b + 1, 0, t1);
    var t2 := r.t + if r.how.Normal? then [] else Pops(r.depth - g0.depth);
    FirstStep(p, w, n, g, s, g0, t, t1);
    ReachesStep(p, w, c);
    ReachesTransitive(p, w, c, Step(p, w, c), d);
    if r.how.Returned? {
      LeavesFrom(p, w, c, d, fuel, g0, r);
    } else if r.how.Broke? {
      ReachesTransitive(p, w, c, d, At(b + 3, 0, t2));
    } else {
      var e := At(b, 0, t2 + PostCode(g0, s));
      ReachesTransitive(p, w, Step(p, w, c), d, e);
      ReachesTransitive(p, w, c, d, e);
      if q.Timeout? {
        ReachesRuns(p, w, Step(p, w, c), e, rounds - 1);
        StepRuns(p, w, c, rounds);
      } else {
        ArrivesFrom(p, w, c, e, fuel, g0, q, b + 3);
      }
    }
  }

  /** Entering a round takes a step. */
  lemma FirstStep(p: Program, w: World, n: nat, g: Gen, s: Stmt, g0: Gen, t: Trace, t1: Trace)
    requires s.For? && Ok(g) && Ok(g0) && ForLaid(p, n, g, s, g0)
    requires t1 == t + CondCode(g0, s) && !(s.cond.Some? && w(Effects(t1)) == 0)
    ensures Reaches(p, w, Step(p, w, At(|g0.blocks|, 0, t)), At(|g0.blocks| + 1, 0, t1))
  {
    hide Lower, ForHead, LowerFor;
    var b := |g0.blocks|;
    var c := At(b, 0, t);
    if s.cond.Some? {
      assert Step(p, w, c) == At(b, 1, t1);
      ReachesStep(p, w, At(b, 1, t1));
    } else {
      assert t1 == t;
      ReachesSelf(p, w, At(b + 1, 0, t1));
    }
  }

  // ----- switch -----

  lemma {:induction false} LabelTarget(cases: seq<Case>, first: nat, other: nat, v: int)
    ensures Target(LabelsFrom(cases, first), other, v)
         == if Labelled(cases, v) >= 0 then first + Labelled(cases, v) else other
  {
    if cases != [] {
      LabelTarget(cases[1..], first + 1, other, v);
      var rest := LabelsFrom(cases[1..], first + 1);
      if cases[0].lab.Some? {
        assert LabelsFrom(cases, first) == [(cases[0].lab.value, first)] + rest;
        assert LabelsFrom(cases, first)[1..] == rest;
      } else {
        assert LabelsFrom(cases, first) == rest;
      }
    }
  }

  lemma {:induction false} OtherTarget(cases: seq<Case>, first: nat, other: nat)
    ensures OtherFrom(cases, first, other) == if Default(cases) >= 0 then first + Default(cases) else other
  {
    if cases != [] {
      OtherTarget(cases[1..], first + 1, if cases[0].lab.None? then first else other);
    }
  }

  /** The table instruction goes to the block of the chosen case, or past the switch. */
  lemma TableTarget(cases: seq<Case>, done: nat, v: int)
    ensures Target(LabelsFrom(cases, done + 1), OtherFrom(cases, done + 1, done), v)
         == if Chosen(cases, v) < 0 then done else done + 1 + Chosen(cases, v)
  {
    LabelTarget(cases, done + 1, OtherFrom(cases, done + 1, done), v);
    OtherTarget(cases, done + 1, done);
  }

  /** Blank blocks from `first` on, one for each remaining case. */
  ghost predicate BlankFrom(g: Gen, first: nat, count: nat) {
    first + count <= |g.blocks| && forall i :: first <= i < first + count ==> Blank(g, i)
  }

  ghost predicate CaseLaid(p: Program, n: nat, g: Gen, gi: Gen, body: Stmt, block: nat, done: nat)
    requires Ok(gi)
  {
    && SameScope(g, gi) && gi.err.None? && Blank(gi, block)
    && Br(Lower(n, Position(gi, block), body), done).err.None?
    && Contains(p, Br(Lower(n, Position(gi, block), body), done))
  }

  lemma CaseLayout(p: Program, n: nat, g: Gen, cases: seq<Case>, first: nat, done: nat, i: nat) returns (gi: Gen)
    requires Ok(g) && DefersOk(g.defers) && forall c <- cases :: c.body.Block? && Shape(c.body)
    requires LowerCases(n, g, cases, first, done).err.None? && Contains(p, LowerCases(n, g, cases, first, done))
    requires BlankFrom(g, first, |cases|) && done < first && Blank(g, done) && i < |cases|
    ensures Ok(gi) && CaseLaid(p, n, g, gi, cases[i].body, first + i, done)
    decreases |cases|
  {
    hide Lower, Br, Later, Extends, Position, Shape, DefersOk;
    var g' := Br(Lower(n, Position(g, first), cases[0].body), done);
    FirstCase(n, g, cases, first, done);
    ContainsBefore(p, g', LowerCases(n, g, cases, first, done));
    if i == 0 {
      assert Blank(g, first);
      gi := g;
    } else {
      CaseTail(cases);
      gi := CaseLayout(p, n, g', cases[1..], first + 1, done, i - 1);
    }
  }

  lemma CaseOk(cases: seq<Case>, i: nat)
    requires i < |cases| && forall c <- cases :: c.body.Block? && Shape(c.body)
    ensures Arm(cases[i].body) && Shape(cases[i].body)
  {
    assert cases[i] in cases;
  }

  lemma CaseTail(cases: seq<Case>)
    requires cases != [] && forall c <- cases :: c.body.Block? && Shape(c.body)
    ensures forall c <- cases[1..] :: c.body.Block? && Shape(c.body)
  {
  }

  lemma CasesLater(n: nat, g: Gen, cases: seq<Case>, first: nat, done: nat)
    requires Ok(g) && DefersOk(g.defers) && forall c <- cases :: c.body.Block? && Shape(c.body)
    ensures Later(g, LowerCases(n, g, cases, first, done)) && SameScope(g, LowerCases(n, g, cases, first, done))
    decreases |cases|
  {
    hide Lower, Br, Later, Extends, Position, Shape, DefersOk;
    if cases == [] {
      GrowsSelf(g);
      GrowsLater(g, g);
    } else {
      var g' := Br(Lower(n, Position(g, first), cases[0].body), done);
      CaseOk(cases, 0);
      CaseTail(cases);
      ArmLaid(n, g, cases[0].body, first, done);
      CasesLater(n, g', cases[1..], first + 1, done);
      LaterTransitive(g, g', LowerCases(n, g, cases, first, done));
    }
  }

  /** Lowering the cases leaves the end block blank. */
  lemma CasesBlank(n: nat, g: Gen, cases: seq<Case>, first: nat, done: nat)
    requires Ok(g) && DefersOk(g.defers) && forall c <- cases :: c.body.Block? && Shape(c.body)
    requires BlankFrom(g, first, |cases|) && done < first && Blank(g, done)
    requires LowerCases(n, g, cases, first, done).err.None?
    ensures Blank(LowerCases(n, g, cases, first, done), done)
    decreases |cases|
  {
    hide Lower, Br, Later, Extends, Position, Shape, DefersOk;
    if cases != [] {
      var g' := Br(Lower(n, Position(g, first), cases[0].body), done);
      FirstCase(n, g, cases, first, done);
      CaseTail(cases);
      CasesBlank(n, g', cases[1..], first + 1, done);
    }
  }

  /** The first case is laid, and the rest has its blank blocks. */
  lemma FirstCase(n: nat, g: Gen, cases: seq<Case>, first: nat, done: nat)
    requires Ok(g) && DefersOk(g.defers) && forall c <- cases :: c.body.Block? && Shape(c.body)
    requires BlankFrom(g, first, |cases|) && done < first && Blank(g, done) && cases != []
    requires LowerCases(n, g, cases, first, done).err.None?
    ensures var g' := Br(Lower(n, Position(g, first), cases[0].body), done);
            && g.err.None? && g'.err.None? && SameScope(g, g') && Later(g', LowerCases(n, g, cases, first, done))
            && BlankFrom(g', first + 1, |cases| - 1) && Blank(g', done)
  {
    hide Lower, Br, Later, Extends, Position, Shape, DefersOk;
    var g' := Br(Lower(n, Position(g, first), cases[0].body), done);
    CaseOk(cases, 0);
    CaseTail(cases);
    ArmLaid(n, g, cases[0].body, first, done);
    CasesLater(n, g', cases[1..], first + 1, done);
    LaterErr(g', LowerCases(n, g, cases, first, done));
    LaterErr(g, g');
    assert Blank(g, first);
    BlankStill(g, g', first, |cases|);
  }

  lemma BlankStill(g: Gen, g': Gen, first: nat, count: nat)
    requires BlankFrom(g, first, count) && count > 0
    requires forall x :: Blank(g, x) && x != first ==> Blank(g', x)
    requires |g.blocks| <= |g'.blocks|
    ensures BlankFrom(g', first + 1, count - 1)
  {
  }

  ghost predicate SwitchLaid(p: Program, n: nat, g: Gen, e: Expr, cases: seq<Case>, g3: Gen)
    requires Ok(g) && Ok(g3)
  {
    var done := |g.blocks|;
    && EmitExpr(g, e).err.None? && Contains(p, EmitExpr(g, e))
    && Is(p, g.cur, EmitExpr(g, e).blocks[g.cur].code,
          Table(LabelsFrom(cases, done + 1), OtherFrom(cases, done + 1, done)))
    && g3.err.None? && g3.loops == g.loops + [Loop(done, None, |g.defers|, g.depth)]
    && SameScope(g, g3.(loops := g.loops))
    && BlankFrom(g3, done + 1, |cases|) && Blank(g3, done)
    && LowerCases(n, g3, cases, done + 1, done).err.None?
    && Contains(p, LowerCases(n, g3, cases, done + 1, done))
    && LowerSwitch(n, g, e, cases).cur == done && Blank(LowerSwitch(n, g, e, cases), done)
    && SameScope(g, LowerSwitch(n, g, e, cases))
  }

  lemma SwitchHead(g: Gen, e: Expr, count: nat, end: Terminator)
    requires Ok(g)
    ensures var a := EmitExpr(g, e);
            var g2 := End(NewBlocks(a, 1 + count), end);
            && Later(a, g2) && SameScope(g, g2) && a.cur == g.cur && NewBlocks(a, 1 + count).cur == g.cur
            && (g2.err.None? ==> BlankFrom(g2, |g.blocks|, 1 + count))
            && (g2.err.None? ==> NewBlocks(a, 1 + count).blocks[g.cur] == a.blocks[g.cur])
  {
  }

  lemma BlankSplit(g: Gen, g': Gen, first: nat, count: nat)
    requires BlankFrom(g, first, 1 + count) && g'.blocks == g.blocks
    ensures Blank(g', first) && BlankFrom(g', first + 1, count)
  {
    assert Blank(g, first);
    forall i | first + 1 <= i < first + 1 + count
      ensures Blank(g', i)
    {
      assert Blank(g, i);
    }
  }

  lemma SwitchLayout(p: Program, n: nat, g: Gen, e: Expr, cases: seq<Case>) returns (g3: Gen)
    requires Prepared(g) && forall c <- cases :: c.body.Block? && Shape(c.body)
    requires LowerSwitch(n, g, e, cases).err.None? && Contains(p, LowerSwitch(n, g, e, cases))
    ensures Ok(g3) && SwitchLaid(p, n, g, e, cases, g3)
  {
    hide Lower, LowerCases, End, EmitExpr, NewBlocks, Later, Extends, Shape, DefersOk;
    var done := |g.blocks|;
    var a := EmitExpr(g, e);
    var nb := NewBlocks(a, 1 + |cases|);
    var end := Table(LabelsFrom(cases, done + 1), OtherFrom(cases, done + 1, done));
    var g2 := End(nb, end);
    g3 := g2.(loops := g2.loops + [Loop(done, None, |g2.defers|, g2.depth)]);
    var g4 := LowerCases(n, g3, cases, done + 1, done);
    SwitchHead(g, e, |cases|, end);
    CasesLater(n, g3, cases, done + 1, done);
    LaterErr(g3, g4);
    LaterErr(a, g2);
    BlankSplit(g2, g3, done, |cases|);
    CasesBlank(n, g3, cases, done + 1, done);
    BlocksOnly(p, g4, LowerSwitch(n, g, e, cases));
    ContainsBefore(p, g3, g4);
    BlocksOnly(p, g2, g3);
    Ended(p, nb, end);
    ContainsBefore(p, a, g2);
  }

  lemma SimSwitch(p: Program, w: World, n: nat, g: Gen, e: Expr, cases: seq<Case>, g3: Gen, gi: Gen, fuel: nat, t: Trace, r: Outcome, q: Outcome)
    requires Prepared(g) && (forall c <- cases :: c.body.Block? && Shape(c.body))
    requires Ok(g3) && Ok(gi) && SwitchLaid(p, n, g, e, cases, g3)
    requires q == Exec(w, Switch(e, cases), g.locals, g.depth, fuel, t)
    requires var t1 := t + [Did(g.locals, e)];
             var i := Chosen(cases, w(Effects(t1)));
             i >= 0 ==>
               var b := |g.blocks| + 1 + i;
               && CaseLaid(p, n, g3, gi, cases[i].body, b, |g.blocks|)
               && r == Exec(w, cases[i].body, g.locals, g.depth, fuel, t1)
               && (r.Done? ==> r.depth >= g.depth)
               && Lands(p, w, At(b, 0, t1), fuel, Position(gi, b), Lower(n, Position(gi, b), cases[i].body), r)
    ensures Lands(p, w, AtEnd(g, t), fuel, g, LowerSwitch(n, g, e, cases), q)
  {
    hide Lower, LowerCases, LowerSwitch, Br, Position, EmitExpr, Leaves;
    var done := |g.blocks|;
    var t1 := t + [Did(g.locals, e)];
    var a := EmitExpr(g, e);
    var v := w(Effects(t1));
    var i := Chosen(cases, v);
    EmitExprGrows(g, g, e) by { GrowsSelf(g); }
    RunEmitExpr(p, w, g, e, t);
    ReachesStep(p, w, AtEnd(a, t1));
    assert a.cur == g.cur by { CurKept(g, e); }
    TableTarget(cases, done, v);
    var c := At(if i < 0 then done else done + 1 + i, 0, t1);
    ReachesTransitive(p, w, AtEnd(g, t), AtEnd(a, t1), c);
    if i < 0 {
      ReachesSelf(p, w, c);
    } else {
      CaseOk(cases, i);
      ArmArrives(p, w, n, gi, cases[i].body, done + 1 + i, done, fuel, t1, r);
      SwitchBreak(p, w, c, fuel, g, g3, gi, r);
    }
    ArrivesFrom(p, w, AtEnd(g, t), c, fuel, g, q, done);
  }

  /** A break ends the switch; a continue passes through it to the enclosing loop. */
  lemma SwitchBreak(p: Program, w: World, c: Config, fuel: nat, g: Gen, g3: Gen, gi: Gen, r: Outcome)
    requires SameScope(g3, gi) && g3.loops == g.loops + [Loop(|g.blocks|, None, |g.defers|, g.depth)]
    requires SameScope(g, g3.(loops := g.loops))
    requires Arrives(p, w, c, fuel, gi, r, |g.blocks|) && (r.Done? ==> r.depth >= g.depth)
    ensures var q := if r.Done? && r.how.Broke? then Done(Normal, g.locals, g.depth, r.t + Pops(r.depth - g.depth)) else r;
            Arrives(p, w, c, fuel, g, q, |g.blocks|)
  {
    assert g3.loops[..|g.loops|] == g.loops;
    assert LoopFor(g3.loops, false) == |g.loops| && LoopFor(g3.loops, true) == LoopFor(g.loops, true);
    assert Suffix(g3.defers, |g.defers|) == [];
  }
}
