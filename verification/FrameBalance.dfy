/** The frames a function holds. Each emitted block is entered with one fixed number of
    frames, whatever path led there; none is popped that the function did not push, no value
    is moved further out than the caller, and the function returns with none left. */
module FrameBalance {
  import opened Wrappers
  import opened Syntax
  import opened SourceSemantics
  import opened BasicBlocks
  import opened Lowering
  import opened LoweringGrowth
  import opened LoweringInduction

  /** The frames held after one event, -1 once something was out of order. */
  function After(held: int, e: Event): int {
    if held < 0 then -1
    else
      match e
      case Push => held + 1
      case Pop => held - 1
      case Escape(levels) => if levels <= held then held else -1
      case MoveFrame => if held > 0 then held else -1
      case Init => if held == 0 then 0 else -1
      case Shutdown => if held == 0 then 0 else -1
      case _ => held
  }

  function Frames(held: int, t: Trace): int {
    if t == [] then held else After(Frames(held, t[..|t| - 1]), t[|t| - 1])
  }

  lemma {:induction false} FramesPlus(held: int, a: Trace, b: Trace)
    ensures Frames(held, a + b) == Frames(Frames(held, a), b)
    decreases |b|
  {
    if b == [] {
      assert a + b == a;
    } else {
      var b' := b[..|b| - 1];
      assert (a + b)[..|a + b| - 1] == a + b';
      FramesPlus(held, a, b');
    }
  }

  /** Once out of order, always out of order. */
  lemma {:induction false} FramesStick(held: int, a: Trace, b: Trace)
    requires Frames(held, a + b) >= 0
    ensures b != [] || a != [] ==> Frames(held, a) >= 0 || held < 0
    ensures held >= 0 ==> Frames(held, a) >= 0
    decreases |b|
  {
    if b == [] {
      assert a + b == a;
    } else {
      var b' := b[..|b| - 1];
      assert (a + b)[..|a + b| - 1] == a + b';
      if a + b' == [] { assert a == []; }
      if held >= 0 { FramesStick(held, a, b'); }
    }
  }

  lemma {:induction false} FramesOfPops(held: nat, n: nat)
    requires n <= held
    ensures Frames(held, Pops(n)) == held - n
    decreases n
  {
    if n > 0 {
      assert Pops(n)[..n - 1] == Pops(n - 1);
      FramesOfPops(held, n - 1);
    }
  }

  lemma {:induction false} FramesOfEscapes(held: nat, levels: nat, n: nat)
    requires levels <= held
    ensures Frames(held, Repeat(Escape(levels), n)) == held
    decreases n
  {
    if n > 0 {
      assert Repeat(Escape(levels), n)[..n - 1] == Repeat(Escape(levels), n - 1);
      FramesOfEscapes(held, levels, n - 1);
    }
  }

  lemma FramesOfOne(held: nat, e: Event)
    ensures Frames(held, [e]) == After(held, e)
  {
    assert [e][..0] == [];
  }

  lemma FramesOfAssign(env: Env, depth: nat, name: string, v: Value)
    ensures Frames(depth + 1, AssignEvents(env, depth, name, v)) == depth + 1
  {
    hide Frames, Did, DeclOf;
    var i := Find(env, name);
    var target := if i < 0 then -1 else env[i].depth;
    var mid := Escapes(v, depth, target);
    var store := Store(DeclOf(env, name));
    assert AssignEvents(env, depth, name, v) == [Did(env, v.e)] + mid + [store];
    FramesPlus(depth + 1, [Did(env, v.e)] + mid, [store]);
    FramesPlus(depth + 1, [Did(env, v.e)], mid);
    FramesOfDid(depth + 1, env, v.e);
    FramesOfOne(depth + 1, store);
    if depth > target >= 0 {
      FramesOfEscapes(depth + 1, depth - target, v.escapes);
    } else {
      FramesOfNothing(depth + 1);
    }
  }

  lemma FramesOfNothing(held: int)
    ensures Frames(held, []) == held
  {
  }

  lemma FramesOfDid(held: nat, env: Env, e: Expr)
    ensures Frames(held, [Did(env, e)]) == held
  {
    FramesOfOne(held, Did(env, e));
  }

  lemma FramesOfEpilogue(v: Option<Value>, depth: nat, main: bool)
    ensures Frames(depth + 1, Epilogue(v, depth, main)) == 0
  {
    hide Frames;
    var moves := if v.Some? then Repeat(Escape(depth + 1), v.value.escapes) else [];
    var frame := if v.Some? && v.value.aggregate then [MoveFrame] else [];
    var last := if main then [Shutdown] else [];
    assert Epilogue(v, depth, main) == moves + frame + Pops(depth + 1) + last;
    FramesPlus(depth + 1, moves + frame + Pops(depth + 1), last);
    FramesPlus(depth + 1, moves + frame, Pops(depth + 1));
    FramesPlus(depth + 1, moves, frame);
    FramesOfNothing(depth + 1);
    FramesOfNothing(0);
    if v.Some? { FramesOfEscapes(depth + 1, depth + 1, v.value.escapes); }
    FramesOfOne(depth + 1, MoveFrame);
    FramesOfPops(depth + 1, depth + 1);
    FramesOfOne(0, Shutdown);
  }

  // ----- one number per block -----

  /** `at[b]` frames are held whenever block `b` is entered. */
  type Levels = seq<nat>

  predicate Enters(at: Levels, to: nat, held: int) { to < |at| && at[to] == held }

  predicate EndFits(end: Terminator, held: int, at: Levels) {
    match end
    case Open => true
    case Jump(to) => Enters(at, to, held)
    case Cond(_, yes, no) => Enters(at, yes, held) && Enters(at, no, held)
    case Table(labels, other) => Enters(at, other, held) && forall l <- labels :: Enters(at, l.1, held)
    case Ret => held == 0
  }

  predicate BlockFits(c: Code, held: nat, at: Levels) {
    Frames(held, c.code) >= 0 && EndFits(c.end, Frames(held, c.code), at)
  }

  ghost predicate AllFit(blocks: Program, at: Levels) {
    |at| == |blocks| && forall b :: 0 <= b < |blocks| ==> BlockFits(blocks[b], at[b], at)
  }

  predicate LoopFits(l: Loop, depth: nat, at: Levels) {
    l.depth <= depth && Enters(at, l.done, l.depth + 1) && (l.next.Some? ==> Enters(at, l.next.value, l.depth + 1))
  }

  ghost predicate LoopsFit(loops: seq<Loop>, depth: nat, at: Levels) { forall l <- loops :: LoopFits(l, depth, at) }

  /** An unfinished block holds the function's own frame and one per open block. */
  ghost predicate Fits(g: Gen, at: Levels) {
    && Ok(g) && AllFit(g.blocks, at) && LoopsFit(g.loops, g.depth, at)
    && (!Terminated(g) ==> Frames(at[g.cur], g.blocks[g.cur].code) == g.depth + 1)
  }

  lemma EndFitsMore(end: Terminator, held: int, at: Levels, at': Levels)
    requires EndFits(end, held, at) && at <= at'
    ensures EndFits(end, held, at')
  {
    forall b | 0 <= b < |at|
      ensures at'[b] == at[b]
    {
    }
  }

  /** Straight-line code that changes the number of frames to `held`. */
  lemma EmitFits(g: Gen, at: Levels, es: Trace, held: nat)
    requires g.err.None? && Fits(g, at) && Emit(g, es).err.None?
    requires !Terminated(g) ==> Frames(g.depth + 1, es) == held
    ensures Ok(Emit(g, es)) && AllFit(Emit(g, es).blocks, at)
    ensures Emit(g, es).(blocks := g.blocks) == g
    ensures Terminated(Emit(g, es)) == Terminated(g)
    ensures !Terminated(g) ==> Frames(at[g.cur], Emit(g, es).blocks[g.cur].code) == held
  {
    if es != [] { FramesPlus(at[g.cur], g.blocks[g.cur].code, es); }
  }

  lemma ExprFits(g: Gen, at: Levels, e: Expr)
    requires g.err.None? && Fits(g, at) && EmitExpr(g, e).err.None?
    ensures Fits(EmitExpr(g, e), at) && EmitExpr(g, e).(blocks := g.blocks) == g
    ensures Terminated(EmitExpr(g, e)) == Terminated(g) && |EmitExpr(g, e).blocks| == |g.blocks|
  {
    hide Frames, Did;
    FramesOfDid(g.depth + 1, g.locals, e);
    EmitFits(g, at, [Did(g.locals, e)], g.depth + 1);
  }

  lemma EndsFit(g: Gen, at: Levels, end: Terminator)
    requires g.err.None? && Ok(g) && AllFit(g.blocks, at) && LoopsFit(g.loops, g.depth, at)
    requires end != Open && End(g, end).err.None?
    requires EndFits(end, Frames(at[g.cur], g.blocks[g.cur].code), at)
    ensures Fits(End(g, end), at) && End(g, end).(blocks := g.blocks) == g && |End(g, end).blocks| == |g.blocks|
  {
    hide Frames, EndFits;
  }

  lemma BrFits(g: Gen, at: Levels, to: nat)
    requires g.err.None? && Fits(g, at) && Enters(at, to, g.depth + 1)
    ensures Fits(Br(g, to), at) && Br(g, to).(blocks := g.blocks) == g && |Br(g, to).blocks| == |g.blocks|
    ensures Terminated(Br(g, to))
  {
    hide Frames;
    if !Terminated(g) { EndsFit(g, at, Jump(to)); }
  }

  ghost predicate EntersAll(at: Levels, first: nat, k: nat, held: int) {
    forall b: nat :: first <= b < first + k ==> Enters(at, b, held)
  }

  ghost predicate AllBlank(g: Gen, first: nat, k: nat) { forall b: nat :: first <= b < first + k ==> Blank(g, b) }

  function Grown(at: Levels, n: nat, held: nat): Levels { at + seq(n, _ => held) }

  lemma NewBlocksFit(g: Gen, at: Levels, n: nat)
    requires g.err.None? && Fits(g, at)
    ensures Fits(NewBlocks(g, n), Grown(at, n, g.depth + 1)) && NewBlocks(g, n).(blocks := g.blocks) == g
    ensures Terminated(NewBlocks(g, n)) == Terminated(g) && at <= Grown(at, n, g.depth + 1)
    ensures |NewBlocks(g, n).blocks| == |g.blocks| + n && AllBlank(NewBlocks(g, n), |g.blocks|, n)
    ensures EntersAll(Grown(at, n, g.depth + 1), |g.blocks|, n, g.depth + 1)
  {
    hide Frames, EndFits;
    var at' := Grown(at, n, g.depth + 1);
    var g' := NewBlocks(g, n);
    forall b | 0 <= b < |g'.blocks|
      ensures BlockFits(g'.blocks[b], at'[b], at')
    {
      if b < |g.blocks| {
        EndFitsMore(g.blocks[b].end, Frames(at[b], g.blocks[b].code), at, at');
      } else {
        OpenFits(at'[b], at');
      }
    }
    LoopsFitMore(g.loops, g.depth, at, g.depth, at');
  }

  lemma OpenFits(held: nat, at: Levels)
    ensures BlockFits(Code([], Open), held, at)
  {
  }

  lemma LoopsFitMore(loops: seq<Loop>, depth: nat, at: Levels, depth': nat, at': Levels)
    requires LoopsFit(loops, depth, at) && at <= at' && depth <= depth'
    ensures LoopsFit(loops, depth', at')
  {
    forall l <- loops
      ensures LoopFits(l, depth', at')
    {
      assert LoopFits(l, depth, at);
    }
  }

  /** Moving on to an empty block of this depth. */
  lemma PositionFits(g: Gen, at: Levels, b: nat)
    requires g.err.None? && Fits(g, at) && b < |g.blocks|
    requires Enters(at, b, g.depth + 1) && g.blocks[b].code == []
    ensures Fits(Position(g, b), at)
  {
  }

  // ----- lowering -----

  lemma LowerFits(n: nat, g: Gen, at: Levels, s: Stmt) returns (at': Levels)
    requires g.err.None? && Fits(g, at) && Shape(s) && DefersOk(g.defers) && Lower(n, g, s).err.None?
    ensures at <= at' && Fits(Lower(n, g, s), at')
    decreases n, 1, s, 1
  {
    at' := at;
    if !Terminated(g) {
      hide AllFit, LoopsFit, Frames, Did, DefersOk, Shape;
      match s
      case Block(stmts, own) => at' := BlockCarries(n, g, at, s);
      case Let(name, e) =>
        ExprFits(g, at, e);
        StoreFits(EmitExpr(g, e), at, e.id);
        ScopeFits(Emit(EmitExpr(g, e), [Store(e.id)]), Lower(n, g, s), at);
      case Assign(name, v) => AssignFits(g, at, name, v);
      case Eval(e) => ExprFits(g, at, e);
      case Return(v) => at' := ReturnFits(n, g, at, v);
      case If(_, _, _) => at' := IfFits(n, g, at, s);
      case For(_, _, _, _) => at' := ForFits(n, g, at, s);
      case Switch(_, _) => at' := SwitchFits(n, g, at, s);
      case Break => at' := JumpFits(n, g, at, false);
      case Continue => at' := JumpFits(n, g, at, true);
      case Defer(_) => ScopeFits(g, Lower(n, g, s), at);
    }
  }

  /** What fits does not depend on the locals and defers. */
  lemma ScopeFits(g: Gen, g': Gen, at: Levels)
    requires Fits(g, at) && g' == g.(locals := g'.locals, defers := g'.defers)
    ensures Fits(g', at)
  {
  }

  lemma StoreFits(g: Gen, at: Levels, decl: nat)
    requires g.err.None? && Fits(g, at) && Emit(g, [Store(decl)]).err.None?
    ensures Fits(Emit(g, [Store(decl)]), at)
  {
    FramesOfOne(g.depth + 1, Store(decl));
    EmitFits(g, at, [Store(decl)], g.depth + 1);
  }

  lemma AssignFits(g: Gen, at: Levels, name: string, v: Value)
    requires g.err.None? && Fits(g, at) && Emit(g, AssignEvents(g.locals, g.depth, name, v)).err.None?
    ensures Fits(Emit(g, AssignEvents(g.locals, g.depth, name, v)), at)
  {
    FramesOfAssign(g.locals, g.depth, name, v);
    EmitFits(g, at, AssignEvents(g.locals, g.depth, name, v), g.depth + 1);
  }

  /** Entering a block with its own frame. */
  lemma PushFits(g: Gen, at: Levels)
    requires g.err.None? && Fits(g, at) && Emit(g, [Push]).err.None? && !Terminated(g)
    ensures Fits(Emit(g, [Push]).(depth := g.depth + 1), at)
  {
    FramesOfOne(g.depth + 1, Push);
    EmitFits(g, at, [Push], g.depth + 2);
    LoopsFitMore(g.loops, g.depth, at, g.depth + 1, at);
  }

  lemma PopFits(g: Gen, at: Levels, depth: nat)
    requires g.err.None? && Fits(g, at) && Emit(g, [Pop]).err.None? && g.depth == depth + 1
    requires LoopsFit(g.loops, depth, at)
    ensures Fits(Emit(g, [Pop]).(depth := depth), at)
  {
    FramesOfOne(g.depth + 1, Pop);
    EmitFits(g, at, [Pop], g.depth);
  }

  /** Leaving a block whose end is never reached. */
  lemma ClosedFits(g: Gen, at: Levels, depth: nat)
    requires Fits(g, at) && Terminated(g) && LoopsFit(g.loops, depth, at)
    ensures Fits(g.(depth := depth), at)
  {
  }

  lemma LoopsStillFit(g: Gen, at: Levels, at': Levels)
    requires Fits(g, at) && at <= at'
    ensures LoopsFit(g.loops, g.depth, at')
  {
    LoopsFitMore(g.loops, g.depth, at, g.depth, at');
  }

  lemma AllErr(n: nat, g: Gen, ss: seq<Stmt>)
    requires Ok(g) && LowerAll(n, g, ss).err.None?
    ensures g.err.None?
    decreases |ss|
  {
    if ss != [] { AllErr(n, Lower(n, g, ss[0]), ss[1..]); }
  }

  lemma TodoErr(n: nat, g: Gen, ss: seq<Stmt>)
    requires Ok(g) && LowerTodo(n, g, ss).err.None?
    ensures g.err.None?
    decreases |ss|
  {
    if ss != [] { TodoErr(n, Lower(n, g, ss[|ss| - 1]), ss[..|ss| - 1]); }
  }

  lemma BlockCarries(n: nat, g: Gen, at: Levels, s: Stmt) returns (at': Levels)
    requires g.err.None? && Fits(g, at) && s.Block? && Shape(s) && DefersOk(g.defers) && !Terminated(g)
    requires LowerBlock(n, g, s.stmts, s.own).err.None?
    ensures at <= at' && Fits(LowerBlock(n, g, s.stmts, s.own), at')
    decreases n, 1, s, 0
  {
    hide AllFit, LoopsFit, Frames, Emit, DefersOk, Grows;
    var g1 := if s.own then Emit(g, [Push]).(depth := g.depth + 1) else g;
    var g2 := LowerAll(n, g1, s.stmts);
    AllErr(n, g1, s.stmts);
    if s.own {
      PushFits(g, at);
      EmitScope(g, [Push]);
    }
    at' := AllFits(n, g1, at, s.stmts);
    LowerAllKeeps(n, g1, s.stmts);
    LoopsStillFit(g, at, at');
    if Terminated(g2) {
      ClosedFits(g2, at', g.depth);
      ScopeFits(g2.(depth := g.depth), Leave(g, g2), at');
    } else {
      var q := Deferred(n, g2, |g.defers|);
      DeferredKeeps(n, g2, |g.defers|);
      EmitErr(q, [Pop]);
      var at2 := DeferredFits(n, g2, at', |g.defers|);
      at' := at2;
      LoopsStillFit(g, at, at');
      if s.own {
        PopFits(q, at', g.depth);
        EmitScope(q, [Pop]);
        ScopeFits(Emit(q, [Pop]).(depth := g.depth), Leave(g, Emit(q, [Pop])), at');
      } else {
        ScopeFits(q, Leave(g, q), at');
      }
    }
  }

  lemma EmitScope(g: Gen, es: Trace)
    requires Ok(g)
    ensures SameScope(g, Emit(g, es))
  {
  }

  lemma EmitErr(g: Gen, es: Trace)
    requires Ok(g)
    ensures Emit(g, es).err.None? ==> g.err.None? && (es != [] ==> !Terminated(g))
  {
  }

  lemma EndErr(g: Gen, end: Terminator)
    requires Ok(g)
    ensures End(g, end).err.None? ==> g.err.None? && !Terminated(g)
  {
  }

  lemma AllFits(n: nat, g: Gen, at: Levels, ss: seq<Stmt>) returns (at': Levels)
    requires g.err.None? && Fits(g, at) && DefersOk(g.defers) && (forall x <- ss :: Shape(x))
    requires LowerAll(n, g, ss).err.None?
    ensures at <= at' && Fits(LowerAll(n, g, ss), at')
    decreases n, 1, ss, 2
  {
    hide AllFit, LoopsFit, Frames, DefersOk, Grows, Lower, Shape;
    at' := at;
    if ss != [] {
      var g1 := Lower(n, g, ss[0]);
      AllErr(n, g1, ss[1..]);
      LowerKeeps(n, g, ss[0]);
      at' := LowerFits(n, g, at, ss[0]);
      at' := AllFits(n, g1, at', ss[1..]);
    }
  }

  lemma DeferredFits(n: nat, g: Gen, at: Levels, mark: nat) returns (at': Levels)
    requires g.err.None? && Fits(g, at) && DefersOk(g.defers) && Deferred(n, g, mark).err.None?
    ensures at <= at' && Fits(Deferred(n, g, mark), at')
    decreases n, 0, 0
  {
    at' := at;
    if mark < |g.defers| { at' := TodoFits(n - 1, g, at, g.defers[mark..]); }
  }

  lemma TodoFits(n: nat, g: Gen, at: Levels, todo: seq<Stmt>) returns (at': Levels)
    requires g.err.None? && Fits(g, at) && DefersOk(g.defers) && DefersOk(todo) && LowerTodo(n, g, todo).err.None?
    ensures at <= at' && Fits(LowerTodo(n, g, todo), at')
    decreases n, 1, todo, 2
  {
    hide AllFit, LoopsFit, Frames, Grows, Lower;
    at' := at;
    if todo != [] {
      var d := todo[|todo| - 1];
      assert d in todo;
      var g1 := Lower(n, g, d);
      TodoErr(n, g1, todo[..|todo| - 1]);
      LowerKeeps(n, g, d);
      at' := LowerFits(n, g, at, d);
      at' := TodoFits(n, g1, at', todo[..|todo| - 1]);
    }
  }

  lemma ReturnFits(n: nat, g: Gen, at: Levels, v: Option<Value>) returns (at': Levels)
    requires g.err.None? && Fits(g, at) && DefersOk(g.defers) && LowerReturn(n, g, v).err.None?
    ensures at <= at' && Fits(LowerReturn(n, g, v), at')
    decreases n, 0, 1
  {
    hide AllFit, LoopsFit, Frames, Emit, EmitExpr, End, Epilogue, Deferred, DefersOk, Grows;
    var g1 := if v.Some? then EmitExpr(g, v.value.e) else g;
    var g2 := Deferred(n, g1, 0);
    var out := Epilogue(v, g.depth, g.main);
    EndErr(Emit(g2, out), Ret);
    EmitErr(g2, out);
    DeferredErr(n, g1, 0);
    if v.Some? {
      ExprFits(g, at, v.value.e);
    }
    DeferredKeeps(n, g1, 0);
    at' := DeferredFits(n, g1, at, 0);
    FramesOfEpilogue(v, g.depth, g.main);
    OutFits(g2, at', out);
  }

  lemma DeferredErr(n: nat, g: Gen, mark: nat)
    requires Ok(g)
    ensures Deferred(n, g, mark).err.None? ==> g.err.None?
  {
  }

  /** Returning with no frame left. */
  lemma OutFits(g: Gen, at: Levels, es: Trace)
    requires g.err.None? && Fits(g, at) && Frames(g.depth + 1, es) == 0
    requires Emit(g, es).err.None? && End(Emit(g, es), Ret).err.None?
    ensures Fits(End(Emit(g, es), Ret), at)
  {
    hide Frames;
    EmitFits(g, at, es, 0);
    EndsFit(Emit(g, es), at, Ret);
  }

  lemma JumpFits(n: nat, g: Gen, at: Levels, cont: bool) returns (at': Levels)
    requires g.err.None? && Fits(g, at) && DefersOk(g.defers) && LowerJump(n, g, cont).err.None?
    ensures at <= at' && Fits(LowerJump(n, g, cont), at')
    decreases n, 0, 1
  {
    hide AllFit, LoopsFit, Frames, Emit, Br, Deferred, DefersOk, Grows, EndFits;
    var l := g.loops[LoopFor(g.loops, cont)];
    var g1 := Deferred(n, g, l.defers);
    var pops := Pops(Minus(g.depth, l.depth));
    var to := if cont then l.next.value else l.done;
    BrErr(Emit(g1, pops), to);
    EmitErr(g1, pops);
    DeferredKeeps(n, g, l.defers);
    at' := DeferredFits(n, g, at, l.defers);
    assert l in g.loops;
    TargetFits(g, at, at', l);
    FramesOfPops(g.depth + 1, Minus(g.depth, l.depth));
    LeapFits(g1, at', pops, l.depth, to);
  }

  lemma BrErr(g: Gen, to: nat)
    requires Ok(g)
    ensures Br(g, to).err.None? ==> g.err.None?
  {
  }

  lemma TargetFits(g: Gen, at: Levels, at': Levels, l: Loop)
    requires Fits(g, at) && at <= at' && l in g.loops
    ensures LoopFits(l, g.depth, at')
  {
    LoopsStillFit(g, at, at');
  }

  lemma LeapFits(g: Gen, at: Levels, es: Trace, depth: nat, to: nat)
    requires g.err.None? && Fits(g, at) && Frames(g.depth + 1, es) == depth + 1
    requires Emit(g, es).err.None? && Enters(at, to, depth + 1)
    ensures Fits(Br(Emit(g, es), to), at)
  {
    hide Frames;
    EmitFits(g, at, es, depth + 1);
    if !Terminated(g) { EndsFit(Emit(g, es), at, Jump(to)); }
  }

  // ----- branches -----

  lemma NewBlocksErr(g: Gen, k: nat)
    requires Ok(g)
    ensures NewBlocks(g, k).err == g.err
  {
  }

  lemma PositionErr(g: Gen, b: nat)
    requires Ok(g)
    ensures Position(g, b).err == g.err
  {
  }

  /** One arm, lowered into its own empty block. */
  lemma ArmFits(n: nat, g: Gen, at: Levels, s: Stmt, b: nat, done: nat) returns (at': Levels)
    requires g.err.None? && Fits(g, at) && DefersOk(g.defers) && Arm(s) && Shape(s) && Blank(g, b)
    requires Enters(at, b, g.depth + 1) && Enters(at, done, g.depth + 1)
    requires Br(Lower(n, Position(g, b), s), done).err.None?
    ensures at <= at' && Fits(Br(Lower(n, Position(g, b), s), done), at')
    ensures SameScope(g, Br(Lower(n, Position(g, b), s), done))
    ensures forall e :: e != b && Blank(g, e) ==> Blank(Br(Lower(n, Position(g, b), s), done), e)
    decreases n, 1, s, 2
  {
    hide Frames, Lower, Shape, DefersOk;
    PositionFits(g, at, b);
    var p := Position(g, b);
    BrErr(Lower(n, p, s), done);
    LowerKeeps(n, p, s);
    at' := LowerFits(n, p, at, s);
    BrFits(Lower(n, p, s), at', done);
    OthersEmpty(p, Lower(n, p, s), Br(Lower(n, p, s), done), b);
  }

  lemma OthersEmpty(p: Gen, q: Gen, r: Gen, b: nat)
    requires Grows(p, q) && p.cur == b && Ok(r) && r.(blocks := q.blocks) == q && |r.blocks| == |q.blocks|
    requires forall k :: 0 <= k < |q.blocks| && k != q.cur ==> r.blocks[k] == q.blocks[k]
    ensures forall e :: e != b && Blank(p, e) ==> Blank(r, e)
  {
  }

  lemma IfFits(n: nat, g: Gen, at: Levels, s: Stmt) returns (at': Levels)
    requires g.err.None? && Fits(g, at) && DefersOk(g.defers) && s.If? && Shape(s) && !Terminated(g)
    requires Lower(n, g, s).err.None?
    ensures at <= at' && Fits(Lower(n, g, s), at')
    decreases n, 1, s, 0
  {
    hide AllFit, LoopsFit, Frames, EmitExpr, End, Br, NewBlocks, Position, DefersOk, Blank, Enters;
    var b := |g.blocks|;
    var g1 := End(NewBlocks(EmitExpr(g, s.c), 3), Cond(true, b, b + 1));
    var g2 := Br(Lower(n, Position(g1, b), s.yes), b + 2);
    var g3 := Position(g2, b + 1);
    var g4 := if s.no.Some? then Lower(n, g3, s.no.value) else g3;
    PositionErr(Br(g4, b + 2), b + 2);
    BrErr(g4, b + 2);
    ElseErr(n, g2, s.no, b + 1);
    ThenErr(n, g1, s.yes, b, b + 2);
    var at1 := BranchFits(g, at, s.c);
    var at2 := ArmFits(n, g1, at1, s.yes, b, b + 2);
    EntersMore(at1, at2, b + 1, g.depth + 1);
    EntersMore(at1, at2, b + 2, g.depth + 1);
    at' := ElseFits(n, g2, at2, s.no, b + 1, b + 2);
    EmptyFits(Br(g4, b + 2), at', b + 2);
  }

  lemma ElseFits(n: nat, g: Gen, at: Levels, s: Option<Stmt>, b: nat, done: nat) returns (at': Levels)
    requires g.err.None? && Fits(g, at) && DefersOk(g.defers) && Blank(g, b) && Blank(g, done) && b != done
    requires s.Some? ==> Arm(s.value) && Shape(s.value)
    requires Enters(at, b, g.depth + 1) && Enters(at, done, g.depth + 1)
    requires Br(if s.Some? then Lower(n, Position(g, b), s.value) else Position(g, b), done).err.None?
    ensures var g' := Br(if s.Some? then Lower(n, Position(g, b), s.value) else Position(g, b), done);
            && at <= at' && Fits(g', at') && SameScope(g, g') && Blank(g', done)
            && Enters(at', done, g.depth + 1)
    decreases n, 1, s, 3
  {
    hide AllFit, LoopsFit, Frames, Lower, Br, Position, DefersOk, Blank, Enters;
    at' := at;
    if s.Some? {
      at' := ArmFits(n, g, at, s.value, b, done);
      EntersMore(at, at', done, g.depth + 1);
    } else {
      EmptyFits(g, at, b);
      BrFits(Position(g, b), at, done);
      BrOnly(Position(g, b), done);
      OthersEmptyHere(g, b, done);
    }
  }

  /** Three new blocks behind a condition. */
  lemma BranchFits(g: Gen, at: Levels, c: Expr) returns (at': Levels)
    requires g.err.None? && Fits(g, at) && !Terminated(g)
    requires End(NewBlocks(EmitExpr(g, c), 3), Cond(true, |g.blocks|, |g.blocks| + 1)).err.None?
    ensures var b := |g.blocks|;
            var g1 := End(NewBlocks(EmitExpr(g, c), 3), Cond(true, b, b + 1));
            && at <= at' && Fits(g1, at') && SameScope(g, g1) && Blank(g1, b) && Blank(g1, b + 1) && Blank(g1, b + 2)
            && Enters(at', b, g.depth + 1) && Enters(at', b + 1, g.depth + 1) && Enters(at', b + 2, g.depth + 1)
  {
    hide AllFit, LoopsFit, Frames, EmitExpr, End, NewBlocks, Blank, Enters;
    var b := |g.blocks|;
    var held := g.depth + 1;
    GrownEnters(g, at, 3);
    assert Enters(Grown(at, 3, held), b, held) && Enters(Grown(at, 3, held), b + 1, held);
    CondEnds(Cond(true, b, b + 1), held, Grown(at, 3, held));
    at' := CondFits(g, at, c, Cond(true, b, b + 1), 3);
  }

  lemma ThenErr(n: nat, g: Gen, s: Stmt, b: nat, done: nat)
    requires Ok(g)
    ensures Br(Lower(n, Position(g, b), s), done).err.None? ==> g.err.None?
  {
  }

  lemma ElseErr(n: nat, g: Gen, s: Option<Stmt>, b: nat)
    requires Ok(g)
    ensures (if s.Some? then Lower(n, Position(g, b), s.value) else Position(g, b)).err.None? ==> g.err.None?
  {
  }

  lemma EntersMore(at: Levels, at': Levels, b: nat, held: int)
    requires Enters(at, b, held) && at <= at'
    ensures Enters(at', b, held)
  {
    assert at[b] == at'[b];
  }

  lemma EmptyFits(g: Gen, at: Levels, b: nat)
    requires g.err.None? && Fits(g, at) && Blank(g, b) && Enters(at, b, g.depth + 1)
    ensures Fits(Position(g, b), at) && SameScope(g, Position(g, b)) && Position(g, b).err.None?
  {
    PositionFits(g, at, b);
  }

  lemma BrOnly(g: Gen, to: nat)
    requires Ok(g)
    ensures SameScope(g, Br(g, to))
  {
  }

  lemma OthersEmptyHere(g: Gen, b: nat, to: nat)
    requires Ok(g) && g.err.None? && Blank(g, b)
    ensures forall e :: e != b && Blank(g, e) ==> Blank(Br(Position(g, b), to), e)
  {
  }

  lemma GrownEnters(g: Gen, at: Levels, k: nat)
    requires Fits(g, at)
    ensures EntersAll(Grown(at, k, g.depth + 1), |g.blocks|, k, g.depth + 1)
  {
  }

  /** An expression, new blocks, and a terminator whose targets are among them. */
  lemma CondFits(g: Gen, at: Levels, e: Expr, end: Terminator, k: nat) returns (at': Levels)
    requires g.err.None? && Fits(g, at) && end != Open && !Terminated(g)
    requires End(NewBlocks(EmitExpr(g, e), k), end).err.None?
    requires EndFits(end, g.depth + 1, Grown(at, k, g.depth + 1))
    ensures var g1 := End(NewBlocks(EmitExpr(g, e), k), end);
            && at <= at' && Fits(g1, at') && SameScope(g, g1)
            && EntersAll(at', |g.blocks|, k, g.depth + 1) && AllBlank(g1, |g.blocks|, k)
  {
    hide Frames, EndFits, Enters, EntersAll;
    var a := EmitExpr(g, e);
    NewBlocksErr(a, k);
    EndErr(NewBlocks(a, k), end);
    ExprFits(g, at, e);
    at' := Grown(at, k, g.depth + 1);
    NewBlocksFit(a, at, k);
    EndsFit(NewBlocks(a, k), at', end);
  }

  // ----- loops -----

  lemma EntersAllMore(at: Levels, at': Levels, first: nat, k: nat, held: int)
    requires EntersAll(at, first, k, held) && at <= at'
    ensures EntersAll(at', first, k, held)
  {
    forall b: nat | first <= b < first + k
      ensures Enters(at', b, held)
    {
      EntersMore(at, at', b, held);
    }
  }

  lemma ForFits(n: nat, g: Gen, at: Levels, s: Stmt) returns (at': Levels)
    requires g.err.None? && Fits(g, at) && DefersOk(g.defers) && s.For? && Shape(s) && !Terminated(g)
    requires LowerFor(n, g, s).err.None?
    ensures at <= at' && Fits(LowerFor(n, g, s), at')
    decreases n, 1, s, 0
  {
    hide AllFit, LoopsFit, Frames, Lower, ForHead, ForTail, DefersOk, EntersAll, Shape, Grows;
    var g0 := if s.init.Some? then Lower(n, g, s.init.value) else g;
    var inner := ForHead(g0, s);
    var g4 := Lower(n, inner, s.body);
    var g7 := ForTail(PopLoop(g4), s, |g0.blocks|);
    ForErr(n, g, s, g0, inner, g4, g7);
    ForShape(s);
    var at0 := at;
    if s.init.Some? {
      LowerKeeps(n, g, s.init.value);
      at0 := LowerFits(n, g, at, s.init.value);
    }
    var at1 := HeadFits(g0, at0, s);
    ForHeadKeeps(g0, s);
    LowerKeeps(n, inner, s.body);
    var at2 := LowerFits(n, inner, at1, s.body);
    at' := at2;
    EntersAllMore(at1, at2, |g0.blocks|, 4, g0.depth + 1);
    StillEmpty(inner, g4, |g0.blocks|);
    PopLoopFits(g4, at2);
    TailFits(PopLoop(g4), at2, s, |g0.blocks|);
    ScopeFits(g7, LowerFor(n, g, s), at2);
  }

  lemma ForErr(n: nat, g: Gen, s: Stmt, g0: Gen, inner: Gen, g4: Gen, g7: Gen)
    requires Ok(g) && s.For? && g0 == (if s.init.Some? then Lower(n, g, s.init.value) else g)
    requires inner == ForHead(g0, s) && g4 == Lower(n, inner, s.body) && g7 == ForTail(PopLoop(g4), s, |g0.blocks|)
    requires g7.err.None?
    ensures g4.err.None? && inner.err.None? && g0.err.None?
  {
    hide Lower, ForHead, ForTail;
    TailErr(PopLoop(g4), s, |g0.blocks|);
    LowerErr(n, inner, s.body);
    HeadErr(g0, s);
  }

  lemma LowerErr(n: nat, g: Gen, s: Stmt)
    requires Ok(g)
    ensures Lower(n, g, s).err.None? ==> g.err.None?
  {
  }

  lemma HeadErr(g0: Gen, s: Stmt)
    requires Ok(g0) && s.For?
    ensures ForHead(g0, s).err.None? ==> g0.err.None?
  {
  }

  lemma TailErr(g4: Gen, s: Stmt, b: nat)
    requires Ok(g4) && s.For?
    ensures ForTail(g4, s, b).err.None? ==> g4.err.None?
  {
  }

  lemma StillEmpty(inner: Gen, g4: Gen, b: nat)
    requires Grows(inner, g4) && Blank(inner, b + 2) && Blank(inner, b + 3) && inner.cur == b + 1
    ensures Blank(g4, b + 2) && Blank(g4, b + 3) && g4.cur != b + 2 && g4.cur != b + 3
  {
  }

  lemma PopLoopFits(g: Gen, at: Levels)
    requires Fits(g, at)
    ensures Fits(PopLoop(g), at)
  {
    hide Frames, AllFit, LoopFits;
  }

  lemma HeadFits(g0: Gen, at: Levels, s: Stmt) returns (at': Levels)
    requires g0.err.None? && Fits(g0, at) && s.For? && ForHead(g0, s).err.None?
    ensures at <= at' && Fits(ForHead(g0, s), at') && EntersAll(at', |g0.blocks|, 4, g0.depth + 1)
    ensures ForHead(g0, s).cur == |g0.blocks| + 1
    ensures Blank(ForHead(g0, s), |g0.blocks| + 2) && Blank(ForHead(g0, s), |g0.blocks| + 3)
  {
    hide AllFit, LoopsFit, Frames, EmitExpr, NewBlocks, Br, End, Enters, EndFits, Blank;
    var b := |g0.blocks|;
    at' := FreshFits(g0, at, b);
    var g1 := Position(Br(NewBlocks(g0, 4), b), b);
    var g2 := if s.cond.Some? then EmitExpr(g1, s.cond.value) else g1;
    var end := Cond(s.cond.Some?, b + 1, b + 3);
    EndErr(g2, end);
    if s.cond.Some? {
      ExprFits(g1, at', s.cond.value);
      ExprKept(g1, s.cond.value);
    }
    CondEnds(end, g0.depth + 1, at');
    EndsNow(g2, at', end);
    forall k | b + 1 <= k <= b + 3
      ensures Blank(End(g2, end), k)
    {
      EmptyKept(g1, g2, k);
      EmptyKept(g2, End(g2, end), k);
    }
    EmptyFits(End(g2, end), at', b + 1);
    var g3 := Position(End(g2, end), b + 1);
    OpenLoopFits(g3, at', Loop(b + 3, Some(b + 2), |g3.defers|, g3.depth));
    EmptySame(g3, ForHead(g0, s), b + 2);
    EmptySame(g3, ForHead(g0, s), b + 3);
    EmptySame(End(g2, end), g3, b + 2);
    EmptySame(End(g2, end), g3, b + 3);
    EmptyIn(End(g2, end), b + 1);
  }

  lemma EmptyIn(g: Gen, b: nat)
    requires Ok(g) && Blank(g, b) && g.err.None?
    ensures Position(g, b).cur == b
  {
  }

  /** Four new blocks, the first of them current. */
  lemma FreshFits(g0: Gen, at: Levels, b: nat) returns (at': Levels)
    requires g0.err.None? && Fits(g0, at) && b == |g0.blocks|
    ensures var g1 := Position(Br(NewBlocks(g0, 4), b), b);
            && at <= at' && Fits(g1, at') && EntersAll(at', b, 4, g0.depth + 1) && SameScope(g0, g1)
            && g1.err.None? && g1.cur == b && !Terminated(g1)
            && Blank(g1, b + 1) && Blank(g1, b + 2) && Blank(g1, b + 3)
  {
    hide AllFit, LoopsFit, Frames, NewBlocks, Br, Enters;
    at' := Grown(at, 4, g0.depth + 1);
    NewBlocksFit(g0, at, 4);
    var a := NewBlocks(g0, 4);
    assert Enters(at', b, g0.depth + 1) && Blank(a, b) && Blank(a, b + 1) && Blank(a, b + 2) && Blank(a, b + 3);
    BrFits(a, at', b);
    OthersKept(a, b);
    EmptyFits(Br(a, b), at', b);
  }

  ghost predicate OnlyCur(g: Gen, g': Gen) {
    && |g'.blocks| == |g.blocks| && g'.cur == g.cur
    && forall k :: 0 <= k < |g.blocks| && k != g.cur ==> g'.blocks[k] == g.blocks[k]
  }

  lemma EmptyKept(g: Gen, g': Gen, b: nat)
    requires OnlyCur(g, g') && Blank(g, b) && b != g.cur
    ensures Blank(g', b)
  {
  }

  lemma OthersKept(g: Gen, to: nat)
    requires Ok(g)
    ensures OnlyCur(g, Br(g, to))
  {
  }

  lemma ExprKept(g: Gen, e: Expr)
    requires Ok(g)
    ensures OnlyCur(g, EmitExpr(g, e))
  {
  }

  lemma CondEnds(end: Terminator, held: int, at: Levels)
    requires end.Cond? && Enters(at, end.yes, held) && Enters(at, end.no, held)
    ensures EndFits(end, held, at)
  {
  }

  lemma EndsNow(g: Gen, at: Levels, end: Terminator)
    requires g.err.None? && Fits(g, at) && end != Open && End(g, end).err.None?
    requires EndFits(end, g.depth + 1, at)
    ensures Fits(End(g, end), at) && End(g, end).(blocks := g.blocks) == g && |End(g, end).blocks| == |g.blocks|
    ensures OnlyCur(g, End(g, end))
  {
    hide EndFits, Frames;
    EndsFit(g, at, end);
  }

  lemma OpenLoopFits(g: Gen, at: Levels, l: Loop)
    requires Fits(g, at) && l.depth == g.depth && Enters(at, l.done, g.depth + 1)
    requires l.next.Some? ==> Enters(at, l.next.value, g.depth + 1)
    ensures Fits(g.(loops := g.loops + [l]), at)
  {
    hide Frames, AllFit;
  }

  lemma TailFits(g4: Gen, at: Levels, s: Stmt, b: nat)
    requires g4.err.None? && Fits(g4, at) && s.For? && ForTail(g4, s, b).err.None?
    requires EntersAll(at, b, 4, g4.depth + 1) && Blank(g4, b + 2) && Blank(g4, b + 3)
    requires b + 2 != g4.cur && b + 3 != g4.cur
    ensures Fits(ForTail(g4, s, b), at)
  {
    hide AllFit, LoopsFit, Frames, EmitExpr, Enters;
    BrFits(g4, at, b + 2);
    OthersKept(g4, b + 2);
    EmptyFits(Br(g4, b + 2), at, b + 2);
    var g5 := Position(Br(g4, b + 2), b + 2);
    var p := if s.post.Some? then EmitExpr(g5, s.post.value) else g5;
    BrErr(p, b);
    if s.post.Some? {
      ExprFits(g5, at, s.post.value);
      ExprKept(g5, s.post.value);
    }
    BrFits(p, at, b);
    OthersKept(p, b);
    EmptyFits(Br(p, b), at, b + 3);
  }

  // ----- switches -----

  lemma TableEnds(cases: seq<Case>, first: nat, other: nat, at: Levels, held: int)
    requires EntersAll(at, first, |cases|, held) && Enters(at, other, held)
    ensures Enters(at, OtherFrom(cases, first, other), held)
    ensures forall l <- LabelsFrom(cases, first) :: Enters(at, l.1, held)
    decreases |cases|
  {
    hide Enters;
    if cases != [] {
      assert Enters(at, first, held);
      TableEnds(cases[1..], first + 1, if cases[0].lab.None? then first else other, at, held);
    }
  }

  lemma SwitchFits(n: nat, g: Gen, at: Levels, s: Stmt) returns (at': Levels)
    requires g.err.None? && Fits(g, at) && DefersOk(g.defers) && s.Switch? && Shape(s) && !Terminated(g)
    requires LowerSwitch(n, g, s.e, s.cases).err.None?
    ensures at <= at' && Fits(LowerSwitch(n, g, s.e, s.cases), at')
    decreases n, 1, s, 0
  {
    hide AllFit, LoopsFit, Frames, EmitExpr, End, NewBlocks, Enters, EndFits, DefersOk, LowerCases, Shape, Grows, Position, Blank;
    var cases := s.cases;
    var done := |g.blocks|;
    var end := Table(LabelsFrom(cases, done + 1), OtherFrom(cases, done + 1, done));
    var g2 := End(NewBlocks(EmitExpr(g, s.e), 1 + |cases|), end);
    var g3 := g2.(loops := g2.loops + [Loop(done, None, |g2.defers|, g2.depth)]);
    var g4 := LowerCases(n, g3, cases, done + 1, done);
    PositionErr(PopLoop(g4), done);
    CasesErr(n, g3, cases, done + 1, done);
    var at0 := Grown(at, 1 + |cases|, g.depth + 1);
    GrownEnters(g, at, 1 + |cases|);
    Halves(at0, done, |cases|, g.depth + 1);
    TableEnds(cases, done + 1, done, at0, g.depth + 1);
    TableFits(end, g.depth + 1, at0);
    var at1 := CondFits(g, at, s.e, end, 1 + |cases|);
    Halves(at1, done, |cases|, g.depth + 1);
    OpenLoopFits(g2, at1, Loop(done, None, |g2.defers|, g2.depth));
    EmptyHalves(g2, g3, done, |cases|);
    SwitchParts(s);
    at' := CasesFit(n, g3, at1, cases, done + 1, done);
    EntersMore(at1, at', done, g.depth + 1);
    PopLoopFits(g4, at');
    EmptySame(g4, PopLoop(g4), done);
    EmptyFits(PopLoop(g4), at', done);
  }

  lemma TableFits(end: Terminator, held: int, at: Levels)
    requires end.Table? && Enters(at, end.other, held) && forall l <- end.labels :: Enters(at, l.1, held)
    ensures EndFits(end, held, at)
  {
  }

  lemma Halves(at: Levels, done: nat, k: nat, held: int)
    requires EntersAll(at, done, 1 + k, held)
    ensures Enters(at, done, held) && EntersAll(at, done + 1, k, held)
  {
  }

  /** Opening the loop leaves the case blocks empty. */
  lemma EmptyHalves(g: Gen, g': Gen, done: nat, k: nat)
    requires g'.blocks == g.blocks && AllBlank(g, done, 1 + k)
    ensures Blank(g', done) && AllBlank(g', done + 1, k)
  {
    assert Blank(g, done);
    forall b: nat | done + 1 <= b < done + 1 + k
      ensures Blank(g', b)
    {
      assert Blank(g, b);
    }
  }

  lemma EmptySame(g: Gen, g': Gen, b: nat)
    requires g'.blocks == g.blocks
    ensures Blank(g', b) == Blank(g, b)
  {
  }

  lemma SwitchParts(s: Stmt)
    requires s.Switch? && Shape(s)
    ensures forall c <- s.cases :: c.body.Block? && Shape(c.body)
  {
  }

  lemma CasesErr(n: nat, g: Gen, cases: seq<Case>, first: nat, done: nat)
    requires Ok(g) && LowerCases(n, g, cases, first, done).err.None?
    ensures g.err.None?
    decreases |cases|
  {
    hide Lower, Br, Position;
    if cases != [] {
      CasesErr(n, Br(Lower(n, Position(g, first), cases[0].body), done), cases[1..], first + 1, done);
      ThenErr(n, g, cases[0].body, first, done);
    }
  }

  lemma CasesFit(n: nat, g: Gen, at: Levels, cases: seq<Case>, first: nat, done: nat) returns (at': Levels)
    requires g.err.None? && Fits(g, at) && DefersOk(g.defers) && (forall c <- cases :: c.body.Block? && Shape(c.body))
    requires LowerCases(n, g, cases, first, done).err.None? && done < first
    requires EntersAll(at, first, |cases|, g.depth + 1) && Enters(at, done, g.depth + 1)
    requires Blank(g, done) && AllBlank(g, first, |cases|)
    ensures at <= at' && Fits(LowerCases(n, g, cases, first, done), at')
    ensures SameScope(g, LowerCases(n, g, cases, first, done)) && Blank(LowerCases(n, g, cases, first, done), done)
    ensures LowerCases(n, g, cases, first, done).err.None?
    decreases n, 1, cases, 2
  {
    hide AllFit, LoopsFit, Frames, Lower, Br, Position, Enters, DefersOk, Shape, Blank;
    at' := at;
    if cases != [] {
      var c := cases[0];
      assert c in cases && c.body < c;
      var g1 := Br(Lower(n, Position(g, first), c.body), done);
      CasesErr(n, g1, cases[1..], first + 1, done);
      assert Enters(at, first, g.depth + 1);
      at' := ArmFits(n, g, at, c.body, first, done);
      EntersAllMore(at, at', first, |cases|, g.depth + 1);
      EntersMore(at, at', done, g.depth + 1);
      at' := CasesFit(n, g1, at', cases[1..], first + 1, done);
    }
  }

  // ----- whole functions -----

  /** What the machine has run, seen from the caller. */
  ghost predicate Held(p: Program, at: Levels, c: Config) {
    match c
    case At(b, pc, t) =>
      && b < |p| && b < |at| && pc <= |p[b].code|
      && Frames(0, t) == Frames(at[b], p[b].code[..pc]) >= 0
    case Halted(t) => Frames(0, t) == 0
    case Stuck => true
  }

  lemma StepHeld(p: Program, w: World, at: Levels, c: Config)
    requires AllFit(p, at) && Held(p, at, c)
    ensures Held(p, at, Step(p, w, c))
  {
    if c.At? {
      var b := p[c.block];
      assert BlockFits(b, at[c.block], at);
      if c.pc < |b.code| {
        var e := b.code[c.pc];
        FramesPlus(0, c.t, [e]);
        FramesPlus(at[c.block], b.code[..c.pc], [e]);
        assert b.code[..c.pc + 1] == b.code[..c.pc] + [e];
        assert b.code == b.code[..c.pc + 1] + b.code[c.pc + 1..];
        FramesStick(at[c.block], b.code[..c.pc + 1], b.code[c.pc + 1..]);
      } else {
        assert b.code[..c.pc] == b.code;
        EndHeld(p, w, at, c, b);
      }
    }
  }

  lemma EndHeld(p: Program, w: World, at: Levels, c: Config, b: Code)
    requires |at| == |p| && c.At? && c.block < |p| && b == p[c.block] && c.pc == |b.code|
    requires Frames(0, c.t) >= 0 && EndFits(b.end, Frames(0, c.t), at)
    ensures Held(p, at, Step(p, w, c))
  {
    hide Frames;
    forall to: nat | Enters(at, to, Frames(0, c.t))
      ensures Held(p, at, At(to, 0, c.t))
    {
      assert p[to].code[..0] == [];
      FramesOfNothing(at[to]);
    }
    if b.end.Table? { TargetIn(b.end.labels, b.end.other, w(Effects(c.t))); }
  }

  lemma TargetIn(labels: seq<(int, nat)>, other: nat, v: int)
    ensures Target(labels, other, v) == other || exists l <- labels :: Target(labels, other, v) == l.1
    decreases |labels|
  {
    if labels != [] && labels[0].0 != v {
      TargetIn(labels[1..], other, v);
      if l :| l in labels[1..] && Target(labels[1..], other, v) == l.1 { assert l in labels; }
    }
  }

  lemma {:induction false} StepsHeld(p: Program, w: World, at: Levels, c: Config, k: nat)
    requires AllFit(p, at) && Held(p, at, c)
    ensures Held(p, at, Steps(p, w, c, k))
    decreases k
  {
    if k > 0 {
      StepHeld(p, w, at, c);
      StepsHeld(p, w, at, Step(p, w, c), k - 1);
    }
  }

  lemma FunctionFits(n: nat, body: Stmt, params: Env, main: bool) returns (at: Levels)
    requires Shape(body) && LowerFunction(n, body, params, main).err.None?
    ensures AllFit(LowerFunction(n, body, params, main).blocks, at) && |at| > 0 && at[0] == 0
  {
    hide Lower, Emit, Frames, Epilogue, Shape;
    var g0 := Start(params, main);
    var g1 := Emit(g0, Entry(main));
    var g2 := Lower(n, g1, body);
    EntryFits(params, main);
    FunctionErr(n, body, params, main);
    LowerKeeps(n, g1, body);
    at := LowerFits(n, g1, [0], body);
    if !Closed(g2) {
      FramesOfEpilogue(None, g2.depth, main);
      OutFits(g2, at, Epilogue(None, g2.depth, main));
    }
  }

  lemma FunctionErr(n: nat, body: Stmt, params: Env, main: bool)
    requires LowerFunction(n, body, params, main).err.None?
    ensures var g1 := Emit(Start(params, main), Entry(main));
            var g2 := Lower(n, g1, body);
            var g3 := Emit(g2, Epilogue(None, g2.depth, main));
            && g1.err.None? && g2.err.None?
            && (!Closed(g2) ==> g3.err.None? && End(g3, Ret).err.None?)
  {
    hide Lower, Epilogue;
    var g2 := Lower(n, Emit(Start(params, main), Entry(main)), body);
    EndErr(Emit(g2, Epilogue(None, g2.depth, main)), Ret);
  }

  lemma EntryFits(params: Env, main: bool)
    ensures var g1 := Emit(Start(params, main), Entry(main));
            g1.err.None? && Fits(g1, [0]) && g1.defers == []
  {
    var code := [] + Entry(main);
    assert code[..|code| - 1] == (if main then [Init] else []);
    if main { FramesOfOne(0, Init); }
  }

  /** Every world, every step: a block is always entered with its own number of frames, none
      is popped or moved past the function's own, and a halted run has popped them all. */
  lemma FramesBalanced(n: nat, body: Stmt, params: Env, main: bool) returns (at: Levels)
    requires Shape(body) && LowerFunction(n, body, params, main).err.None?
    ensures var p := LowerFunction(n, body, params, main).blocks;
            && |at| == |p|
            && forall w: World, k: nat {:trigger Steps(p, w, FROM_START, k)} ::
                 match Steps(p, w, FROM_START, k)
                 case At(b, pc, t) => Frames(0, t) >= 0 && (pc == 0 ==> b < |at| && Frames(0, t) == at[b])
                 case Halted(t) => Frames(0, t) == 0
                 case Stuck => true
  {
    hide LowerFunction, Frames, Shape;
    at := FunctionFits(n, body, params, main);
    var p := LowerFunction(n, body, params, main).blocks;
    forall w: World, k: nat
      ensures Held(p, at, Steps(p, w, FROM_START, k))
      ensures match Steps(p, w, FROM_START, k)
              case At(b, pc, t) => Frames(0, t) >= 0 && (pc == 0 ==> b < |at| && Frames(0, t) == at[b])
              case Halted(t) => Frames(0, t) == 0
              case Stuck => true
    {
      FramesOfNothing(0);
      assert p[0].code[..0] == [];
      StepsHeld(p, w, at, FROM_START, k);
      var c := Steps(p, w, FROM_START, k);
      if c.At? && c.pc == 0 {
        assert p[c.block].code[..0] == [];
        FramesOfNothing(at[c.block]);
      }
    }
  }
}
