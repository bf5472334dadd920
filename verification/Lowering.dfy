/** The lowering of statements to basic blocks (control.rs:60-377, ir.rs:83-100, 217-229)
    as a function of the generator's state. The first error stops it, as the source's `?`
    does. */
module Lowering {
  import opened Wrappers
  import opened Syntax
  import opened SourceSemantics
  import opened BasicBlocks

  /** Malformed stands for code the LLVM verifier rejects, Endless for a chain of deferred
      statements that expand each other deeper than the nesting bound. */
  datatype Error = UnknownName | OutsideLoop | Malformed | Endless

  datatype Loop = Loop(done: nat, next: Option<nat>, defers: nat, depth: nat)

  datatype Gen = Gen(main: bool, blocks: Program, cur: nat, depth: nat, locals: Env, defers: seq<Stmt>, loops: seq<Loop>, err: Option<Error>)

  predicate Ok(g: Gen) { g.cur < |g.blocks| }

  predicate Terminated(g: Gen)
    requires Ok(g)
  {
    g.blocks[g.cur].end != Open
  }

  /** Nothing more is emitted: the block is closed, or an error was raised. */
  predicate Closed(g: Gen)
    requires Ok(g)
  {
    g.err.Some? || Terminated(g)
  }

  function Fail(g: Gen, e: Error): Gen { if g.err.Some? then g else g.(err := Some(e)) }

  function Emit(g: Gen, es: Trace): (g': Gen)
    requires Ok(g)
    ensures Ok(g')
  {
    if g.err.Some? || es == [] then g
    else if Terminated(g) then Fail(g, Malformed)
    else g.(blocks := g.blocks[g.cur := Code(g.blocks[g.cur].code + es, Open)])
  }

  function EmitExpr(g: Gen, e: Expr): (g': Gen)
    requires Ok(g)
    ensures Ok(g')
  {
    if Known(g.locals, e.uses) then Emit(g, [Did(g.locals, e)]) else Fail(g, UnknownName)
  }

  function End(g: Gen, end: Terminator): (g': Gen)
    requires Ok(g)
    ensures Ok(g')
  {
    if g.err.Some? then g
    else if Terminated(g) then Fail(g, Malformed)
    else g.(blocks := g.blocks[g.cur := g.blocks[g.cur].(end := end)])
  }

  /** Branch unless the block is closed already. */
  function Br(g: Gen, to: nat): (g': Gen)
    requires Ok(g)
    ensures Ok(g')
  {
    if Closed(g) then g else End(g, Jump(to))
  }

  function NewBlocks(g: Gen, n: nat): (g': Gen)
    requires Ok(g)
    ensures Ok(g')
  {
    if g.err.Some? then g else g.(blocks := g.blocks + seq(n, _ => Code([], Open)))
  }

  function Position(g: Gen, b: nat): (g': Gen)
    requires Ok(g)
    ensures Ok(g')
  {
    if g.err.Some? || b >= |g.blocks| then g else g.(cur := b)
  }

  /** The innermost loop, or for `continue` the innermost that is not a switch. */
  function LoopFor(loops: seq<Loop>, cont: bool): (i: int)
    ensures -1 <= i < |loops|
    ensures i >= 0 && cont ==> loops[i].next.Some?
  {
    if loops == [] then -1
    else if !cont || loops[|loops| - 1].next.Some? then |loops| - 1
    else LoopFor(loops[..|loops| - 1], cont)
  }

  function Minus(a: nat, b: nat): nat { if a > b then a - b else 0 }

  /** `n` bounds how deeply deferred statements may expand inside one another. */
  function Lower(n: nat, g: Gen, s: Stmt): (g': Gen)
    requires Ok(g)
    ensures Ok(g')
    decreases n, 1, s, 1
  {
    if Closed(g) then g
    else
      match s
      case Block(stmts, own) => LowerBlock(n, g, stmts, own)
      case Let(name, e) =>
        var g1 := EmitExpr(g, e);
        var g2 := Emit(g1, [Store(e.id)]);
        g2.(locals := g2.locals + [Local(name, e.id, g.depth)])
      case Assign(name, v) =>
        if Find(g.locals, name) < 0 || !Known(g.locals, v.e.uses) then Fail(g, UnknownName)
        else Emit(g, AssignEvents(g.locals, g.depth, name, v))
      case Eval(e) => EmitExpr(g, e)
      case Return(v) => LowerReturn(n, g, v)
      case If(c, yes, no) =>
        var b := |g.blocks|;
        var g1 := End(NewBlocks(EmitExpr(g, c), 3), Cond(true, b, b + 1));
        var g2 := Br(Lower(n, Position(g1, b), yes), b + 2);
        var g3 := Position(g2, b + 1);
        var g4 := Br(if no.Some? then Lower(n, g3, no.value) else g3, b + 2);
        Position(g4, b + 2)
      case For(init, cond, post, body) => LowerFor(n, g, s)
      case Switch(e, cases) => LowerSwitch(n, g, e, cases)
      case Break => LowerJump(n, g, false)
      case Continue => LowerJump(n, g, true)
      case Defer(d) => g.(defers := g.defers + [d])
  }

  function LowerBlock(n: nat, g: Gen, stmts: seq<Stmt>, own: bool): (g': Gen)
    requires Ok(g)
    ensures Ok(g')
    decreases n, 1, stmts, 3
  {
    var g1 := if own then Emit(g, [Push]).(depth := g.depth + 1) else g;
    var g2 := LowerAll(n, g1, stmts);
    var g3 := if Closed(g2) then g2
              else
                var q := Deferred(n, g2, |g.defers|);
                if own then Emit(q, [Pop]) else q;
    Leave(g, g3)
  }

  /** At the end of a block its defers and locals are forgotten. */
  function Leave(g: Gen, g': Gen): (g'': Gen)
    requires Ok(g')
    ensures Ok(g'')
  {
    g'.(depth := g.depth,
        defers := if |g.defers| <= |g'.defers| then g'.defers[..|g.defers|] else g'.defers,
        locals := if |g.locals| <= |g'.locals| then g'.locals[..|g.locals|] else g'.locals)
  }

  function LowerAll(n: nat, g: Gen, ss: seq<Stmt>): (g': Gen)
    requires Ok(g)
    ensures Ok(g')
    decreases n, 1, ss, 2
  {
    if ss == [] then g else LowerAll(n, Lower(n, g, ss[0]), ss[1..])
  }

  /** All defers above the mark, newest first. They stay registered while they are lowered. */
  function Deferred(n: nat, g: Gen, mark: nat): (g': Gen)
    requires Ok(g)
    ensures Ok(g')
    decreases n, 0, 0
  {
    if g.err.Some? || mark >= |g.defers| then g
    else if n == 0 then Fail(g, Endless)
    else LowerTodo(n - 1, g, g.defers[mark..])
  }

  function LowerTodo(n: nat, g: Gen, todo: seq<Stmt>): (g': Gen)
    requires Ok(g)
    ensures Ok(g')
    decreases n, 1, todo, 2
  {
    if todo == [] then g
    else LowerTodo(n, Lower(n, g, todo[|todo| - 1]), todo[..|todo| - 1])
  }

  function LowerReturn(n: nat, g: Gen, v: Option<Value>): (g': Gen)
    requires Ok(g)
    ensures Ok(g')
    decreases n, 0, 1
  {
    var g1 := if v.Some? then EmitExpr(g, v.value.e) else g;
    var g2 := Deferred(n, g1, 0);
    End(Emit(g2, Epilogue(v, g.depth, g.main)), Ret)
  }

  function LowerJump(n: nat, g: Gen, cont: bool): (g': Gen)
    requires Ok(g)
    ensures Ok(g')
    decreases n, 0, 1
  {
    var i := LoopFor(g.loops, cont);
    if i < 0 then Fail(g, OutsideLoop)
    else
      var l := g.loops[i];
      var g1 := Deferred(n, g, l.defers);
      var g2 := Emit(g1, Pops(Minus(g.depth, l.depth)));
      Br(g2, if cont then l.next.value else l.done)
  }

  function LowerFor(n: nat, g: Gen, s: Stmt): (g': Gen)
    requires Ok(g) && s.For?
    ensures Ok(g')
    decreases n, 1, s, 0
  {
    var g0 := if s.init.Some? then Lower(n, g, s.init.value) else g;
    var g4 := Lower(n, ForHead(g0, s), s.body);
    var g7 := ForTail(PopLoop(g4), s, |g0.blocks|);
    g7.(locals := if |g.locals| <= |g7.locals| then g7.locals[..|g.locals|] else g7.locals)
  }

  /** Four blocks, condition, body, post and end; the condition block is filled and the
      loop opened at its body. */
  function ForHead(g0: Gen, s: Stmt): (g': Gen)
    requires Ok(g0) && s.For?
    ensures Ok(g')
  {
    var b := |g0.blocks|;
    var g1 := Position(Br(NewBlocks(g0, 4), b), b);
    var g2 := if s.cond.Some? then EmitExpr(g1, s.cond.value) else g1;
    var g3 := Position(End(g2, Cond(s.cond.Some?, b + 1, b + 3)), b + 1);
    g3.(loops := g3.loops + [Loop(b + 3, Some(b + 2), |g3.defers|, g3.depth)])
  }

  /** The post block; lowering goes on in the end block. */
  function ForTail(g4: Gen, s: Stmt, b: nat): (g': Gen)
    requires Ok(g4) && s.For?
    ensures Ok(g')
  {
    var g5 := Position(Br(g4, b + 2), b + 2);
    var g6 := Br(if s.post.Some? then EmitExpr(g5, s.post.value) else g5, b);
    Position(g6, b + 3)
  }

  function PopLoop(g: Gen): (g': Gen)
    requires Ok(g)
    ensures Ok(g')
  {
    if g.loops == [] then g else g.(loops := g.loops[..|g.loops| - 1])
  }

  /** The labels and blocks of the switch instruction; block `first` is the first case. */
  function LabelsFrom(cases: seq<Case>, first: nat): seq<(int, nat)> {
    if cases == [] then []
    else (if cases[0].lab.Some? then [(cases[0].lab.value, first)] else []) + LabelsFrom(cases[1..], first + 1)
  }

  /** Every default overwrites the one before. */
  function OtherFrom(cases: seq<Case>, first: nat, other: nat): nat {
    if cases == [] then other
    else OtherFrom(cases[1..], first + 1, if cases[0].lab.None? then first else other)
  }

  function LowerSwitch(n: nat, g: Gen, e: Expr, cases: seq<Case>): (g': Gen)
    requires Ok(g)
    ensures Ok(g')
    decreases n, 1, cases, 3
  {
    var done := |g.blocks|;
    var g1 := NewBlocks(EmitExpr(g, e), 1 + |cases|);
    var g2 := End(g1, Table(LabelsFrom(cases, done + 1), OtherFrom(cases, done + 1, done)));
    var g3 := g2.(loops := g2.loops + [Loop(done, None, |g2.defers|, g2.depth)]);
    Position(PopLoop(LowerCases(n, g3, cases, done + 1, done)), done)
  }

  function LowerCases(n: nat, g: Gen, cases: seq<Case>, first: nat, done: nat): (g': Gen)
    requires Ok(g)
    ensures Ok(g')
    decreases n, 1, cases, 2
  {
    if cases == [] then g
    else
      var c := cases[0];
      assert c in cases && c.body < c;
      LowerCases(n, Br(Lower(n, Position(g, first), c.body), done), cases[1..], first + 1, done)
  }

  function Entry(main: bool): Trace { if main then [Init, Push] else [Push] }

  function Start(params: Env, main: bool): Gen { Gen(main, [Code([], Open)], 0, 0, params, [], [], None) }

  /** A whole function: the entry block sets up one frame, falling off the end cleans up. */
  function LowerFunction(n: nat, body: Stmt, params: Env, main: bool): (g': Gen)
    ensures Ok(g')
  {
    var g1 := Lower(n, Emit(Start(params, main), Entry(main)), body);
    if Closed(g1) then g1 else End(Emit(g1, Epilogue(None, g1.depth, main)), Ret)
  }
}
