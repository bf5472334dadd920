/** The code generator as it works: fields it pushes, truncates and restores while it emits
    (control.rs:60-377). Every method does to those fields what the function of the same
    construct in Lowering says. */
module Generator {
  import opened Wrappers
  import opened Syntax
  import opened SourceSemantics
  import opened BasicBlocks
  import opened Lowering
  import opened LoweringGrowth

  lemma EmitTwice(g: Gen, a: Trace, b: Trace)
    requires Ok(g)
    ensures Emit(Emit(g, a), b) == Emit(g, a + b)
  {
    if g.err.None? && !Terminated(g) {
      assert g.blocks[g.cur].code + (a + b) == g.blocks[g.cur].code + a + b;
      if a == [] { assert a + b == b; }
      if b == [] { assert a + b == a; }
    }
  }

  lemma EmitNothing(g: Gen)
    requires Ok(g)
    ensures Emit(g, []) == g
  {
  }

  lemma RepeatMore(e: Event, k: nat)
    ensures Repeat(e, k) + [e] == Repeat(e, k + 1)
  {
  }

  lemma BlocksTwice(g: Gen, j: nat, k: nat)
    requires Ok(g)
    ensures NewBlocks(NewBlocks(g, j), k) == NewBlocks(g, j + k)
  {
    assert seq(j, _ => Code([], Open)) + seq(k, _ => Code([], Open)) == seq(j + k, _ => Code([], Open));
  }

  lemma {:induction false} LabelsMore(cases: seq<Case>, first: nat, other: nat, k: nat)
    requires k < |cases|
    ensures LabelsFrom(cases[..k + 1], first) ==
            LabelsFrom(cases[..k], first) + if cases[k].lab.Some? then [(cases[k].lab.value, first + k)] else []
    ensures OtherFrom(cases[..k + 1], first, other) ==
            if cases[k].lab.None? then first + k else OtherFrom(cases[..k], first, other)
    decreases k
  {
    var a, b := cases[..k + 1], cases[..k];
    if k == 0 {
      assert a == [cases[0]] && b == [];
      assert a[1..] == [];
    } else {
      assert a[1..] == cases[1..][..k] && b[1..] == cases[1..][..k - 1];
      LabelsMore(cases[1..], first + 1, if cases[0].lab.None? then first else other, k - 1);
    }
  }

  class Generator {
    const main: bool
    var blocks: seq<Code>
    var cur: nat
    var depth: nat
    var locals: seq<Local>
    var defers: seq<Stmt>
    var loops: seq<Loop>
    var err: Option<Error>

    ghost function Abs(): Gen
      reads this
    {
      Gen(main, blocks, cur, depth, locals, defers, loops, err)
    }

    ghost predicate Valid()
      reads this
    {
      cur < |blocks|
    }

    predicate Terminated()
      requires Valid()
      reads this
    {
      blocks[cur].end != Open
    }

    /** The entry block of a function (control.rs:8-16). */
    constructor (params: Env, main: bool)
      ensures Valid() && Abs() == Gen(main, [Code([], Open)], 0, 0, params, [], [], None)
    {
      this.main := main;
      blocks, cur, depth := [Code([], Open)], 0, 0;
      locals, defers, loops, err := params, [], [], None;
    }

    method Error(e: Error)
      requires Valid()
      modifies this
      ensures Valid() && Abs() == Fail(old(Abs()), e)
    {
      if err.None? { err := Some(e); }
    }

    /** One instruction into the current block. */
    method Op(e: Event)
      requires Valid()
      modifies this
      ensures Valid() && Abs() == Emit(old(Abs()), [e])
      ensures depth == old(depth)
    {
      if err.None? {
        if Terminated() {
          Error(Malformed);
        } else {
          blocks := blocks[cur := Code(blocks[cur].code + [e], Open)];
        }
      }
    }

    method Ops(e: Event, count: nat)
      requires Valid()
      modifies this
      ensures Valid() && Abs() == Emit(old(Abs()), Repeat(e, count))
    {
      EmitNothing(Abs());
      for k := 0 to count
        invariant Valid() && Abs() == Emit(old(Abs()), Repeat(e, k))
      {
        EmitTwice(old(Abs()), Repeat(e, k), [e]);
        RepeatMore(e, k);
        Op(e);
      }
    }

    method Expression(e: Expr)
      requires Valid()
      modifies this
      ensures Valid() && Abs() == EmitExpr(old(Abs()), e)
    {
      if Known(locals, e.uses) {
        Op(Did(locals, e));
      } else {
        Error(UnknownName);
      }
    }

    method Finish(end: Terminator)
      requires Valid()
      modifies this
      ensures Valid() && Abs() == End(old(Abs()), end)
    {
      if err.None? {
        if Terminated() {
          Error(Malformed);
        } else {
          blocks := blocks[cur := blocks[cur].(end := end)];
        }
      }
    }

    method Branch(to: nat)
      requires Valid()
      modifies this
      ensures Valid() && Abs() == Br(old(Abs()), to)
    {
      if err.None? && !Terminated() { Finish(Jump(to)); }
    }

    method NewBlock() returns (b: nat)
      requires Valid()
      modifies this
      ensures Valid() && Abs() == NewBlocks(old(Abs()), 1)
      ensures b == old(|blocks|) && err == old(err)
      ensures err.None? ==> |blocks| == b + 1
    {
      b := |blocks|;
      assert seq(1, _ => Code([], Open)) == [Code([], Open)];
      if err.None? { blocks := blocks + [Code([], Open)]; }
    }

    method MoveTo(b: nat)
      requires Valid()
      modifies this
      ensures Valid() && Abs() == Position(old(Abs()), b)
    {
      if err.None? && b < |blocks| { cur := b; }
    }

    /** One frame of the block and one for the function, then the runtime in `main`. */
    method Cleanup(v: Option<Value>, depth: nat)
      requires Valid()
      modifies this
      ensures Valid() && Abs() == Emit(old(Abs()), Epilogue(v, depth, main))
    {
      ghost var g := Abs();
      ghost var out: Trace := [];
      EmitNothing(g);
      if v.Some? {
        EmitTwice(g, out, Repeat(Escape(depth + 1), v.value.escapes));
        Ops(Escape(depth + 1), v.value.escapes);
        out := out + Repeat(Escape(depth + 1), v.value.escapes);
        if v.value.aggregate {
          EmitTwice(g, out, [MoveFrame]);
          Op(MoveFrame);
          out := out + [MoveFrame];
        }
      }
      EmitTwice(g, out, Pops(depth + 1));
      Ops(Pop, depth + 1);
      out := out + Pops(depth + 1);
      if main {
        EmitTwice(g, out, [Shutdown]);
        Op(Shutdown);
        out := out + [Shutdown];
      }
      assert out == Epilogue(v, depth, main);
    }

    /** The statements registered above the mark, newest first; they stay registered. */
    method RunDeferred(n: nat, mark: nat)
      requires Valid()
      modifies this
      ensures Valid() && Abs() == Deferred(n, old(Abs()), mark)
      decreases n, 0, 0
    {
      if err.None? && mark < |defers| {
        if n == 0 {
          Error(Endless);
        } else {
          var todo := defers[mark..];
          var k := |todo|;
          assert todo[..k] == todo;
          while k > 0
            invariant 0 <= k <= |todo| && Valid()
            invariant LowerTodo(n - 1, Abs(), todo[..k]) == LowerTodo(n - 1, old(Abs()), todo)
          {
            assert todo[..k][..k - 1] == todo[..k - 1] && todo[..k][k - 1] == todo[k - 1];
            k := k - 1;
            Statement(n - 1, todo[k]);
          }
        }
      }
    }

    method Statement(n: nat, s: Stmt)
      requires Valid()
      modifies this
      ensures Valid() && Abs() == Lower(n, old(Abs()), s)
      decreases n, 1, s, 1
    {
      if err.Some? || Terminated() { return; }
      hide Emit, EmitExpr, LowerBlock, LowerFor, LowerSwitch, LowerReturn, LowerJump, AssignEvents;
      match s
      case Block(stmts, own) => BlockStmt(n, s);
      case Let(name, e) => Declaration(name, e);
      case Assign(name, v) => Assignment(name, v);
      case Eval(e) => Expression(e);
      case Return(v) => ReturnStmt(n, v);
      case If(c, yes, no) => IfStmt(n, s);
      case For(_, _, _, _) => ForStmt(n, s);
      case Switch(e, cases) => SwitchStmt(n, s);
      case Break => JumpStmt(n, false);
      case Continue => JumpStmt(n, true);
      case Defer(d) => defers := defers + [d];
    }

    method Declaration(name: string, e: Expr)
      requires Valid()
      modifies this
      ensures var g2 := Emit(EmitExpr(old(Abs()), e), [Store(e.id)]);
              Valid() && Abs() == g2.(locals := g2.locals + [Local(name, e.id, old(depth))])
    {
      hide Emit;
      var d := depth;
      Expression(e);
      Op(Store(e.id));
      locals := locals + [Local(name, e.id, d)];
    }

    method Assignment(name: string, v: Value)
      requires Valid() && err.None? && !Terminated()
      modifies this
      ensures Valid()
      ensures Abs() == if Find(old(locals), name) < 0 || !Known(old(locals), v.e.uses) then Fail(old(Abs()), UnknownName)
                       else Emit(old(Abs()), AssignEvents(old(locals), old(depth), name, v))
    {
      hide Did, Find, Repeat;
      ghost var g := Abs();
      var i := Find(locals, name);
      if i < 0 {
        Error(UnknownName);
        return;
      }
      Expression(v.e);
      if err.Some? { return; }
      ghost var out := [Did(g.locals, v.e)];
      if depth > locals[i].depth {
        EmitTwice(g, out, Repeat(Escape(depth - locals[i].depth), v.escapes));
        Ops(Escape(depth - locals[i].depth), v.escapes);
      } else {
        EmitTwice(g, out, []);
        EmitNothing(Abs());
      }
      out := out + Escapes(v, g.depth, g.locals[i].depth);
      EmitTwice(g, out, [Store(locals[i].decl)]);
      Op(Store(locals[i].decl));
      assert out + [Store(locals[i].decl)] == AssignEvents(g.locals, g.depth, name, v);
    }

    method BlockStmt(n: nat, s: Stmt)
      requires Valid() && s.Block?
      modifies this
      ensures Valid() && Abs() == LowerBlock(n, old(Abs()), s.stmts, s.own)
      decreases n, 1, s, 0
    {
      hide Lower, LowerAll, Emit, Deferred;
      var localMark, deferMark, outer := |locals|, |defers|, depth;
      ghost var g := Abs();
      if s.own {
        Op(Push);
        depth := depth + 1;
      }
      StatementList(n, s.stmts);
      if err.None? && !Terminated() {
        RunDeferred(n, deferMark);
        if s.own { Op(Pop); }
      }
      depth := outer;
      if deferMark <= |defers| { defers := defers[..deferMark]; }
      if localMark <= |locals| { locals := locals[..localMark]; }
    }

    method StatementList(n: nat, ss: seq<Stmt>)
      requires Valid()
      modifies this
      ensures Valid() && Abs() == LowerAll(n, old(Abs()), ss)
      decreases n, 1, ss, 2
    {
      hide Lower;
      var k := 0;
      assert ss[0..] == ss;
      while k < |ss|
        invariant 0 <= k <= |ss| && Valid()
        invariant LowerAll(n, Abs(), ss[k..]) == LowerAll(n, old(Abs()), ss)
      {
        assert ss[k..][1..] == ss[k + 1..] && ss[k] in ss;
        Statement(n, ss[k]);
        k := k + 1;
      }
    }

    method ReturnStmt(n: nat, v: Option<Value>)
      requires Valid()
      modifies this
      ensures Valid() && Abs() == LowerReturn(n, old(Abs()), v)
      decreases n, 0, 1
    {
      var d := depth;
      if v.Some? { Expression(v.value.e); }
      RunDeferred(n, 0);
      Cleanup(v, d);
      Finish(Ret);
    }

    /** The innermost enclosing loop, skipping switches for `continue`. */
    method FindLoop(cont: bool) returns (i: int)
      ensures i == LoopFor(loops, cont)
    {
      i := |loops| - 1;
      assert loops[..i + 1] == loops;
      while i >= 0 && !(!cont || loops[i].next.Some?)
        invariant -1 <= i < |loops|
        invariant LoopFor(loops[..i + 1], cont) == LoopFor(loops, cont)
      {
        assert loops[..i + 1][..i] == loops[..i];
        i := i - 1;
      }
    }

    method JumpStmt(n: nat, cont: bool)
      requires Valid()
      modifies this
      ensures Valid() && Abs() == LowerJump(n, old(Abs()), cont)
      decreases n, 0, 1
    {
      var i := FindLoop(cont);
      if i < 0 {
        Error(OutsideLoop);
        return;
      }
      var l, d := loops[i], depth;
      RunDeferred(n, l.defers);
      Ops(Pop, Minus(d, l.depth));
      Branch(if cont then l.next.value else l.done);
    }

    method IfStmt(n: nat, s: Stmt)
      requires Valid() && s.If? && err.None? && !Terminated()
      modifies this
      ensures Valid() && Abs() == Lower(n, old(Abs()), s)
      decreases n, 1, s, 0
    {
      hide Lower, EmitExpr, End, Br, NewBlocks, Position;
      ghost var g := Abs();
      Expression(s.c);
      IfStops(n, g, s);
      if err.Some? { return; }
      ghost var g1 := Abs();
      ExprBlocks(g, s.c);
      var y := NewBlock();
      BlocksTwice(g1, 1, 1);
      var no := NewBlock();
      BlocksTwice(g1, 2, 1);
      var done := NewBlock();
      Finish(Cond(true, y, no));
      MoveTo(y);
      Statement(n, s.yes);
      Branch(done);
      MoveTo(no);
      if s.no.Some? { Statement(n, s.no.value); }
      Branch(done);
      MoveTo(done);
      IfUnfolds(n, g, s);
    }

    method ForStmt(n: nat, s: Stmt)
      requires Valid() && s.For? && err.None? && !Terminated()
      modifies this
      ensures Valid() && Abs() == LowerFor(n, old(Abs()), s)
      decreases n, 1, s, 0
    {
      hide EmitExpr, End, Br, NewBlocks, Position, ForHead, ForTail;
      ghost var g := Abs();
      var localMark := |locals|;
      if s.init.Some? { Statement(n, s.init.value); }
      ghost var g0 := Abs();
      ForStops(n, g, s);
      if err.Some? {
        if localMark <= |locals| { locals := locals[..localMark]; }
        return;
      }
      var check := Head(s);
      ghost var inner := Abs();
      Statement(n, s.body);
      if loops != [] { loops := loops[..|loops| - 1]; }
      Tail(s, check);
      if localMark <= |locals| { locals := locals[..localMark]; }
    }

    /** The blocks of a loop, its condition, and the loop opened at its body. */
    method Head(s: Stmt) returns (check: nat)
      requires Valid() && s.For? && err.None?
      modifies this
      ensures Valid() && Abs() == ForHead(old(Abs()), s)
      ensures check == old(|blocks|)
    {
      hide EmitExpr, End, Br, NewBlocks, Position;
      ghost var g0 := Abs();
      check := NewBlock();
      BlocksTwice(g0, 1, 1);
      var body := NewBlock();
      BlocksTwice(g0, 2, 1);
      var post := NewBlock();
      BlocksTwice(g0, 3, 1);
      var done := NewBlock();
      Branch(check);
      MoveTo(check);
      if s.cond.Some? { Expression(s.cond.value); }
      Finish(Cond(s.cond.Some?, body, done));
      MoveTo(body);
      loops := loops + [Loop(done, Some(post), |defers|, depth)];
    }

    method Tail(s: Stmt, check: nat)
      requires Valid() && s.For?
      modifies this
      ensures Valid() && Abs() == ForTail(old(Abs()), s, check)
    {
      hide EmitExpr, End, Br, NewBlocks, Position;
      Branch(check + 2);
      MoveTo(check + 2);
      if s.post.Some? { Expression(s.post.value); }
      Branch(check);
      MoveTo(check + 3);
    }

    method SwitchStmt(n: nat, s: Stmt)
      requires Valid() && s.Switch? && err.None? && !Terminated()
      modifies this
      ensures Valid() && Abs() == LowerSwitch(n, old(Abs()), s.e, s.cases)
      decreases n, 1, s, 0
    {
      hide Lower, EmitExpr, End, Br, NewBlocks, Position, LowerCases, LabelsFrom, OtherFrom;
      ghost var g := Abs();
      var cases := s.cases;
      Expression(s.e);
      SwitchStops(n, g, s.e, cases);
      if err.Some? { return; }
      ExprBlocks(g, s.e);
      var done, labels, other := CaseBlocks(cases);
      Finish(Table(labels, other));
      loops := loops + [Loop(done, None, |defers|, depth)];
      ghost var g3 := Abs();
      var k := 0;
      assert cases[0..] == cases;
      while k < |cases|
        invariant 0 <= k <= |cases| && Valid()
        invariant LowerCases(n, Abs(), cases[k..], done + 1 + k, done) == LowerCases(n, g3, cases, done + 1, done)
      {
        assert cases[k..][1..] == cases[k + 1..];
        var c := cases[k];
        assert c in cases && c.body < c;
        CasesUnfold(n, Abs(), cases[k..], done + 1 + k, done);
        MoveTo(done + 1 + k);
        Statement(n, c.body);
        Branch(done);
        k := k + 1;
      }
      assert cases[k..] == [];
      CasesDone(n, Abs(), done + 1 + k, done);
      if loops != [] { loops := loops[..|loops| - 1]; }
      MoveTo(done);
    }

    /** One block for the end and one per case, with the labels that lead to them. */
    method CaseBlocks(cases: seq<Case>) returns (done: nat, labels: seq<(int, nat)>, other: nat)
      requires Valid() && err.None?
      modifies this
      ensures Valid() && Abs() == NewBlocks(old(Abs()), 1 + |cases|)
      ensures done == old(|blocks|)
      ensures labels == LabelsFrom(cases, done + 1) && other == OtherFrom(cases, done + 1, done)
    {
      ghost var g := Abs();
      done := NewBlock();
      labels, other := [], done;
      for k := 0 to |cases|
        invariant Valid() && err.None? && Abs() == NewBlocks(g, 1 + k) && |blocks| == done + 1 + k
        invariant labels == LabelsFrom(cases[..k], done + 1) && other == OtherFrom(cases[..k], done + 1, done)
      {
        hide NewBlocks;
        BlocksTwice(g, 1 + k, 1);
        LabelsMore(cases, done + 1, done, k);
        var block := NewBlock();
        if cases[k].lab.Some? {
          labels := labels + [(cases[k].lab.value, block)];
        } else {
          other := block;
        }
      }
      assert cases[..|cases|] == cases;
    }

    /** A function body, from its entry block to its return (control.rs:15-45). */
    method FunctionBody(n: nat, body: Stmt)
      requires Valid() && Abs() == Gen(main, [Code([], Open)], 0, 0, locals, [], [], None)
      modifies this
      ensures Valid() && Abs() == LowerFunction(n, body, old(locals), main)
    {
      hide Lower, Emit;
      ghost var g := Abs();
      if main {
        EmitTwice(g, [Init], [Push]);
        assert [Init] + [Push] == [Init, Push];
        Op(Init);
      }
      Op(Push);
      Statement(n, body);
      if err.None? && !Terminated() {
        Cleanup(None, depth);
        Finish(Ret);
      }
    }
  }

  lemma ExprBlocks(g: Gen, e: Expr)
    requires Ok(g)
    ensures |EmitExpr(g, e).blocks| == |g.blocks|
  {
  }

  /** The first error leaves the state as it was raised. */
  lemma IfStops(n: nat, g: Gen, s: Stmt)
    requires Ok(g) && s.If? && !Closed(g)
    ensures EmitExpr(g, s.c).err.Some? ==> Lower(n, g, s) == EmitExpr(g, s.c)
  {
  }

  lemma ForStops(n: nat, g: Gen, s: Stmt)
    requires Ok(g) && s.For?
    ensures var g0 := if s.init.Some? then Lower(n, g, s.init.value) else g;
            g0.err.Some? ==>
              LowerFor(n, g, s) == g0.(locals := if |g.locals| <= |g0.locals| then g0.locals[..|g.locals|] else g0.locals)
  {
    hide Lower, ForHead, ForTail;
    var g0 := if s.init.Some? then Lower(n, g, s.init.value) else g;
    if g0.err.Some? {
      HeadStops(g0, s);
      LowerStops(n, ForHead(g0, s), s.body);
      TailStops(g0, s, |g0.blocks|);
    }
  }

  lemma HeadStops(g: Gen, s: Stmt)
    requires Ok(g) && s.For? && g.err.Some?
    ensures PopLoop(ForHead(g, s)) == g && ForHead(g, s).err.Some?
  {
  }

  lemma LowerStops(n: nat, g: Gen, s: Stmt)
    requires Ok(g) && g.err.Some?
    ensures Lower(n, g, s) == g
  {
  }

  lemma TailStops(g: Gen, s: Stmt, b: nat)
    requires Ok(g) && s.For? && g.err.Some?
    ensures ForTail(g, s, b) == g
  {
  }

  lemma SwitchStops(n: nat, g: Gen, e: Expr, cases: seq<Case>)
    requires Ok(g)
    ensures EmitExpr(g, e).err.Some? ==> LowerSwitch(n, g, e, cases) == EmitExpr(g, e)
  {
    var g1 := EmitExpr(g, e);
    if g1.err.Some? {
      var done := |g.blocks|;
      CasesStop(n, g1.(loops := g1.loops + [Loop(done, None, |g1.defers|, g1.depth)]), cases, done + 1, done);
    }
  }

  lemma CasesStop(n: nat, g: Gen, cases: seq<Case>, first: nat, done: nat)
    requires Ok(g) && g.err.Some?
    ensures LowerCases(n, g, cases, first, done) == g
    decreases |cases|
  {
    if cases != [] { CasesStop(n, g, cases[1..], first + 1, done); }
  }

  lemma CasesUnfold(n: nat, g: Gen, cases: seq<Case>, first: nat, done: nat)
    requires Ok(g) && cases != []
    ensures LowerCases(n, g, cases, first, done) ==
            LowerCases(n, Br(Lower(n, Position(g, first), cases[0].body), done), cases[1..], first + 1, done)
  {
    hide Lower, Br, Position;
  }

  lemma CasesDone(n: nat, g: Gen, first: nat, done: nat)
    requires Ok(g)
    ensures LowerCases(n, g, [], first, done) == g
  {
  }
}
