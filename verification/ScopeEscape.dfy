/** Pointers in local variables never dangle. Programs allocate, copy and assign pointers
    across nested blocks, loops and calls; the lowering pushes and pops frames around blocks
    and functions, and moves a value outward when it is stored in an outer local or returned
    (control.rs:60-68, 83-203; ir.rs:83-100; yc_runtime.c:424-440, 560-584). */
module ScopeEscape {
  import opened PointerHash
  import opened Ownership
  import opened RuntimeSpec

  datatype Expr =
    | Null
    | Var(name: string)
    | New(size: nat)
    | Call(f: nat, args: seq<string>)

  /** Attach is a store into a field of what `owner` points to. */
  datatype Stmt =
    | Let(name: string, e: Expr)
    | Assign(name: string, e: Expr)
    | Attach(owner: string, child: string)
    | Block(stmts: seq<Stmt>)
    | If(yes: seq<Stmt>, no: seq<Stmt>)
    | Switch(cases: seq<Case>)
    | Loop(body: Stmt)
    | Break
    | Continue
    | Return(e: Expr)
    | Defer(s: Stmt)

  datatype Case = Case(body: seq<Stmt>)

  /** An aggregate result brings the whole frame with it. */
  datatype Function = Function(params: seq<string>, body: seq<Stmt>, aggregate: bool)

  type Program = seq<Function>

  datatype Local = Local(name: string, depth: nat, ptr: nat)

  type Locals = seq<Local>

  /** Everything the program cannot foresee: which block malloc hands out, how each condition
      turns out and which case is picked. A strict run stops before attaching to a younger
      owner. */
  datatype World = World(malloc: (State, nat, nat) -> nat, coin: nat -> bool, pick: nat -> nat, strict: bool)

  datatype Mem = Mem(s: State, tick: nat)

  /** TooDeep: one more push would wrap the 32-bit frame counter. Escaped: a deferred
      statement got out of itself, which no lowered program does. */
  datatype Stop = OutOfFuel | TooDeep | Younger | BadName | Escaped

  datatype Completion = Normal | Broke | Continued | Returned(ptr: nat)

  datatype Outcome = Stopped(why: Stop) | Done(how: Completion, m: Mem, ls: Locals, depth: nat)

  datatype Result = NoValue(why: Stop) | Value(m: Mem, ptr: nat)

  function Find(ls: Locals, name: string): (i: int)
    ensures -1 <= i < |ls|
  {
    if ls == [] then -1 else if ls[|ls| - 1].name == name then |ls| - 1 else Find(ls[..|ls| - 1], name)
  }

  function Pops(s: State, n: nat): State
    decreases n
  {
    if n == 0 then s else Pops(FramePop(s), n - 1)
  }

  function Params(names: seq<string>, ptrs: seq<nat>): Locals
    requires |names| == |ptrs|
  {
    seq(|names|, i requires 0 <= i < |names| => Local(names[i], 0, ptrs[i]))
  }

  function Pointers(ls: Locals, names: seq<string>): (r: seq<nat>)
    requires forall n <- names :: Find(ls, n) >= 0
    ensures |r| == |names|
  {
    seq(|names|, i requires 0 <= i < |names| => ls[Find(ls, names[i])].ptr)
  }

  /** Escape, aggregate move, and one pop for each open block and one for the function. */
  ghost function Leave(s: State, how: Completion, depth: nat, aggregate: bool): State {
    var s1 := if how.Returned? then MoveToAncestor(s, how.ptr, depth + 1) else s;
    var s2 := if how.Returned? && aggregate then MoveFrameToParent(s1) else s1;
    Pops(s2, depth + 1)
  }

  ghost function Eval(w: World, prog: Program, e: Expr, m: Mem, ls: Locals, fuel: nat): Result
    decreases fuel, e, 0
  {
    match e
    case Null => Value(m, 0)
    case Var(name) =>
      var i := Find(ls, name);
      if i < 0 then NoValue(BadName) else Value(m, ls[i].ptr)
    case New(n) =>
      var h := w.malloc(m.s, m.tick, n);
      Value(Mem(Alloc(m.s, h, n), m.tick + 1), if h == 0 || n > SIZE_MAX - HEADER then 0 else h + HEADER)
    case Call(f, args) =>
      if f >= |prog| || |prog[f].params| != |args| || exists n <- args :: Find(ls, n) < 0 then NoValue(BadName)
      else if fuel == 0 then NoValue(OutOfFuel)
      else if m.s.cur + 1 >= FRAME_NUMBERS then NoValue(TooDeep)
      else
        var r := ExecAll(w, prog, prog[f].body, Mem(FramePush(m.s), m.tick), Params(prog[f].params, Pointers(ls, args)), 0, fuel - 1);
        if r.Stopped? then NoValue(r.why)
        else Value(Mem(Leave(r.m.s, r.how, r.depth, prog[f].aggregate), r.m.tick), if r.how.Returned? then r.how.ptr else 0)
  }

  ghost function Exec(w: World, prog: Program, c: Stmt, m: Mem, ls: Locals, depth: nat, fuel: nat): Outcome
    decreases fuel, c, 1
  {
    match c
    case Let(name, e) =>
      var v := Eval(w, prog, e, m, ls, fuel);
      if v.NoValue? then Stopped(v.why) else Done(Normal, v.m, ls + [Local(name, depth, v.ptr)], depth)
    case Assign(name, e) =>
      var i := Find(ls, name);
      if i < 0 then Stopped(BadName)
      else
        var v := Eval(w, prog, e, m, ls, fuel);
        if v.NoValue? then Stopped(v.why)
        else
          var s := if depth > ls[i].depth then MoveToAncestor(v.m.s, v.ptr, depth - ls[i].depth) else v.m.s;
          Done(Normal, Mem(s, v.m.tick), ls[i := ls[i].(ptr := v.ptr)], depth)
    case Attach(owner, child) =>
      var i, j := Find(ls, owner), Find(ls, child);
      if i < 0 || j < 0 then Stopped(BadName)
      else if w.strict && OwnerYounger(m.s, ls[i].ptr, ls[j].ptr) then Stopped(Younger)
      else Done(Normal, Mem(AttachToOwner(m.s, ls[i].ptr, ls[j].ptr), m.tick), ls, depth)
    case Block(stmts) =>
      if m.s.cur + 1 >= FRAME_NUMBERS then Stopped(TooDeep)
      else
        var r := ExecAll(w, prog, stmts, Mem(FramePush(m.s), m.tick), ls, depth + 1, fuel);
        if r.Done? && r.how.Normal? then Done(Normal, Mem(FramePop(r.m.s), r.m.tick), Outer(ls, r.ls), depth) else r
    case If(yes, no) =>
      var m1 := Mem(m.s, m.tick + 1);
      Scoped(ls, if w.coin(m.tick) then ExecAll(w, prog, yes, m1, ls, depth, fuel) else ExecAll(w, prog, no, m1, ls, depth, fuel))
    case Switch(cases) =>
      var m1, i := Mem(m.s, m.tick + 1), w.pick(m.tick);
      if i >= |cases| then Done(Normal, m1, ls, depth)
      else
        var k := cases[i];
        assert k in cases;
        var r := ExecAll(w, prog, k.body, m1, ls, depth, fuel);
        if r.Done? && r.how.Broke? && r.depth >= depth then
          Done(Normal, Mem(Pops(r.m.s, r.depth - depth), r.m.tick), Outer(ls, r.ls), depth)
        else Scoped(ls, r)
    case Loop(body) => Rounds(w, prog, c, m, ls, depth, fuel, fuel)
    case Break => Done(Broke, m, ls, depth)
    case Continue => Done(Continued, m, ls, depth)
    case Defer(_) => Done(Normal, m, ls, depth)
    case Return(e) =>
      var v := Eval(w, prog, e, m, ls, fuel);
      if v.NoValue? then Stopped(v.why) else Done(Returned(v.ptr), v.m, ls, depth)
  }

  /** A deferred statement runs when the rest of its block is over, however that happens: at
      a return, between the value and its escape. */
  ghost function ExecAll(w: World, prog: Program, cs: seq<Stmt>, m: Mem, ls: Locals, depth: nat, fuel: nat): Outcome
    decreases fuel, cs, 0
  {
    if cs == [] then Done(Normal, m, ls, depth)
    else if cs[0].Defer? then
      var r := ExecAll(w, prog, cs[1..], m, ls, depth, fuel);
      if r.Stopped? then r
      else
        var d := cs[0];
        assert d in cs && d.s < d;
        var q := Exec(w, prog, d.s, r.m, r.ls, r.depth, fuel);
        if q.Stopped? then q else if !q.how.Normal? then Stopped(Escaped) else r.(m := q.m, ls := q.ls)
    else
      var r := Exec(w, prog, cs[0], m, ls, depth, fuel);
      if r.Done? && r.how.Normal? then ExecAll(w, prog, cs[1..], r.m, r.ls, depth, fuel) else r
  }

  ghost function Rounds(w: World, prog: Program, c: Stmt, m: Mem, ls: Locals, depth: nat, fuel: nat, rounds: nat): Outcome
    requires c.Loop?
    decreases fuel, c, 0, rounds
  {
    if rounds == 0 then Stopped(OutOfFuel)
    else if !w.coin(m.tick) then Done(Normal, Mem(m.s, m.tick + 1), ls, depth)
    else
      var r := Exec(w, prog, c.body, Mem(m.s, m.tick + 1), ls, depth, fuel);
      if r.Stopped? || r.how.Returned? || r.depth < depth then r
      else
        var m1 := Mem(Pops(r.m.s, r.depth - depth), r.m.tick);
        if r.how.Broke? then Done(Normal, m1, Outer(ls, r.ls), depth)
        else Rounds(w, prog, c, m1, Outer(ls, r.ls), depth, fuel, rounds - 1)
  }

  /** Past a normal end of an arm its locals are forgotten. */
  function Scoped(ls: Locals, r: Outcome): Outcome {
    if r.Done? && r.how.Normal? then r.(ls := Outer(ls, r.ls)) else r
  }

  /** The locals of an inner block are forgotten when it ends. */
  function Outer(ls: Locals, ls': Locals): Locals {
    if |ls| <= |ls'| then ls'[..|ls|] else ls'
  }

  /** The owner's frame is newer than the child's, so the store would shorten its life. */
  ghost predicate OwnerYounger(s: State, owner: nat, child: nat) {
    var p, c := HeaderOf(s, owner), HeaderOf(s, child);
    p in s.frame && c in s.frame && s.frame[p] > s.frame[c]
  }

  // ----- what is kept -----

  /** Null, or a live allocation that lasts at least as long as frame `f`. */
  ghost predicate Alive(s: State, p: nat, f: nat) {
    p == 0 || (p >= HEADER && p - HEADER in s.frame && s.frame[p - HEADER] <= f)
  }

  /** `base` is the caller's frame; the block at depth d owns frame base + 1 + d. */
  ghost predicate Held(s: State, ls: Locals, base: nat) { forall l <- ls :: Alive(s, l.ptr, base + 1 + l.depth) }

  ghost predicate Within(ls: Locals, depth: nat) { forall l <- ls :: l.depth <= depth }

  ghost predicate Good(s: State, f: nat) { Inv(s) && Bounded(s) && s.cur == f < FRAME_NUMBERS }

  /** Everything in frame `f` or older is still there and no younger. */
  ghost predicate Kept(s: State, s': State, f: nat) {
    forall h <- s.frame | s.frame[h] <= f :: h in s'.frame && s'.frame[h] <= s.frame[h]
  }

  /** The same variables, with possibly other values. */
  ghost predicate Like(ls: Locals, ls': Locals) {
    |ls| <= |ls'| && forall i :: 0 <= i < |ls| ==> ls'[i].name == ls[i].name && ls'[i].depth == ls[i].depth
  }

  ghost predicate MallocWorks(w: World) { forall s, k, n :: Fits(s, w.malloc(s, k, n), n) }

  lemma KeptThen(a: State, b: State, c: State, f: nat, g: nat)
    requires Kept(a, b, f) && Kept(b, c, g) && f <= g
    ensures Kept(a, c, f)
  {
  }

  lemma AliveKept(s: State, s': State, p: nat, f: nat, g: nat)
    requires Alive(s, p, f) && Kept(s, s', g) && f <= g
    ensures Alive(s', p, f)
  {
  }

  lemma HeldKept(s: State, s': State, ls: Locals, base: nat, depth: nat)
    requires Held(s, ls, base) && Within(ls, depth) && Kept(s, s', base + 1 + depth)
    ensures Held(s', ls, base)
  {
    forall l <- ls
      ensures Alive(s', l.ptr, base + 1 + l.depth)
    {
      AliveKept(s, s', l.ptr, base + 1 + l.depth, base + 1 + depth);
    }
  }

  // ----- the runtime calls -----

  lemma PushGood(s: State, f: nat)
    requires Good(s, f) && f + 1 < FRAME_NUMBERS
    ensures Good(FramePush(s), f + 1) && FramePush(s).frame == s.frame
  {
    CurIsFree(s, f + 1);
  }

  lemma PopGood(s: State, f: nat)
    requires Good(s, f + 1)
    ensures Good(FramePop(s), f) && Kept(s, FramePop(s), f)
  {
    PopKeeps(s);
    PopBounded(s);
  }

  lemma {:induction false} PopsGood(s: State, f: nat, n: nat)
    requires Good(s, f + n)
    ensures Good(Pops(s, n), f) && Kept(s, Pops(s, n), f)
    decreases n
  {
    hide Good, Kept, FramePop;
    if n > 0 {
      PopGood(s, f + n - 1);
      PopsGood(FramePop(s), f, n - 1);
      KeptLess(s, FramePop(s), f, f + n - 1);
      KeptThen(s, FramePop(s), Pops(s, n), f, f);
    } else {
      KeptSelf(s, f);
    }
  }

  lemma KeptLess(s: State, s': State, f: nat, g: nat)
    requires Kept(s, s', g) && f <= g
    ensures Kept(s, s', f)
  {
  }

  lemma KeptSelf(s: State, f: nat)
    ensures Kept(s, s, f)
  {
  }

  lemma AllocGood(s: State, f: nat, h: nat, n: nat)
    requires Good(s, f) && Fits(s, h, n)
    ensures Good(Alloc(s, h, n), f) && Kept(s, Alloc(s, h, n), f)
    ensures Alive(Alloc(s, h, n), if h == 0 || n > SIZE_MAX - HEADER then 0 else h + HEADER, f)
  {
    AllocKeeps(s, h, n);
    AllocBounded(s, h, n);
  }

  lemma MoveGood(s: State, f: nat, p: nat, levels: nat)
    requires Good(s, f)
    ensures Good(MoveToAncestor(s, p, levels), f) && Kept(s, MoveToAncestor(s, p, levels), f)
  {
    hide Inv, Bounded, MoveTree;
    MovesNeverRaise(s, p, levels);
    var target := if levels >= s.cur then 0 else s.cur - levels;
    MoveKeeps(s, p, target);
    MoveBounded(s, p, target);
    MoveTreeCur(s, p, target);
  }

  lemma MoveTreeCur(s: State, p: nat, target: nat)
    ensures MoveTree(s, p, target).cur == s.cur
  {
  }

  /** The moved pointer ends up that many frames further out, or was there already. */
  lemma MoveLands(s: State, f: nat, p: nat, levels: nat)
    requires Good(s, f + levels) && Alive(s, p, f + levels)
    ensures Alive(MoveToAncestor(s, p, levels), p, f)
  {
    if p != 0 && levels > 0 {
      var h := p - HEADER;
      assert HeaderOf(s, p) == h && ContainingOf(s, p) == h;
      MoveTreeLands(s, h, p, f);
    }
  }

  lemma MoveTreeLands(s: State, h: nat, p: nat, target: nat)
    requires Inv(s) && h in s.owner && ContainingOf(s, p) == h
    ensures h in MoveTree(s, p, target).frame && MoveTree(s, p, target).frame[h] <= target
  {
    hide Laid, ContainingOf;
    var r := Root(s.owner, h);
    assert h in Sub(s.owner, r);
    TreeFrame(s, h, r);
  }

  lemma AttachGood(s: State, f: nat, owner: nat, child: nat)
    requires Good(s, f) && Alive(s, owner, f) && !OwnerYounger(s, owner, child)
    ensures Good(AttachToOwner(s, owner, child), f) && Kept(s, AttachToOwner(s, owner, child), f)
  {
    hide AttachHeaders, Laid, ContainingOf, Bounded;
    AttachToOwnerKeeps(s, owner, child);
    if owner != 0 {
      var h, c := HeaderOf(s, owner), HeaderOf(s, child);
      StartContains(s, owner);
      var r := Root(s.owner, h);
      assert h in Sub(s.owner, r);
      TreeFrame(s, h, r);
      AttachBounded(s, r, c);
      if c != 0 { AttachKept(s, r, c, f); }
    } else {
      NullContains(s);
    }
  }

  lemma StartContains(s: State, p: nat)
    requires HeaderOf(s, p) != 0
    ensures ContainingOf(s, p) == HeaderOf(s, p)
  {
  }

  /** The null pointer is in no block. */
  lemma NullContains(s: State)
    requires Inv(s)
    ensures ContainingOf(s, 0) == 0
  {
  }

  /** Hanging a subtree under a header at least as old lowers frame numbers, if anything. */
  lemma AttachKept(s: State, p: nat, c: nat, f: nat)
    requires Inv(s) && p in s.frame && c in s.frame && s.frame[p] <= s.frame[c]
    ensures Kept(s, AttachHeaders(s, p, c), f) && AttachHeaders(s, p, c).cur == s.cur
  {
    forall x <- Sub(s.owner, c)
      ensures s.frame[x] == s.frame[c]
    {
      TreeFrame(s, x, c);
    }
  }

  /** Leaving a function: back in the caller's frame, what the caller could see is still
      there, and so is the result. */
  lemma LeaveGood(s: State, base: nat, how: Completion, depth: nat, aggregate: bool)
    requires Good(s, base + 1 + depth) && (how.Returned? ==> Alive(s, how.ptr, base + 1 + depth))
    ensures var s' := Leave(s, how, depth, aggregate);
            Good(s', base) && Kept(s, s', base) && (how.Returned? ==> Alive(s', how.ptr, base))
  {
    hide Good, Kept, Alive, MoveToAncestor, MoveFrameToParent, Pops;
    var f := base + 1 + depth;
    var s1 := if how.Returned? then MoveToAncestor(s, how.ptr, depth + 1) else s;
    var s2 := if how.Returned? && aggregate then MoveFrameToParent(s1) else s1;
    KeptSelf(s, base);
    if how.Returned? {
      MoveGood(s, f, how.ptr, depth + 1);
      MoveLands(s, base, how.ptr, depth + 1);
      KeptLess(s, s1, base, f);
    }
    KeptSelf(s1, base);
    if how.Returned? && aggregate {
      MoveFrameGood(s1, f - 1);
      KeptLess(s1, s2, base, f - 1);
    }
    KeptThen(s, s1, s2, base, base);
    PopsGood(s2, base, depth + 1);
    KeptThen(s, s2, Pops(s2, depth + 1), base, base);
    if how.Returned? {
      AliveKept(s1, s2, how.ptr, base, base);
      AliveKept(s2, Pops(s2, depth + 1), how.ptr, base, base);
    }
  }

  lemma MoveFrameGood(s: State, f: nat)
    requires Good(s, f + 1)
    ensures Good(MoveFrameToParent(s), f + 1) && Kept(s, MoveFrameToParent(s), f)
  {
    MoveFrameKeeps(s);
    PopBounded(s);
  }

  // ----- programs -----

  /** What holds before any statement of a block at depth `depth`. */
  ghost predicate Ready(m: Mem, ls: Locals, base: nat, depth: nat) {
    Good(m.s, base + 1 + depth) && Held(m.s, ls, base) && Within(ls, depth)
  }

  /** What holds wherever a statement leaves off. */
  ghost predicate Safe(m: Mem, ls: Locals, base: nat, depth: nat, r: Outcome) {
    r.Done? ==>
      && r.depth >= depth && (r.how.Normal? ==> r.depth == depth)
      && Ready(r.m, r.ls, base, r.depth) && Like(ls, r.ls)
      && Kept(m.s, r.m.s, base + 1 + depth)
      && (r.how.Returned? ==> Alive(r.m.s, r.how.ptr, base + 1 + r.depth))
  }

  ghost predicate SafeValue(m: Mem, f: nat, v: Result) {
    v.Value? ==> Good(v.m.s, f) && Kept(m.s, v.m.s, f) && Alive(v.m.s, v.ptr, f)
  }

  lemma EvalSafe(w: World, prog: Program, e: Expr, m: Mem, ls: Locals, base: nat, depth: nat, fuel: nat)
    requires MallocWorks(w) && w.strict && Ready(m, ls, base, depth)
    ensures SafeValue(m, base + 1 + depth, Eval(w, prog, e, m, ls, fuel))
    decreases fuel, e, 1
  {
    hide Good, Kept, Alive, Leave, ExecAll, Alloc, Fits;
    var f := base + 1 + depth;
    KeptSelf(m.s, f);
    CurIs(m.s, f);
    match e
    case Null => NullAlive(m.s, f);
    case Var(name) =>
      var i := Find(ls, name);
      if i >= 0 { LocalAlive(m.s, ls, base, depth, i); }
    case New(n) => AllocGood(m.s, f, w.malloc(m.s, m.tick, n), n);
    case Call(g, args) =>
      NullAlive(m.s, f);
      if g < |prog| && |prog[g].params| == |args| && (forall n <- args :: Find(ls, n) >= 0) && fuel > 0 && m.s.cur + 1 < FRAME_NUMBERS {
        CallSafe(w, prog, e, prog[g], m, ls, f, base, depth, fuel);
      }
  }

  lemma NullAlive(s: State, f: nat)
    ensures Alive(s, 0, f)
  {
  }

  lemma LocalAlive(s: State, ls: Locals, base: nat, depth: nat, i: nat)
    requires Held(s, ls, base) && Within(ls, depth) && i < |ls|
    ensures Alive(s, ls[i].ptr, base + 1 + depth)
  {
  }

  /** The callee starts on the caller's frame with the arguments as its locals. */
  lemma CallSafe(w: World, prog: Program, e: Expr, g: Function, m: Mem, ls: Locals, f: nat, base: nat, depth: nat, fuel: nat)
    requires MallocWorks(w) && w.strict && Ready(m, ls, base, depth) && f == base + 1 + depth && fuel > 0
    requires e.Call? && |g.params| == |e.args| && (forall n <- e.args :: Find(ls, n) >= 0) && m.s.cur + 1 < FRAME_NUMBERS
    ensures var r := ExecAll(w, prog, g.body, Mem(FramePush(m.s), m.tick), Params(g.params, Pointers(ls, e.args)), 0, fuel - 1);
            r.Done? ==>
              var s' := Leave(r.m.s, r.how, r.depth, g.aggregate);
              Good(s', f) && Kept(m.s, s', f) && Alive(s', if r.how.Returned? then r.how.ptr else 0, f)
    decreases fuel, e, 0
  {
    hide Leave, ExecAll, Good, Kept, Alive, Held, Within, Like, FramePush, Params, Pointers;
    CurIs(m.s, f);
    var callee := Mem(FramePush(m.s), m.tick);
    var ps := Params(g.params, Pointers(ls, e.args));
    PushGood(m.s, f);
    ParamsHeld(m.s, ls, g.params, e.args, base, depth);
    AllSafe(w, prog, g.body, callee, ps, f, 0, fuel - 1);
    var r := ExecAll(w, prog, g.body, callee, ps, 0, fuel - 1);
    if r.Done? {
      LeaveGood(r.m.s, f, r.how, r.depth, g.aggregate);
      PushKept(m.s, f);
      KeptLess(callee.s, r.m.s, f, f + 1);
      KeptThen(m.s, callee.s, r.m.s, f, f);
      KeptThen(m.s, r.m.s, Leave(r.m.s, r.how, r.depth, g.aggregate), f, f);
      NullAlive(Leave(r.m.s, r.how, r.depth, g.aggregate), f);
    }
  }

  lemma ParamsHeld(s: State, ls: Locals, params: seq<string>, args: seq<string>, base: nat, depth: nat)
    requires Held(s, ls, base) && Within(ls, depth)
    requires |params| == |args| && forall n <- args :: Find(ls, n) >= 0
    ensures Held(FramePush(s), Params(params, Pointers(ls, args)), base + 1 + depth)
    ensures Within(Params(params, Pointers(ls, args)), 0)
  {
    var ps := Params(params, Pointers(ls, args));
    forall l <- ps
      ensures Alive(FramePush(s), l.ptr, base + 1 + depth + 1 + l.depth) && l.depth == 0
    {
      var i: nat :| i < |args| && l == ps[i];
      LocalAlive(s, ls, base, depth, Find(ls, args[i]));
    }
  }

  lemma PushKept(s: State, f: nat)
    ensures Kept(s, FramePush(s), f)
  {
  }

  lemma LikeSelf(ls: Locals)
    ensures Like(ls, ls)
  {
  }

  lemma StmtSafe(w: World, prog: Program, c: Stmt, m: Mem, ls: Locals, base: nat, depth: nat, fuel: nat)
    requires MallocWorks(w) && w.strict && Ready(m, ls, base, depth)
    ensures Safe(m, ls, base, depth, Exec(w, prog, c, m, ls, depth, fuel))
    decreases fuel, c, 1
  {
    hide Good, Kept, Alive, Held, Within, Like, Eval, ExecAll, Rounds, MoveToAncestor, AttachToOwner, OwnerYounger;
    var f := base + 1 + depth;
    KeptSelf(m.s, f);
    LikeSelf(ls);
    match c
    case Let(name, e) =>
      EvalSafe(w, prog, e, m, ls, base, depth, fuel);
      var v := Eval(w, prog, e, m, ls, fuel);
      if v.Value? {
        HeldKept(m.s, v.m.s, ls, base, depth);
        PushLocal(v.m.s, ls, base, depth, Local(name, depth, v.ptr));
      }
    case Assign(name, e) => AssignSafe(w, prog, c, m, ls, base, depth, fuel);
    case Attach(owner, child) =>
      var i, j := Find(ls, owner), Find(ls, child);
      if i >= 0 && j >= 0 && !OwnerYounger(m.s, ls[i].ptr, ls[j].ptr) {
        LocalAlive(m.s, ls, base, depth, i);
        AttachGood(m.s, f, ls[i].ptr, ls[j].ptr);
        HeldKept(m.s, AttachToOwner(m.s, ls[i].ptr, ls[j].ptr), ls, base, depth);
      }
    case Block(stmts) => if m.s.cur + 1 < FRAME_NUMBERS { BlockSafe(w, prog, c, m, ls, base, depth, fuel); }
    case If(yes, no) =>
      var m1 := Mem(m.s, m.tick + 1);
      AllSafe(w, prog, yes, m1, ls, base, depth, fuel);
      AllSafe(w, prog, no, m1, ls, base, depth, fuel);
      ScopedSafe(m1, ls, base, depth, ExecAll(w, prog, yes, m1, ls, depth, fuel));
      ScopedSafe(m1, ls, base, depth, ExecAll(w, prog, no, m1, ls, depth, fuel));
    case Switch(cases) => SwitchSafe(w, prog, c, m, ls, base, depth, fuel);
    case Loop(body) => RoundsSafe(w, prog, c, m, ls, base, depth, fuel, fuel);
    case Break =>
    case Continue =>
    case Defer(_) =>
    case Return(e) =>
      EvalSafe(w, prog, e, m, ls, base, depth, fuel);
      var v := Eval(w, prog, e, m, ls, fuel);
      if v.Value? { HeldKept(m.s, v.m.s, ls, base, depth); }
  }

  lemma ScopedSafe(m: Mem, ls: Locals, base: nat, depth: nat, r: Outcome)
    requires Within(ls, depth) && Safe(m, ls, base, depth, r)
    ensures Safe(m, ls, base, depth, Scoped(ls, r))
  {
    hide Good, Alive, Kept, Held, Within, Like;
    if r.Done? && r.how.Normal? {
      KeptSelf(r.m.s, base + 1 + depth);
      OuterHeld(r.m.s, r.m.s, ls, r.ls, base, depth);
    }
  }

  /** A break out of inner blocks of a case pops their frames. */
  lemma SwitchSafe(w: World, prog: Program, c: Stmt, m: Mem, ls: Locals, base: nat, depth: nat, fuel: nat)
    requires MallocWorks(w) && w.strict && Ready(m, ls, base, depth) && c.Switch?
    ensures Safe(m, ls, base, depth, Exec(w, prog, c, m, ls, depth, fuel))
    decreases fuel, c, 0
  {
    hide Good, Kept, Alive, Held, Within, Like, ExecAll, Pops;
    var f := base + 1 + depth;
    KeptSelf(m.s, f);
    LikeSelf(ls);
    var m1, i := Mem(m.s, m.tick + 1), w.pick(m.tick);
    if i < |c.cases| {
      var k := c.cases[i];
      assert k in c.cases;
      var r := ExecAll(w, prog, k.body, m1, ls, depth, fuel);
      AllSafe(w, prog, k.body, m1, ls, base, depth, fuel);
      ScopedSafe(m1, ls, base, depth, r);
      if r.Done? && r.how.Broke? { PoppedSafe(m, ls, r, base, depth); }
    }
  }

  /** Back at the depth of a loop or switch that was left from inside. */
  lemma PoppedSafe(m: Mem, ls: Locals, r: Outcome, base: nat, depth: nat)
    requires r.Done? && r.depth >= depth && Ready(r.m, r.ls, base, r.depth) && Like(ls, r.ls) && Within(ls, depth)
    requires Kept(m.s, r.m.s, base + 1 + depth)
    ensures var s' := Pops(r.m.s, r.depth - depth);
            Ready(Mem(s', r.m.tick), Outer(ls, r.ls), base, depth) && Like(ls, Outer(ls, r.ls)) && Kept(m.s, s', base + 1 + depth)
  {
    hide Good, Kept, Held, Within, Like, Pops, Outer;
    var f := base + 1 + depth;
    var s' := Pops(r.m.s, r.depth - depth);
    PopsGood(r.m.s, f, r.depth - depth);
    KeptThen(m.s, r.m.s, s', f, f);
    OuterHeld(r.m.s, s', ls, r.ls, base, depth);
  }

  lemma PushLocal(s: State, ls: Locals, base: nat, depth: nat, l: Local)
    requires Held(s, ls, base) && Within(ls, depth) && l.depth == depth && Alive(s, l.ptr, base + 1 + depth)
    ensures Held(s, ls + [l], base) && Within(ls + [l], depth) && Like(ls, ls + [l])
  {
  }

  lemma SetLocal(s: State, ls: Locals, base: nat, depth: nat, i: nat, p: nat)
    requires Held(s, ls, base) && Within(ls, depth) && i < |ls| && Alive(s, p, base + 1 + ls[i].depth)
    ensures var ls' := ls[i := ls[i].(ptr := p)]; Held(s, ls', base) && Within(ls', depth) && Like(ls, ls')
  {
  }

  /** A value stored in an outer local is first moved to that local's frame. */
  lemma AssignSafe(w: World, prog: Program, c: Stmt, m: Mem, ls: Locals, base: nat, depth: nat, fuel: nat)
    requires MallocWorks(w) && w.strict && Ready(m, ls, base, depth) && c.Assign?
    ensures Safe(m, ls, base, depth, Exec(w, prog, c, m, ls, depth, fuel))
    decreases fuel, c, 0
  {
    hide Good, Kept, Alive, Held, Like, Eval, MoveToAncestor;
    var f := base + 1 + depth;
    var i := Find(ls, c.name);
    var v := Eval(w, prog, c.e, m, ls, fuel);
    EvalSafe(w, prog, c.e, m, ls, base, depth, fuel);
    if i >= 0 && v.Value? {
      assert ls[i].depth <= depth;
      var levels := depth - ls[i].depth;
      var s' := if levels > 0 then MoveToAncestor(v.m.s, v.ptr, levels) else v.m.s;
      KeptSelf(v.m.s, f);
      if levels > 0 {
        MoveGood(v.m.s, f, v.ptr, levels);
        MoveLands(v.m.s, base + 1 + ls[i].depth, v.ptr, levels);
      }
      KeptThen(m.s, v.m.s, s', f, f);
      HeldKept(m.s, s', ls, base, depth);
      SetLocal(s', ls, base, depth, i, v.ptr);
    }
  }

  lemma BlockSafe(w: World, prog: Program, c: Stmt, m: Mem, ls: Locals, base: nat, depth: nat, fuel: nat)
    requires MallocWorks(w) && w.strict && Ready(m, ls, base, depth) && c.Block? && m.s.cur + 1 < FRAME_NUMBERS
    ensures Safe(m, ls, base, depth, Exec(w, prog, c, m, ls, depth, fuel))
    decreases fuel, c, 0
  {
    hide Good, Kept, Alive, Held, Within, Like, ExecAll, FramePush, FramePop;
    var f := base + 1 + depth;
    var inner := Mem(FramePush(m.s), m.tick);
    CurIs(m.s, f);
    PushGood(m.s, f);
    PushKept(m.s, f);
    PushKept(m.s, f + 1);
    PushHeld(m.s, ls, base, depth);
    AllSafe(w, prog, c.stmts, inner, ls, base, depth + 1, fuel);
    var r := ExecAll(w, prog, c.stmts, inner, ls, depth + 1, fuel);
    if r.Done? {
      KeptLess(inner.s, r.m.s, f, f + 1);
      KeptThen(m.s, inner.s, r.m.s, f, f);
      if r.how.Normal? {
        PopGood(r.m.s, f);
        KeptThen(m.s, r.m.s, FramePop(r.m.s), f, f);
        OuterHeld(r.m.s, FramePop(r.m.s), ls, r.ls, base, depth);
      }
    }
  }

  lemma CurIs(s: State, f: nat)
    requires Good(s, f)
    ensures s.cur == f < FRAME_NUMBERS
  {
  }

  lemma PushHeld(s: State, ls: Locals, base: nat, depth: nat)
    requires Held(s, ls, base) && Within(ls, depth)
    ensures Held(FramePush(s), ls, base) && Within(ls, depth + 1)
  {
  }

  /** Back in the outer block, its own locals are still held. */
  lemma OuterHeld(s: State, s': State, ls: Locals, ls': Locals, base: nat, depth: nat)
    requires Held(s, ls', base) && Like(ls, ls') && Within(ls, depth) && Kept(s, s', base + 1 + depth)
    ensures Held(s', Outer(ls, ls'), base) && Within(Outer(ls, ls'), depth) && Like(ls, Outer(ls, ls'))
  {
    var out := Outer(ls, ls');
    assert forall i :: 0 <= i < |ls| ==> out[i].depth == ls[i].depth && out[i] in ls';
    HeldKept(s, s', out, base, depth);
  }

  lemma AllSafe(w: World, prog: Program, cs: seq<Stmt>, m: Mem, ls: Locals, base: nat, depth: nat, fuel: nat)
    requires MallocWorks(w) && w.strict && Ready(m, ls, base, depth)
    ensures Safe(m, ls, base, depth, ExecAll(w, prog, cs, m, ls, depth, fuel))
    decreases fuel, cs, 0
  {
    hide Good, Kept, Alive, Held, Within, Like, Exec, Ready;
    if cs == [] {
      KeptSelf(m.s, base + 1 + depth);
      LikeSelf(ls);
    } else if cs[0].Defer? {
      var d := cs[0];
      assert d in cs && d.s < d;
      AllSafe(w, prog, cs[1..], m, ls, base, depth, fuel);
      var r := ExecAll(w, prog, cs[1..], m, ls, depth, fuel);
      if r.Done? {
        SafeReady(m, ls, r, base, depth);
        StmtSafe(w, prog, d.s, r.m, r.ls, base, r.depth, fuel);
        DeferSafe(m, ls, r, base, depth, Exec(w, prog, d.s, r.m, r.ls, r.depth, fuel));
      }
    } else {
      StmtSafe(w, prog, cs[0], m, ls, base, depth, fuel);
      var r := Exec(w, prog, cs[0], m, ls, depth, fuel);
      if r.Done? && r.how.Normal? {
        AllSafe(w, prog, cs[1..], r.m, r.ls, base, depth, fuel);
        SafeThen(m, ls, r, base, depth, ExecAll(w, prog, cs[1..], r.m, r.ls, depth, fuel));
      }
    }
  }

  lemma SafeReady(m: Mem, ls: Locals, r: Outcome, base: nat, depth: nat)
    requires r.Done? && Safe(m, ls, base, depth, r)
    ensures Ready(r.m, r.ls, base, r.depth)
  {
  }

  /** What a deferred statement leaves: above all, the value on its way out is still alive. */
  lemma DeferSafe(m: Mem, ls: Locals, r: Outcome, base: nat, depth: nat, q: Outcome)
    requires r.Done? && Safe(m, ls, base, depth, r) && Safe(r.m, r.ls, base, r.depth, q)
    ensures q.Done? && q.how.Normal? ==> Safe(m, ls, base, depth, r.(m := q.m, ls := q.ls))
  {
    hide Good, Kept, Alive, Held, Within;
    if q.Done? && q.how.Normal? {
      KeptLess(r.m.s, q.m.s, base + 1 + depth, base + 1 + r.depth);
      KeptThen(m.s, r.m.s, q.m.s, base + 1 + depth, base + 1 + depth);
      if r.how.Returned? { AliveKept(r.m.s, q.m.s, r.how.ptr, base + 1 + r.depth, base + 1 + r.depth); }
    }
  }

  lemma SafeThen(m: Mem, ls: Locals, r: Outcome, base: nat, depth: nat, q: Outcome)
    requires r.Done? && Like(ls, r.ls) && Kept(m.s, r.m.s, base + 1 + depth)
    requires Safe(r.m, r.ls, base, depth, q)
    ensures Safe(m, ls, base, depth, q)
  {
    hide Good, Kept, Alive, Held, Within, Ready;
    if q.Done? { KeptThen(m.s, r.m.s, q.m.s, base + 1 + depth, base + 1 + depth); }
  }

  lemma RoundsSafe(w: World, prog: Program, c: Stmt, m: Mem, ls: Locals, base: nat, depth: nat, fuel: nat, rounds: nat)
    requires MallocWorks(w) && w.strict && Ready(m, ls, base, depth) && c.Loop?
    ensures Safe(m, ls, base, depth, Rounds(w, prog, c, m, ls, depth, fuel, rounds))
    decreases fuel, c, 0, rounds
  {
    hide Good, Kept, Alive, Held, Within, Like, Exec, Pops;
    var f := base + 1 + depth;
    KeptSelf(m.s, f);
    LikeSelf(ls);
    if rounds > 0 && w.coin(m.tick) {
      var m0 := Mem(m.s, m.tick + 1);
      StmtSafe(w, prog, c.body, m0, ls, base, depth, fuel);
      var r := Exec(w, prog, c.body, m0, ls, depth, fuel);
      if r.Done? && !r.how.Returned? {
        var m1 := Mem(Pops(r.m.s, r.depth - depth), r.m.tick);
        PoppedSafe(m, ls, r, base, depth);
        if !r.how.Broke? {
          RoundsSafe(w, prog, c, m1, Outer(ls, r.ls), base, depth, fuel, rounds - 1);
          SafeThen(m, ls, Done(Normal, m1, Outer(ls, r.ls), depth), base, depth,
                   Rounds(w, prog, c, m1, Outer(ls, r.ls), depth, fuel, rounds - 1));
        }
      }
    }
  }

  /** Scope-escape safety. Where a function body ends or is left, every local of a block at
      depth d points to nothing or to a live allocation in frame base + 1 + d or older; once
      the function has cleaned up, nothing the caller could see was freed, and the result is
      alive in the caller's frame. AllSafe says the same of every block inside. */
  lemma NothingDangles(w: World, prog: Program, f: nat, params: Locals, m: Mem, base: nat, fuel: nat)
    requires MallocWorks(w) && w.strict && f < |prog|
    requires Good(m.s, base) && base + 1 < FRAME_NUMBERS && Within(params, 0)
    requires forall l <- params :: Alive(m.s, l.ptr, base)
    ensures var r := ExecAll(w, prog, prog[f].body, Mem(FramePush(m.s), m.tick), params, 0, fuel);
            r.Done? ==>
              && Held(r.m.s, r.ls, base)
              && var s' := Leave(r.m.s, r.how, r.depth, prog[f].aggregate);
                 && s'.cur == base && Kept(m.s, s', base)
                 && (r.how.Returned? ==> Alive(s', r.how.ptr, base))
  {
    hide Leave, ExecAll, Good, Kept, Like, FramePush;
    var body := Mem(FramePush(m.s), m.tick);
    CurIs(m.s, base);
    PushGood(m.s, base);
    PushKept(m.s, base);
    forall l <- params
      ensures Alive(body.s, l.ptr, base + 1 + l.depth)
    {
      AliveKept(m.s, body.s, l.ptr, base, base);
    }
    AllSafe(w, prog, prog[f].body, body, params, base, 0, fuel);
    var r := ExecAll(w, prog, prog[f].body, body, params, 0, fuel);
    if r.Done? {
      LeaveGood(r.m.s, base, r.how, r.depth, prog[f].aggregate);
      CurIs(Leave(r.m.s, r.how, r.depth, prog[f].aggregate), base);
      KeptLess(body.s, r.m.s, base, base + 1);
      KeptThen(m.s, body.s, r.m.s, base, base);
      KeptThen(m.s, r.m.s, Leave(r.m.s, r.how, r.depth, prog[f].aggregate), base, base);
    }
  }

  // ----- attaching to a younger owner -----

  /** An attach that links keeps every local alive if and only if each local that points to
      the child or to something the child owns is to last no longer than the new owner. */
  lemma AttachHeldExactly(s: State, ls: Locals, base: nat, p: nat, c: nat)
    requires Inv(s) && p in s.owner && c in s.owner && AttachHeaders(s, p, c) != s && Held(s, ls, base)
    ensures Held(AttachHeaders(s, p, c), ls, base) <==>
            forall l <- ls :: l.ptr >= HEADER && l.ptr - HEADER in Sub(s.owner, c) ==> s.frame[p] <= base + 1 + l.depth
  {
    hide Inv;
    var s' := AttachHeaders(s, p, c);
    assert s'.frame.Keys == s.frame.Keys;
    forall l <- ls
      ensures Alive(s', l.ptr, base + 1 + l.depth) <==>
              (l.ptr >= HEADER && l.ptr - HEADER in Sub(s.owner, c) ==> s.frame[p] <= base + 1 + l.depth)
    {
      assert Alive(s, l.ptr, base + 1 + l.depth);
    }
  }

  /** `a` is attached to `b`, which lives in the inner block only. */
  const INNER_OWNER := [Let("a", New(8)), Block([Let("b", New(8)), Attach("b", "a")])]

  /** Without the restriction the local `a` is left pointing at a freed block. */
  lemma YoungerOwnerDangles(w: World, h1: nat, h2: nat)
    requires MallocWorks(w) && !w.strict && h1 != 0 && h2 != 0
    requires var s0 := FramePush(EmptyState());
             h1 == w.malloc(s0, 0, 8) && h2 == w.malloc(FramePush(Alloc(s0, h1, 8)), 1, 8)
    ensures var r := ExecAll(w, [], INNER_OWNER, Mem(FramePush(EmptyState()), 0), [], 0, 0);
            && r.Done? && r.how.Normal? && r.ls == [Local("a", 0, h1 + HEADER)]
            && h1 !in r.m.s.frame && !Held(r.m.s, r.ls, 0)
  {
    hide FramePop, AttachToOwner, Alloc, FramePush, Exec, Held;
    var s0 := FramePush(EmptyState());
    var s1 := Alloc(s0, h1, 8);
    var a := Local("a", 0, h1 + HEADER);
    var s2 := Alloc(FramePush(s1), h2, 8);
    var s3 := AttachToOwner(s2, h2 + HEADER, h1 + HEADER);
    AttachedInside(s0, s1, s2, h1, h2) by { MallocFits(w, s0, s1, h1, h2); }
    InnerRun(w, s0, s1, s2, a, h1, h2);
    assert INNER_OWNER[1..] == [INNER_OWNER[1]];
    assert ExecAll(w, [], INNER_OWNER[1..][1..], Mem(FramePop(s3), 2), [a], 0, 0) == Done(Normal, Mem(FramePop(s3), 2), [a], 0);
    assert ExecAll(w, [], INNER_OWNER[1..], Mem(s1, 1), [a], 0, 0) == Done(Normal, Mem(FramePop(s3), 2), [a], 0);
    FirstRun(w, s0, h1);
    Dangling(FramePop(s3), a, h1);
  }

  lemma FirstRun(w: World, s0: State, h1: nat)
    requires h1 != 0 && h1 == w.malloc(s0, 0, 8)
    ensures Exec(w, [], INNER_OWNER[0], Mem(s0, 0), [], 0, 0) ==
            Done(Normal, Mem(Alloc(s0, h1, 8), 1), [Local("a", 0, h1 + HEADER)], 0)
  {
    hide Alloc;
    assert [] + [Local("a", 0, h1 + HEADER)] == [Local("a", 0, h1 + HEADER)];
  }

  lemma Dangling(s: State, a: Local, h: nat)
    requires a.ptr == h + HEADER && h !in s.frame
    ensures !Held(s, [a], 0)
  {
    assert a in [a] && !Alive(s, a.ptr, 0 + 1 + a.depth);
  }

  lemma InnerRun(w: World, s0: State, s1: State, s2: State, a: Local, h1: nat, h2: nat)
    requires !w.strict && h1 != 0 && h2 != 0 && s0 == FramePush(EmptyState()) && s1 == Alloc(s0, h1, 8)
    requires h2 == w.malloc(FramePush(s1), 1, 8) && s2 == Alloc(FramePush(s1), h2, 8) && a == Local("a", 0, h1 + HEADER)
    ensures var s3 := AttachToOwner(s2, h2 + HEADER, h1 + HEADER);
            Exec(w, [], INNER_OWNER[1], Mem(s1, 1), [a], 0, 0) == Done(Normal, Mem(FramePop(s3), 2), [a], 0)
  {
    hide FramePop, AttachToOwner, Alloc;
    var b := Local("b", 1, h2 + HEADER);
    var s3 := AttachToOwner(s2, b.ptr, a.ptr);
    var inner := [Let("b", New(8)), Attach("b", "a")];
    assert [a, b][..1] == [a] && Find([a, b], "a") == 0;
    assert Exec(w, [], inner[1], Mem(s2, 2), [a, b], 1, 0) == Done(Normal, Mem(s3, 2), [a, b], 1);
    assert ExecAll(w, [], inner[1..], Mem(s2, 2), [a, b], 1, 0) == Done(Normal, Mem(s3, 2), [a, b], 1);
    assert [a] + [b] == [a, b];
    assert ExecAll(w, [], inner, Mem(FramePush(s1), 1), [a], 1, 0) == Done(Normal, Mem(s3, 2), [a, b], 1);
    AllocCur(s0, h1, 8);
  }

  lemma AllocCur(s: State, h: nat, n: nat)
    ensures Alloc(s, h, n).cur == s.cur
  {
  }

  lemma MallocFits(w: World, s0: State, s1: State, h1: nat, h2: nat)
    requires MallocWorks(w) && s0 == FramePush(EmptyState()) && s1 == Alloc(s0, h1, 8)
    requires h1 == w.malloc(s0, 0, 8) && h2 == w.malloc(FramePush(s1), 1, 8) && h1 != 0 && h2 != 0
    ensures 1 < h1 && 1 < h2 && h1 != h2
  {
    assert Fits(s0, h1, 8) && Fits(FramePush(s1), h2, 8);
  }

  lemma AttachedInside(s0: State, s1: State, s2: State, h1: nat, h2: nat)
    requires s0 == FramePush(EmptyState()) && s1 == Alloc(s0, h1, 8) && s2 == Alloc(FramePush(s1), h2, 8)
    requires 1 < h1 && 1 < h2 && h1 != h2
    ensures h1 !in FramePop(AttachToOwner(s2, h2 + HEADER, h1 + HEADER)).frame
  {
    hide Inv, Laid;
    var owner := s2.owner;
    assert owner == map[h1 := 0, h2 := 0] && s2.cur == 2;
    assert Ranked(owner, map[h1 := 0, h2 := 0]);
    UnderSelf(owner, h2);
    RootUnique(owner, h2, h2, Root(owner, h2));
    UnderStep(owner, h2, h1);
    UnderOutside(owner, 0, h1);
    UnderSelf(owner, h1);
    assert h1 in Sub(owner, h1);
  }
}
