/** What the runtime calls in the lowered code do to the allocations: the escapes of an
    assignment and of a return, the aggregate move, the pops and the shutdown, performed one
    after the other (control.rs:60-68, 146-148, 165-203; ir.rs:83-100; yc_runtime.c:401-440, 560-584). */
module EscapeEvents {
  import opened PointerHash
  import opened Wrappers
  import opened Syntax
  import opened SourceSemantics
  import opened SourceLaws
  import opened Ownership
  import opened RuntimeSpec
  import opened RuntimeLaws
  import opened FrameBalance
  import opened Lowering
  import DeferScope
  import ScopeEscape

  ghost function One(s: State, e: Event, ptrs: seq<nat>): State {
    match e
    case Push => Step(s, CPush)
    case Pop => Step(s, CPop)
    case Escape(levels) => if ptrs == [] then s else Step(s, CMoveToAncestor(ptrs[0], levels))
    case MoveFrame => Step(s, CMoveFrame)
    case Init => Step(s, CInit)
    case Shutdown => Step(s, CShutdown)
    case _ => s
  }

  function Left(e: Event, ptrs: seq<nat>): seq<nat> { if e.Escape? && ptrs != [] then ptrs[1..] else ptrs }

  /** The calls of a trace in order; each escape takes the next of the value's pointers. */
  ghost function Perform(s: State, t: Trace, ptrs: seq<nat>): State
    decreases |t|
  {
    if t == [] then s else Perform(One(s, t[0], ptrs), t[1..], Left(t[0], ptrs))
  }

  lemma PerformFirst(s: State, e: Event, t: Trace, ptrs: seq<nat>)
    ensures Perform(s, [e] + t, ptrs) == Perform(One(s, e, ptrs), t, Left(e, ptrs))
  {
    hide One;
    assert ([e] + t)[1..] == t;
  }

  // ----- escapes -----

  /** `x` is in the ownership tree of the block that the pointer points into. */
  ghost predicate InTree(s: State, p: nat, x: nat) {
    exists h: nat, r: nat :: Inside(s, h, p) && Rooted(s, h, r) && Under(s.owner, x, r)
  }

  ghost predicate InTrees(s: State, ptrs: seq<nat>, x: nat) { exists p <- ptrs :: InTree(s, p, x) }

  /** The trees of the pointers are in the frame, or stay where they are older; nothing else
      has changed. */
  ghost predicate Moved(s: State, s': State, ptrs: seq<nat>, target: nat) {
    && s'.cur == s.cur && s'.owner == s.owner && s'.size == s.size && s'.frame.Keys == s.frame.Keys
    && forall x <- s.frame :: s'.frame[x] == if InTrees(s, ptrs, x) then Min(s.frame[x], target) else s.frame[x]
  }

  lemma OneMove(s: State, p: nat, levels: nat)
    requires Inv(s) && 0 < levels <= s.cur
    ensures Moved(s, Step(s, CMoveToAncestor(p, levels)), [p], s.cur - levels)
  {
    hide Inv, Step, Under;
    if h: nat :| Inside(s, h, p) {
      var r := RootOf(s, h);
      MoveToAncestorLaw(s, h, p, r, levels);
      forall x: nat ensures InTrees(s, [p], x) <==> Under(s.owner, x, r) {
        OneTree(s, h, p, r, x);
      }
    } else {
      MoveNothing(s, p, levels);
      assert forall x: nat :: !InTree(s, p, x);
    }
  }

  lemma RootOf(s: State, h: nat) returns (r: nat)
    requires Inv(s) && h in s.owner
    ensures Rooted(s, h, r)
  {
    r := Root(s.owner, h);

  }

  lemma OneTree(s: State, h: nat, p: nat, r: nat, x: nat)
    requires Inv(s) && Inside(s, h, p) && Rooted(s, h, r)
    ensures InTrees(s, [p], x) <==> Under(s.owner, x, r)
  {
    hide Inv, Under;
    if Under(s.owner, x, r) {
      assert InTree(s, p, x);
      assert [p][0] == p;
    }
    if InTree(s, p, x) {
      var h', r' :| Inside(s, h', p) && Rooted(s, h', r') && Under(s.owner, x, r');
      InsideMeans(s, h, p);
      InsideMeans(s, h', p);
      RootedIs(s, h, r);
      RootedIs(s, h, r');
    }
  }

  lemma MovedTwice(s: State, a: State, b: State, p: nat, ptrs: seq<nat>, target: nat)
    requires Moved(s, a, [p], target) && Moved(a, b, ptrs, target)
    ensures Moved(s, b, [p] + ptrs, target)
  {
    hide InTree;
    SameTrees(s, a);
    forall x: nat ensures InTrees(s, [p] + ptrs, x) <==> InTrees(s, [p], x) || InTrees(a, ptrs, x) {
      assert ([p] + ptrs)[0] == p && [p][0] == p;
      forall q <- ptrs ensures q in [p] + ptrs { }
    }
  }

  lemma SameTrees(s: State, a: State)
    requires a.owner == s.owner && a.size == s.size
    ensures forall p: nat, x: nat :: InTree(a, p, x) <==> InTree(s, p, x)
  {
    forall p: nat, x: nat ensures InTree(a, p, x) <==> InTree(s, p, x) {
      if h: nat, r: nat :| Inside(s, h, p) && Rooted(s, h, r) && Under(s.owner, x, r) {
        assert Inside(a, h, p) && Rooted(a, h, r);
      }
      if h: nat, r: nat :| Inside(a, h, p) && Rooted(a, h, r) && Under(a.owner, x, r) {
        assert Inside(s, h, p) && Rooted(s, h, r);
      }
    }
  }

  /** One escape for each pointer, all by the same number of levels. */
  lemma {:induction false} EscapesMove(s: State, levels: nat, ptrs: seq<nat>, rest: Trace) returns (s': State)
    requires Inv(s) && 0 < levels <= s.cur
    ensures Inv(s') && Moved(s, s', ptrs, s.cur - levels)
    ensures Perform(s, Repeat(Escape(levels), |ptrs|) + rest, ptrs) == Perform(s', rest, [])
    decreases |ptrs|
  {
    hide Inv, Step, Moved, Perform;
    if ptrs == [] {
      s' := s;
      NothingMoved(s, s.cur - levels);
      assert Repeat(Escape(levels), 0) + rest == rest;
    } else {
      var p, more := ptrs[0], ptrs[1..];
      var s1 := Step(s, CMoveToAncestor(p, levels));
      OneMove(s, p, levels);
      StepKeeps(s, CMoveToAncestor(p, levels));
      MovedCur(s, s1, [p], s.cur - levels);
      s' := EscapesMove(s1, levels, more, rest);
      MovedTwice(s, s1, s', p, more, s.cur - levels);
      assert [p] + more == ptrs;
      assert Repeat(Escape(levels), |ptrs|) + rest == [Escape(levels)] + (Repeat(Escape(levels), |more|) + rest);
      PerformFirst(s, Escape(levels), Repeat(Escape(levels), |more|) + rest, ptrs);
    }
  }

  lemma NothingMoved(s: State, target: nat)
    ensures Moved(s, s, [], target)
  {
  }

  lemma MovedCur(s: State, s': State, ptrs: seq<nat>, target: nat)
    requires Moved(s, s', ptrs, target)
    ensures s'.cur == s.cur
  {
  }

  // ----- assignments -----

  /** The state holds block depth `depth` of a function called from frame `base`. */
  ghost predicate At(s: State, base: nat, depth: nat) { ScopeEscape.Good(s, base + 1 + depth) }

  /** Every pointer of an assigned value ends in the frame of the local it is assigned to, or
      an older one, with the whole tree around it, and nothing else moves. */
  lemma AssignLands(s: State, base: nat, env: Env, depth: nat, i: nat, v: Value, ptrs: seq<nat>)
    requires At(s, base, depth) && |ptrs| == v.escapes
    requires i < |env| && forall k :: i < k < |env| ==> env[k].name != env[i].name
    ensures var t := AssignEvents(env, depth, env[i].name, v);
            var s' := Perform(s, t, ptrs);
            && Effects(t) == [Did(env, v.e), Store(env[i].decl)] && t[0] == Did(env, v.e) && t[|t| - 1] == Store(env[i].decl)
            && At(s', base, depth) && Moved(s, s', ptrs, base + 1 + env[i].depth)
            && forall p <- ptrs :: ScopeEscape.Alive(s, p, base + 1 + depth) ==> ScopeEscape.Alive(s', p, base + 1 + env[i].depth)
  {
    hide Inv, Perform, Moved, InTrees, Step, ScopeEscape.Alive;
    var target := env[i].depth;
    FindIs(env, env[i].name);
    assert Find(env, env[i].name) == i;
    var did, store := Did(env, v.e), Store(env[i].decl);
    var t := AssignEvents(env, depth, env[i].name, v);
    var escapes := Escapes(v, depth, target);
    assert t == [did] + (escapes + [store]);
    PerformFirst(s, did, escapes + [store], ptrs);
    var s';
    if depth > target {
      s' := EscapesMove(s, depth - target, ptrs, [store]);
      PerformStore(s', store, []);
      MovedGood(s, s', ptrs, base + 1 + target, base + 1 + depth);
    } else {
      s' := s;
      assert escapes + [store] == [store];
      PerformStore(s, store, ptrs);
      StayedMoved(s, ptrs, base + 1 + target);
    }
    DeferScope.AssignEffects(env, depth, env[i].name, v, []);
    assert [] + t == t;
    forall p <- ptrs | ScopeEscape.Alive(s, p, base + 1 + depth) ensures ScopeEscape.Alive(s', p, base + 1 + target) {
      MovedAlive(s, s', ptrs, base + 1 + target, p, base + 1 + depth);
    }
  }

  lemma PerformStore(s: State, store: Event, ptrs: seq<nat>)
    requires store.Store?
    ensures Perform(s, [store], ptrs) == s
  {
  }

  lemma MovedGood(s: State, s': State, ptrs: seq<nat>, target: nat, f: nat)
    requires ScopeEscape.Good(s, f) && Inv(s') && Moved(s, s', ptrs, target)
    ensures ScopeEscape.Good(s', f)
  {
    hide Inv, InTrees;
  }

  lemma StayedMoved(s: State, ptrs: seq<nat>, target: nat)
    requires Bounded(s) && s.cur <= target
    ensures Moved(s, s, ptrs, target)
  {
    hide InTrees;
  }

  lemma MovedAlive(s: State, s': State, ptrs: seq<nat>, target: nat, p: nat, f: nat)
    requires Inv(s) && Moved(s, s', ptrs, target) && p in ptrs && ScopeEscape.Alive(s, p, f)
    ensures ScopeEscape.Alive(s', p, target)
  {
    hide Laid, Under;
    if p != 0 {
      var h: nat := p - HEADER;
      var r := RootOf(s, h);
      assert Inside(s, h, p) && Under(s.owner, h, r);
      assert InTree(s, p, h);
      assert InTrees(s, ptrs, h);
    }
  }

  // ----- returns -----

  /** What is in a popped frame is gone, and the rest is as it was. */
  ghost predicate Popped(s: State, s': State, f: nat)
    requires Inv(s)
  {
    && s'.cur == f && (forall x :: x in s'.owner <==> x in s.owner && s.frame[x] <= f)
    && forall x <- s'.owner :: Untouched(s, s', x)
  }

  lemma PopOne(s: State)
    requires Inv(s) && Bounded(s) && s.cur > 0
    ensures Popped(s, Step(s, CPop), s.cur - 1) && Inv(Step(s, CPop)) && Bounded(Step(s, CPop))
  {
    PopLaw(s);
    PopKeeps(s);
    PopBounded(s);
  }

  lemma PoppedTwice(s: State, a: State, b: State, f: nat)
    requires Inv(s) && Inv(a) && s.cur > 0 && f <= s.cur - 1 && Popped(s, a, s.cur - 1) && Popped(a, b, f)
    ensures Popped(s, b, f)
  {
    hide Inv;
    SameKeys(s);
    forall x ensures x in b.owner <==> x in s.owner && s.frame[x] <= f {
      if x in a.owner { assert Untouched(s, a, x); }
    }
    forall x <- b.owner ensures Untouched(s, b, x) { assert Untouched(s, a, x) && Untouched(a, b, x); }
  }

  lemma {:induction false} PopsPop(s: State, n: nat, rest: Trace) returns (s': State)
    requires Inv(s) && Bounded(s) && n <= s.cur
    ensures Inv(s') && Bounded(s') && Popped(s, s', s.cur - n)
    ensures Perform(s, Pops(n) + rest, []) == Perform(s', rest, [])
    decreases n
  {
    hide Inv, Bounded, Step, Popped, Perform;
    if n == 0 {
      s' := s;
      NonePopped(s);
      assert Pops(0) + rest == rest;
    } else {
      var s1 := Step(s, CPop);
      PopOne(s);
      PoppedCur(s, s1, s.cur - 1);
      s' := PopsPop(s1, n - 1, rest);
      PoppedTwice(s, s1, s', s.cur - n);
      assert Pops(n) + rest == [Pop] + (Pops(n - 1) + rest);
      PerformFirst(s, Pop, Pops(n - 1) + rest, []);
    }
  }

  lemma NonePopped(s: State)
    requires Inv(s) && Bounded(s)
    ensures Popped(s, s, s.cur)
  {
  }

  lemma PoppedCur(s: State, s': State, f: nat)
    requires Inv(s) && Popped(s, s', f)
    ensures s'.cur == f
  {
  }

  /** Back in the caller's frame: the trees of the value's pointers are there or in an older
      frame, all else that is not older is gone, except that an aggregate brings along all
      that is in the function's own frame if it is returned from no inner block. */
  ghost predicate BackInCaller(s: State, s': State, base: nat, depth: nat, ptrs: seq<nat>, aggregate: bool)
    requires Inv(s)
  {
    && s'.cur == base
    && (forall x :: x in s'.owner <==> x in s.owner && (InTrees(s, ptrs, x) || s.frame[x] <= base || (aggregate && depth == 0)))
    && forall x <- s'.owner ::
         x in s'.frame && x in s'.size && s'.owner[x] == s.owner[x] && s'.size[x] == s.size[x] && s'.frame[x] == Min(s.frame[x], base)
  }

  lemma ReturnParts(s: State, s1: State, s2: State, s3: State, base: nat, depth: nat, ptrs: seq<nat>, aggregate: bool)
    requires Inv(s) && Bounded(s) && s.cur == base + 1 + depth && Moved(s, s1, ptrs, base) && Inv(s1) && Inv(s2)
    requires s2 == if aggregate then Step(s1, CMoveFrame) else s1
    requires Popped(s2, s3, base)
    ensures BackInCaller(s, s3, base, depth, ptrs, aggregate)
  {
    hide Inv, InTrees, Step;
    if aggregate { MoveFrameLaw(s1); }
    SameKeys(s);
    SameKeys(s1);
    SameKeys(s2);
    forall x ensures x in s3.owner <==> x in s.owner && (InTrees(s, ptrs, x) || s.frame[x] <= base || (aggregate && depth == 0)) {
      if x in s.owner { assert s.frame[x] <= s.cur; }
    }
    forall x <- s3.owner
      ensures x in s3.frame && x in s3.size && s3.owner[x] == s.owner[x] && s3.size[x] == s.size[x] && s3.frame[x] == Min(s.frame[x], base)
    {
      assert Untouched(s2, s3, x);
    }
  }

  function Traced(v: Option<Value>): nat { if v.Some? then v.value.escapes else 0 }

  /** A return ends in the caller's frame with the value's pointers alive there; main leaves
      nothing. */
  lemma ReturnLands(s: State, base: nat, depth: nat, v: Option<Value>, main: bool, ptrs: seq<nat>)
    requires At(s, base, depth) && |ptrs| == Traced(v)
    ensures var s' := Perform(s, Epilogue(v, depth, main), ptrs);
            && (main ==> s' == State(0, map[], map[], map[]))
            && (!main ==>
                  && ScopeEscape.Good(s', base) && BackInCaller(s, s', base, depth, ptrs, v.Some? && v.value.aggregate)
                  && forall p <- ptrs :: ScopeEscape.Alive(s, p, base + 1 + depth) ==> ScopeEscape.Alive(s', p, base))
  {
    hide Inv, Bounded, Perform, Moved, InTrees, Step, Popped, BackInCaller, ScopeEscape.Alive;
    var aggregate := v.Some? && v.value.aggregate;
    var last := if main then [Shutdown] else [];
    var pops := Pops(depth + 1) + last;
    var after := (if aggregate then [MoveFrame] else []) + pops;
    assert Epilogue(v, depth, main) == Repeat(Escape(depth + 1), |ptrs|) + after;
    var s1 := EscapesMove(s, depth + 1, ptrs, after);
    MovedGood(s, s1, ptrs, base, base + 1 + depth);
    var s2 := if aggregate then Step(s1, CMoveFrame) else s1;
    if aggregate {
      PerformFirst(s1, MoveFrame, pops, []);
      AggregateGood(s1, base + depth);
    }
    assert Perform(s1, after, []) == Perform(s2, pops, []) by { if !aggregate { assert after == pops; } }
    var s3 := PopsPop(s2, depth + 1, last);
    PoppedCur(s2, s3, base);
    PerformLast(s3, main);
    ReturnParts(s, s1, s2, s3, base, depth, ptrs, aggregate);
    forall p <- ptrs | ScopeEscape.Alive(s, p, base + 1 + depth) ensures ScopeEscape.Alive(s3, p, base) {
      ReturnedAlive(s, s3, base, depth, ptrs, aggregate, p);
    }
  }

  lemma AggregateGood(s: State, f: nat)
    requires ScopeEscape.Good(s, f + 1)
    ensures ScopeEscape.Good(Step(s, CMoveFrame), f + 1)
  {
    MoveFrameKeeps(s);
  }

  lemma PerformLast(s: State, main: bool)
    ensures Perform(s, if main then [Shutdown] else [], []) == if main then State(0, map[], map[], map[]) else s
  {
    if main {
      assert [Shutdown] == [Shutdown] + [];
      PerformFirst(s, Shutdown, [], []);
    }
  }

  lemma ReturnedAlive(s: State, s': State, base: nat, depth: nat, ptrs: seq<nat>, aggregate: bool, p: nat)
    requires Inv(s) && BackInCaller(s, s', base, depth, ptrs, aggregate) && p in ptrs && ScopeEscape.Alive(s, p, base + 1 + depth)
    ensures ScopeEscape.Alive(s', p, base)
  {
    hide Laid, Under;
    if p != 0 {
      var h: nat := p - HEADER;
      var r := RootOf(s, h);
      assert Inside(s, h, p) && Under(s.owner, h, r);
      assert InTree(s, p, h);
      assert InTrees(s, ptrs, h);
    }
  }

  // ----- frames -----

  /** main starts in frame 1 of an empty runtime, any other function one frame further in. */
  lemma EntryLands(s: State, main: bool)
    requires s.cur + 1 < FRAME_NUMBERS
    ensures Perform(s, Entry(main), []) == s.(cur := if main then 1 else s.cur + 1)
  {
    if main {
      assert [Init, Push] == [Init] + [Push];
      PerformFirst(s, Init, [Push], []);
    }
    assert [Push] == [Push] + [];
    PerformFirst(if main then s.(cur := 0) else s, Push, [], []);
  }

  /** The frames a trace is counted to hold are the ones the runtime has pushed: the current
      frame is that many above the one the function was called in. */
  lemma {:induction false} FramesAreCurrent(s: State, base: nat, held: nat, t: Trace, ptrs: seq<nat>)
    requires s.cur == base + held && base + held + |t| < FRAME_NUMBERS && Frames(held, t) >= 0
    requires base == 0 || (Init !in t && Shutdown !in t)
    ensures Perform(s, t, ptrs).cur == base + Frames(held, t)
    decreases |t|
  {
    hide One, After;
    if t != [] {
      var e, rest := t[0], t[1..];
      assert t == [e] + rest;
      FramesPlus(held, [e], rest);
      FramesStick(held, [e], rest);
      FramesOfOne(held, e);
      var k := After(held, e);
      CurAfter(s, base, held, e, ptrs);
      PerformFirst(s, e, rest, ptrs);
      FramesAreCurrent(One(s, e, ptrs), base, k, rest, Left(e, ptrs));
    }
  }

  lemma CurAfter(s: State, base: nat, held: nat, e: Event, ptrs: seq<nat>)
    requires s.cur == base + held && base + held + 1 < FRAME_NUMBERS && After(held, e) >= 0
    requires base == 0 || (e != Init && e != Shutdown)
    ensures After(held, e) <= held + 1 && One(s, e, ptrs).cur == base + After(held, e)
  {
    hide Under, ContainingOf, Forest;
  }

  // ----- the programs of ScopeEscape -----

  lemma {:induction false} PopsAre(s: State, n: nat, rest: Trace, ptrs: seq<nat>)
    ensures Perform(s, Pops(n) + rest, ptrs) == Perform(ScopeEscape.Pops(s, n), rest, ptrs)
    decreases n
  {
    hide Perform, Step;
    if n == 0 {
      assert Pops(0) + rest == rest;
    } else {
      assert Pops(n) + rest == [Pop] + (Pops(n - 1) + rest);
      PerformFirst(s, Pop, Pops(n - 1) + rest, ptrs);
      PopsAre(Step(s, CPop), n - 1, rest, ptrs);
      StepIsPop(s);
    }
  }

  lemma StepIsPop(s: State)
    ensures Step(s, CPop) == FramePop(s)
    ensures Step(s, CMoveFrame) == MoveFrameToParent(s)
    ensures forall p: nat, levels: nat :: Step(s, CMoveToAncestor(p, levels)) == MoveToAncestor(s, p, levels)
  {
  }

  /** How its programs leave a function is what the emitted cleanup does. */
  lemma LeaveIsEpilogue(s: State, e: Expr, p: nat, depth: nat, aggregate: bool)
    ensures Perform(s, Epilogue(Some(Value(e, 1, aggregate)), depth, false), [p]) ==
            ScopeEscape.Leave(s, ScopeEscape.Returned(p), depth, aggregate)
    ensures Perform(s, Epilogue(None, depth, false), []) == ScopeEscape.Leave(s, ScopeEscape.Normal, depth, aggregate)
  {
    hide Perform, Step, MoveToAncestor, MoveFrameToParent, FramePop;
    var moves := if aggregate then [MoveFrame] else [];
    var pops := Pops(depth + 1);
    assert Epilogue(Some(Value(e, 1, aggregate)), depth, false) == [Escape(depth + 1)] + (moves + pops) by {
      assert Repeat(Escape(depth + 1), 1) == [Escape(depth + 1)];
    }
    PerformFirst(s, Escape(depth + 1), moves + pops, [p]);
    var s1 := Step(s, CMoveToAncestor(p, depth + 1));
    StepIsPop(s);
    StepIsPop(s1);
    assert Left(Escape(depth + 1), [p]) == [];
    if aggregate { PerformFirst(s1, MoveFrame, pops, []); } else { assert moves + pops == pops; }
    assert pops + [] == pops;
    PopsAre(Step(s1, CMoveFrame), depth + 1, [], []);
    PopsAre(s1, depth + 1, [], []);
    PopsAre(s, depth + 1, [], []);
    assert Epilogue(None, depth, false) == pops;
    PerformNone(ScopeEscape.Leave(s, ScopeEscape.Returned(p), depth, aggregate));
    PerformNone(ScopeEscape.Leave(s, ScopeEscape.Normal, depth, aggregate));
  }

  lemma PerformNone(s: State)
    ensures Perform(s, [], []) == s
  {
  }

  /** Its locals stand for those of the generator. */
  ghost predicate SameLocals(env: Env, ls: ScopeEscape.Locals) {
    |env| == |ls| && forall i :: 0 <= i < |env| ==> env[i].name == ls[i].name && env[i].depth == ls[i].depth
  }

  lemma {:induction false} SameFind(env: Env, ls: ScopeEscape.Locals, name: string)
    requires SameLocals(env, ls)
    ensures Find(env, name) == ScopeEscape.Find(ls, name)
    decreases |env|
  {
    if env != [] && env[|env| - 1].name != name { SameFind(env[..|env| - 1], ls[..|ls| - 1], name); }
  }

  /** How its programs store a pointer is what the emitted assignment does. */
  lemma AssignIsEvents(w: ScopeEscape.World, prog: ScopeEscape.Program, name: string, rhs: ScopeEscape.Expr, m: ScopeEscape.Mem,
                       ls: ScopeEscape.Locals, depth: nat, fuel: nat, env: Env, e: Expr, aggregate: bool)
    requires SameLocals(env, ls) && Find(env, name) >= 0
    ensures var v := ScopeEscape.Eval(w, prog, rhs, m, ls, fuel);
            var r := ScopeEscape.Exec(w, prog, ScopeEscape.Assign(name, rhs), m, ls, depth, fuel);
            v.Value? ==> r.Done? && r.m.s == Perform(v.m.s, AssignEvents(env, depth, name, Value(e, 1, aggregate)), [v.ptr])
  {
    hide Perform, Step, MoveToAncestor, ScopeEscape.Eval;
    SameFind(env, ls, name);
    var v := ScopeEscape.Eval(w, prog, rhs, m, ls, fuel);
    if v.Value? {
      var target := env[Find(env, name)].depth;
      var did, store := Did(env, e), Store(DeclOf(env, name));
      var escapes := Escapes(Value(e, 1, aggregate), depth, target);
      var t := AssignEvents(env, depth, name, Value(e, 1, aggregate));
      assert t == [did] + (escapes + [store]);
      PerformFirst(v.m.s, did, escapes + [store], [v.ptr]);
      if depth > target {
        assert escapes == [Escape(depth - target)];
        PerformFirst(v.m.s, Escape(depth - target), [store], [v.ptr]);
        StepIsPop(v.m.s);
        PerformStore(Step(v.m.s, CMoveToAncestor(v.ptr, depth - target)), store, Left(Escape(depth - target), [v.ptr]));
      } else {
        assert escapes + [store] == [store];
        PerformStore(v.m.s, store, [v.ptr]);
      }
    }
  }
}
