/** When deferred statements mean what they say: exactly when, on every way through the
    function that comes to an end, no name they look up has been declared again in a scope
    still open at the exit that runs them (control.rs:69-75, ir.rs:214-216). */
module DeferCapture {
  import opened Wrappers
  import opened Syntax
  import opened SourceSemantics
  import opened DeferScope

  /** A way through a statement that comes to an end, with the locals there in the late
      reading and in the plain one. It is split if some name on it is looked up differently
      in the two. */
  datatype Way = Way(how: Completion, a: Env, b: Env, split: bool)

  predicate Differs(names: seq<string>, a: Env, b: Env) {
    exists i :: 0 <= i < |names| && DeclOf(a, names[i]) != DeclOf(b, names[i])
  }

  function Straight(a: Env, b: Env, names: seq<string>): Way { Way(Normal, a, b, Differs(names, a, b)) }

  function Marked(x: Way, split: bool): Way { x.(split := x.split || split) }

  /** Past a normal end the locals of the block are forgotten. */
  function Restored(x: Way, a: Env, b: Env): Way { if x.how.Normal? then x.(a := a, b := b) else x }

  /** A break ends the switch. */
  function Caught(x: Way, a: Env, b: Env): Way { if x.how.Broke? then Way(Normal, a, b, x.split) else x }

  /** Some answer to the condition of the switch leads to case `i`. */
  predicate Taken(cases: seq<Case>, i: nat)
    requires i < |cases|
  {
    if cases[i].lab.Some? then Labelled(cases, cases[i].lab.value) == i else Default(cases) == i
  }

  function Ways(s: Stmt, a: Env, b: Env): set<Way>
    decreases s, 1
  {
    match s
    case Block(stmts, _) => set x <- WaysAll(stmts, a, b) :: Restored(x, a, b)
    case Let(name, e) =>
      var l := Local(name, e.id, 0);
      {Straight(a, b, e.uses).(a := a + [l], b := b + [l])}
    case Assign(name, v) => {Straight(a, b, v.e.uses + [name])}
    case Eval(e) => {Straight(a, b, e.uses)}
    case Return(v) => {Straight(a, b, if v.Some? then v.value.e.uses else []).(how := Returned(v))}
    case If(c, yes, no) =>
      set x <- Ways(yes, a, b) + (if no.Some? then Ways(no.value, a, b) else {Straight(a, b, [])}) ::
        Marked(x, Differs(c.uses, a, b))
    case For(init, _, _, _) =>
      var starts := if init.Some? then Ways(init.value, a, b) else {Straight(a, b, [])};
      (set x <- starts | !x.how.Normal?)
      + set x, y | x in starts && x.how.Normal? && y in LoopWays(s, x.a, x.b) :: Marked(Restored(y, a, b), x.split)
    case Switch(e, cases) =>
      var d := Differs(e.uses, a, b);
      (if Default(cases) < 0 then {Straight(a, b, e.uses)} else {})
      + set i, x | 0 <= i < |cases| && Taken(cases, i) && x in Ways(cases[i].body, a, b) :: Marked(Caught(x, a, b), d)
    case Break => {Way(Broke, a, b, false)}
    case Continue => {Way(Continued, a, b, false)}
    case Defer(_) => {Straight(a, b, [])}
  }

  /** A deferred statement sees in the late reading what the rest of the block leaves. */
  function WaysAll(ss: seq<Stmt>, a: Env, b: Env): set<Way>
    decreases ss, 0
  {
    if ss == [] then {Straight(a, b, [])}
    else if ss[0].Defer? then
      var d := ss[0];
      assert d in ss && d.s < d;
      set x, y | x in WaysAll(ss[1..], a, b) && y in Ways(d.s, x.a, b) :: Marked(x.(a := y.a), y.split)
    else
      (set x <- Ways(ss[0], a, b) | !x.how.Normal?)
      + set x, y | x in Ways(ss[0], a, b) && x.how.Normal? && y in WaysAll(ss[1..], x.a, x.b) :: Marked(y, x.split)
  }

  function CondDiffers(s: Stmt, a: Env, b: Env): bool
    requires s.For?
  {
    s.cond.Some? && Differs(s.cond.value.uses, a, b)
  }

  function PostDiffers(s: Stmt, a: Env, b: Env): bool
    requires s.For?
  {
    s.post.Some? && Differs(s.post.value.uses, a, b)
  }

  predicate GoesOn(x: Way) { x.how.Normal? || x.how.Continued? }

  /** The rounds before the last one are split, or they are not. */
  function LoopWays(s: Stmt, a: Env, b: Env): set<Way>
    requires s.For?
    decreases s, 0
  {
    var last := LastRound(s, a, b, Ways(s.body, a, b));
    last + if SomeRoundSplits(s, a, b, Ways(s.body, a, b)) then set x <- last :: Marked(x, true) else {}
  }

  predicate SomeRoundSplits(s: Stmt, a: Env, b: Env, body: set<Way>)
    requires s.For?
  {
    exists x <- body :: GoesOn(x) && (CondDiffers(s, a, b) || x.split || PostDiffers(s, a, b))
  }

  function LastRound(s: Stmt, a: Env, b: Env, body: set<Way>): set<Way>
    requires s.For?
  {
    var c := CondDiffers(s, a, b);
    (if s.cond.Some? then {Way(Normal, a, b, c)} else {})
    + set x <- body | x.how.Broke? || x.how.Returned? :: Marked(Caught(x, a, b), c)
  }

  // ----- events and names -----

  lemma DidDiffers(e: Expr, a: Env, b: Env)
    ensures Did(a, e) == Did(b, e) <==> !Differs(e.uses, a, b)
  {
    if Did(a, e) == Did(b, e) {
      forall i | 0 <= i < |e.uses| ensures DeclOf(a, e.uses[i]) == DeclOf(b, e.uses[i]) {
        assert DeclsOf(a, e.uses)[i] == DeclsOf(b, e.uses)[i];
      }
    }
    if !Differs(e.uses, a, b) { assert DeclsOf(a, e.uses) == DeclsOf(b, e.uses); }
  }

  lemma AssignDiffers(e: Expr, name: string, a: Env, b: Env)
    ensures Differs(e.uses + [name], a, b) <==> Differs(e.uses, a, b) || DeclOf(a, name) != DeclOf(b, name)
  {
    var names := e.uses + [name];
    if Differs(names, a, b) {
      var i :| 0 <= i < |names| && DeclOf(a, names[i]) != DeclOf(b, names[i]);
    }
    if Differs(e.uses, a, b) {
      var i :| 0 <= i < |e.uses| && DeclOf(a, e.uses[i]) != DeclOf(b, e.uses[i]);
      assert names[i] == e.uses[i];
    }
    if DeclOf(a, name) != DeclOf(b, name) { assert names[|e.uses|] == name; }
  }

  /** Traces that went different ways. */
  ghost predicate Parted(t: Trace, u: Trace) { exists i :: 0 <= i < |t| && i < |u| && t[i] != u[i] }

  lemma PartedOn(t: Trace, u: Trace, t': Trace, u': Trace)
    requires Parted(t, u) && t <= t' && u <= u'
    ensures Parted(t', u') && t' != u'
  {
    var i :| 0 <= i < |t| && i < |u| && t[i] != u[i];
    assert t'[i] != u'[i];
  }

  lemma PartNow(t: Trace, e: Event, e': Event)
    requires e != e'
    ensures Parted(t + [e], t + [e'])
  {
    assert (t + [e])[|t|] != (t + [e'])[|t|];
  }

  /** Runs only add to the trace. */
  lemma {:induction false} MeanAdds(late: bool, w: World, s: Stmt, env: Env, fuel: nat, t: Trace)
    ensures var m := Mean(late, w, s, env, fuel, t); m.Means? ==> t <= m.t
    decreases s, 1
  {
    hide Did;
    match s
    case Block(stmts, _) => BodyAdds(late, w, stmts, env, fuel, t);
    case If(c, yes, no) =>
      MeanAdds(late, w, yes, env, fuel, t + [Did(env, c)]);
      if no.Some? { MeanAdds(late, w, no.value, env, fuel, t + [Did(env, c)]); }
    case For(init, _, _, _) =>
      if init.Some? { MeanAdds(late, w, init.value, env, fuel, t); }
      var r := if init.Some? then Mean(late, w, init.value, env, fuel, t) else Means(Normal, env, t);
      if r.Means? { LoopAdds(late, w, s, r.env, fuel, fuel, r.t); }
    case Switch(e, cases) =>
      var t1 := t + [Did(env, e)];
      var i := Chosen(cases, w(t1));
      if i >= 0 {
        var c := cases[i];
        assert c in cases && c.body < c;
        MeanAdds(late, w, c.body, env, fuel, t1);
      }
    case _ =>
  }

  lemma {:induction false} BodyAdds(late: bool, w: World, ss: seq<Stmt>, env: Env, fuel: nat, t: Trace)
    ensures var m := MeanBody(late, w, ss, env, fuel, t); m.Means? ==> t <= m.t
    decreases ss, 0
  {
    hide Mean;
    if ss != [] {
      if ss[0].Defer? {
        var d := ss[0];
        assert d in ss && d.s < d;
        BodyAdds(late, w, ss[1..], env, fuel, t);
        var r := MeanBody(late, w, ss[1..], env, fuel, t);
        if r.Means? { MeanAdds(late, w, d.s, if late then r.env else env, fuel, r.t); }
      } else {
        MeanAdds(late, w, ss[0], env, fuel, t);
        var r := Mean(late, w, ss[0], env, fuel, t);
        if r.Means? { BodyAdds(late, w, ss[1..], r.env, fuel, r.t); }
      }
    }
  }

  lemma {:induction false} LoopAdds(late: bool, w: World, s: Stmt, env: Env, fuel: nat, rounds: nat, t: Trace)
    requires s.For?
    ensures var m := MeanLoop(late, w, s, env, fuel, rounds, t); m.Means? ==> t <= m.t
    decreases s, 0, rounds
  {
    hide Mean, Did;
    if rounds > 0 {
      var t1 := if s.cond.Some? then t + [Did(env, s.cond.value)] else t;
      MeanAdds(late, w, s.body, env, fuel, t1);
      var r := Mean(late, w, s.body, env, fuel, t1);
      if r.Means? {
        LoopAdds(late, w, s, env, fuel, rounds - 1, if s.post.Some? then r.t + [Did(env, s.post.value)] else r.t);
      }
    }
  }

  // ----- every run is along a way -----

  function Side(late: bool, a: Env, b: Env): Env { if late then a else b }

  /** The run `m` took the way; the other reading did the same unless the way is split. */
  ghost predicate Along(late: bool, m: Meaning, o: Meaning, x: Way) {
    && m.Means? && m.how == x.how && m.env == Side(late, x.a, x.b)
    && (!x.split ==> o == Means(x.how, Side(!late, x.a, x.b), m.t))
  }

  lemma {:induction false} RunsAlong(late: bool, w: World, s: Stmt, a: Env, b: Env, fuel: nat, t: Trace) returns (x: Way)
    requires Mean(late, w, s, Side(late, a, b), fuel, t).Means?
    ensures x in Ways(s, a, b)
    ensures Along(late, Mean(late, w, s, Side(late, a, b), fuel, t), Mean(!late, w, s, Side(!late, a, b), fuel, t), x)
    decreases s, 1
  {
    hide Did, Differs, DeclOf;
    match s
    case Block(stmts, _) =>
      var y := BodyAlong(late, w, stmts, a, b, fuel, t);
      x := Restored(y, a, b);
    case Let(name, e) =>
      DidDiffers(e, a, b);
      x := Straight(a, b, e.uses).(a := a + [Local(name, e.id, 0)], b := b + [Local(name, e.id, 0)]);
    case Assign(name, v) =>
      DidDiffers(v.e, a, b);
      AssignDiffers(v.e, name, a, b);
      x := Straight(a, b, v.e.uses + [name]);
    case Eval(e) =>
      DidDiffers(e, a, b);
      x := Straight(a, b, e.uses);
    case Return(v) =>
      if v.Some? { DidDiffers(v.value.e, a, b); } else { NoneDiffers(a, b); }
      x := Straight(a, b, if v.Some? then v.value.e.uses else []).(how := Returned(v));
    case If(c, yes, no) => x := IfAlong(late, w, s, a, b, fuel, t);
    case For(_, _, _, _) => x := ForAlong(late, w, s, a, b, fuel, t);
    case Switch(_, _) => x := SwitchAlong(late, w, s, a, b, fuel, t);
    case Break => x := Way(Broke, a, b, false);
    case Continue => x := Way(Continued, a, b, false);
    case Defer(_) =>
      NoneDiffers(a, b);
      x := Straight(a, b, []);
  }

  lemma NoneDiffers(a: Env, b: Env)
    ensures !Differs([], a, b)
  {
  }

  lemma {:induction false} BodyAlong(late: bool, w: World, ss: seq<Stmt>, a: Env, b: Env, fuel: nat, t: Trace) returns (x: Way)
    requires MeanBody(late, w, ss, Side(late, a, b), fuel, t).Means?
    ensures x in WaysAll(ss, a, b)
    ensures Along(late, MeanBody(late, w, ss, Side(late, a, b), fuel, t), MeanBody(!late, w, ss, Side(!late, a, b), fuel, t), x)
    decreases ss, 0
  {
    hide Mean, Ways, Differs;
    if ss == [] {
      NoneDiffers(a, b);
      x := Straight(a, b, []);
    } else if ss[0].Defer? {
      var d := ss[0];
      assert d in ss && d.s < d;
      var y := BodyAlong(late, w, ss[1..], a, b, fuel, t);
      var r := MeanBody(late, w, ss[1..], Side(late, a, b), fuel, t);
      var z := RunsAlong(late, w, d.s, y.a, b, fuel, r.t);
      x := Marked(y.(a := z.a), z.split);
    } else {
      var y := RunsAlong(late, w, ss[0], a, b, fuel, t);
      var r := Mean(late, w, ss[0], Side(late, a, b), fuel, t);
      if r.how.Normal? {
        var z := BodyAlong(late, w, ss[1..], y.a, y.b, fuel, r.t);
        x := Marked(z, y.split);
      } else {
        x := y;
      }
    }
  }

  lemma IfAlong(late: bool, w: World, s: Stmt, a: Env, b: Env, fuel: nat, t: Trace) returns (x: Way)
    requires s.If? && Mean(late, w, s, Side(late, a, b), fuel, t).Means?
    ensures x in Ways(s, a, b)
    ensures Along(late, Mean(late, w, s, Side(late, a, b), fuel, t), Mean(!late, w, s, Side(!late, a, b), fuel, t), x)
    decreases s, 0
  {
    hide Did, Differs;
    DidDiffers(s.c, a, b);
    var t1 := t + [Did(Side(late, a, b), s.c)];
    var y;
    if w(t1) != 0 {
      y := RunsAlong(late, w, s.yes, a, b, fuel, t1);
    } else if s.no.Some? {
      y := RunsAlong(late, w, s.no.value, a, b, fuel, t1);
    } else {
      NoneDiffers(a, b);
      y := Straight(a, b, []);
    }
    x := Marked(y, Differs(s.c.uses, a, b));
  }

  lemma ForAlong(late: bool, w: World, s: Stmt, a: Env, b: Env, fuel: nat, t: Trace) returns (x: Way)
    requires s.For? && Mean(late, w, s, Side(late, a, b), fuel, t).Means?
    ensures x in Ways(s, a, b)
    ensures Along(late, Mean(late, w, s, Side(late, a, b), fuel, t), Mean(!late, w, s, Side(!late, a, b), fuel, t), x)
    decreases s, 0, fuel + 1
  {
    hide Did, Differs, LoopWays, MeanLoop;
    var y;
    if s.init.Some? {
      y := RunsAlong(late, w, s.init.value, a, b, fuel, t);
    } else {
      NoneDiffers(a, b);
      y := Straight(a, b, []);
    }
    var r := if s.init.Some? then Mean(late, w, s.init.value, Side(late, a, b), fuel, t) else Means(Normal, Side(late, a, b), t);
    if r.how.Normal? {
      var z := LoopAlong(late, w, s, y.a, y.b, fuel, fuel, r.t);
      x := Marked(Restored(z, a, b), y.split);
    } else {
      x := y;
    }
  }

  lemma {:induction false} LoopAlong(late: bool, w: World, s: Stmt, a: Env, b: Env, fuel: nat, rounds: nat, t: Trace) returns (x: Way)
    requires s.For? && MeanLoop(late, w, s, Side(late, a, b), fuel, rounds, t).Means?
    ensures x in LoopWays(s, a, b)
    ensures Along(late, MeanLoop(late, w, s, Side(late, a, b), fuel, rounds, t),
                  MeanLoop(!late, w, s, Side(!late, a, b), fuel, rounds, t), x)
    decreases s, 0, rounds
  {
    hide Did, Differs, Mean, Ways;
    var e := Side(late, a, b);
    var t1 := if s.cond.Some? then t + [Did(e, s.cond.value)] else t;
    var c := CondDiffers(s, a, b);
    if s.cond.Some? { DidDiffers(s.cond.value, a, b); }
    if s.cond.Some? && w(t1) == 0 {
      x := Way(Normal, a, b, c);
    } else {
      var y := RunsAlong(late, w, s.body, a, b, fuel, t1);
      var r := Mean(late, w, s.body, e, fuel, t1);
      if GoesOn(y) {
        if s.post.Some? { DidDiffers(s.post.value, a, b); }
        var z := LoopAlong(late, w, s, a, b, fuel, rounds - 1, if s.post.Some? then r.t + [Did(e, s.post.value)] else r.t);
        x := Marked(z, c || y.split || PostDiffers(s, a, b));
        LoopAgain(s, a, b, y, z);
      } else {
        x := Marked(Caught(y, a, b), c);
      }
    }
  }

  /** One more round in front. */
  lemma LoopAgain(s: Stmt, a: Env, b: Env, y: Way, z: Way)
    requires s.For? && y in Ways(s.body, a, b) && GoesOn(y) && z in LoopWays(s, a, b)
    ensures Marked(z, CondDiffers(s, a, b) || y.split || PostDiffers(s, a, b)) in LoopWays(s, a, b)
  {
    hide Ways, LastRound, CondDiffers, PostDiffers;
    var last := LastRound(s, a, b, Ways(s.body, a, b));
    if CondDiffers(s, a, b) || y.split || PostDiffers(s, a, b) {
      assert SomeRoundSplits(s, a, b, Ways(s.body, a, b));
      if z in last {
      } else {
        var x :| x in last && z == Marked(x, true);
        assert Marked(z, true) == Marked(x, true);
      }
    } else {
      assert Marked(z, false) == z;
    }
  }

  lemma {:induction false} ChosenTaken(cases: seq<Case>, v: int)
    ensures Labelled(cases, v) >= 0 ==> cases[Labelled(cases, v)].lab == Some(v)
    ensures Default(cases) >= 0 ==> cases[Default(cases)].lab == None
    decreases |cases|
  {
    if cases != [] { ChosenTaken(cases[1..], v); }
  }

  lemma SwitchAlong(late: bool, w: World, s: Stmt, a: Env, b: Env, fuel: nat, t: Trace) returns (x: Way)
    requires s.Switch? && Mean(late, w, s, Side(late, a, b), fuel, t).Means?
    ensures x in Ways(s, a, b)
    ensures Along(late, Mean(late, w, s, Side(late, a, b), fuel, t), Mean(!late, w, s, Side(!late, a, b), fuel, t), x)
    decreases s, 0
  {
    hide Did, Differs;
    DidDiffers(s.e, a, b);
    var t1 := t + [Did(Side(late, a, b), s.e)];
    var i := Chosen(s.cases, w(t1));
    ChosenTaken(s.cases, w(t1));
    if i < 0 {
      x := Straight(a, b, s.e.uses);
    } else {
      var c := s.cases[i];
      assert c in s.cases && c.body < c && Taken(s.cases, i);
      var y := RunsAlong(late, w, c.body, a, b, fuel, t1);
      x := Marked(Caught(y, a, b), Differs(s.e.uses, a, b));
    }
  }

  // ----- every way is taken by some run -----

  /** The world answers as the plan says, effect by effect, from `k` effects on. */
  ghost predicate Follows(w: World, k: nat, plan: seq<int>) {
    forall u: Trace :: k < |u| <= k + |plan| ==> w(u) == plan[|u| - k - 1]
  }

  lemma FollowsParts(w: World, k: nat, p: seq<int>, q: seq<int>)
    requires Follows(w, k, p + q)
    ensures Follows(w, k, p) && Follows(w, k + |p|, q)
  {
    forall u: Trace | k < |u| <= k + |p| ensures w(u) == p[|u| - k - 1] { assert w(u) == (p + q)[|u| - k - 1]; }
    forall u: Trace | k + |p| < |u| <= k + |p| + |q| ensures w(u) == q[|u| - k - |p| - 1] {
      assert w(u) == (p + q)[|u| - k - 1];
    }
  }

  /** The late run `r` took the way in as many effects as planned; the plain run `m` did the
      same, or, if the way is split, does not end or has a different trace. */
  ghost predicate Meets(r: Meaning, m: Meaning, x: Way, t: Trace, plan: seq<int>) {
    && r.Means? && r.how == x.how && r.env == x.a && t <= r.t && |r.t| == |t| + |plan|
    && if x.split then m.Endlessly? || Parted(r.t, m.t) else m == Means(x.how, x.b, r.t)
  }

  ghost predicate Planned(s: Stmt, a: Env, b: Env, x: Way, plan: seq<int>, n: nat) {
    forall w: World, fuel: nat, t: Trace :: fuel >= n && Follows(w, |t|, plan) ==>
      Meets(Mean(true, w, s, a, fuel, t), Mean(false, w, s, b, fuel, t), x, t, plan)
  }

  ghost predicate BodyPlanned(ss: seq<Stmt>, a: Env, b: Env, x: Way, plan: seq<int>, n: nat) {
    forall w: World, fuel: nat, t: Trace :: fuel >= n && Follows(w, |t|, plan) ==>
      Meets(MeanBody(true, w, ss, a, fuel, t), MeanBody(false, w, ss, b, fuel, t), x, t, plan)
  }

  ghost predicate LoopPlanned(s: Stmt, a: Env, b: Env, x: Way, plan: seq<int>, n: nat)
    requires s.For?
  {
    forall w: World, fuel: nat, rounds: nat, t: Trace :: fuel >= n && rounds >= n && Follows(w, |t|, plan) ==>
      Meets(MeanLoop(true, w, s, a, fuel, rounds, t), MeanLoop(false, w, s, b, fuel, rounds, t), x, t, plan)
  }

  /** A run `r1`, `m1` along `x` goes on to `r`, `m` along `y`. */
  lemma MeetsThen(r1: Meaning, m1: Meaning, x: Way, r: Meaning, m: Meaning, y: Way, t: Trace, p: seq<int>, q: seq<int>)
    requires Meets(r1, m1, x, t, p)
    requires r.Means? && r.how == y.how && r.env == y.a && r1.t <= r.t && |r.t| == |r1.t| + |q|
    requires x.split ==> m.Endlessly? || (m1.Means? && m1.t <= m.t)
    requires !x.split ==> if y.split then m.Endlessly? || Parted(r.t, m.t) else m == Means(y.how, y.b, r.t)
    ensures Meets(r, m, Marked(y, x.split), t, p + q)
  {
    if x.split && m.Means? { PartedOn(r1.t, m1.t, r.t, m.t); }
  }

  /** An evaluated expression, planned to be answered by `v`. */
  lemma DidMeets(e: Expr, a: Env, b: Env, w: World, t: Trace, v: int)
    requires Follows(w, |t|, [v])
    ensures var t1, u1 := t + [Did(a, e)], t + [Did(b, e)];
            w(t1) == v && Meets(Means(Normal, a, t1), Means(Normal, b, u1), Straight(a, b, e.uses), t, [v])
  {
    hide Did, Differs;
    DidDiffers(e, a, b);
    if Did(a, e) != Did(b, e) { PartNow(t, Did(a, e), Did(b, e)); }
    assert w(t + [Did(a, e)]) == [v][0];
  }

  lemma {:induction false} PlanFor(s: Stmt, a: Env, b: Env, x: Way) returns (plan: seq<int>, n: nat)
    requires x in Ways(s, a, b)
    ensures Planned(s, a, b, x, plan, n)
    decreases s, 1
  {
    hide Planned, Ways;
    match s
    case Block(_, _) => plan, n := PlanBlock(s, a, b, x);
    case Let(_, _) => plan, n := PlanLet(s, a, b, x);
    case Assign(_, _) => plan, n := PlanAssign(s, a, b, x);
    case Eval(_) => plan, n := PlanEval(s, a, b, x);
    case Return(_) => plan, n := PlanReturn(s, a, b, x);
    case If(_, _, _) => plan, n := PlanIf(s, a, b, x);
    case For(_, _, _, _) => plan, n := PlanLoops(s, a, b, x);
    case Switch(_, _) => plan, n := PlanSwitch(s, a, b, x);
    case _ => plan, n := PlanNone(s, a, b, x);
  }

  lemma PlanNone(s: Stmt, a: Env, b: Env, x: Way) returns (plan: seq<int>, n: nat)
    requires x in Ways(s, a, b) && (s.Break? || s.Continue? || s.Defer?)
    ensures Planned(s, a, b, x, plan, n)
  {
    plan, n := [], 0;
    NoneDiffers(a, b);
  }

  lemma PlanEval(s: Stmt, a: Env, b: Env, x: Way) returns (plan: seq<int>, n: nat)
    requires x in Ways(s, a, b) && s.Eval?
    ensures Planned(s, a, b, x, plan, n)
  {
    hide Did, Differs, Follows, Meets;
    plan, n := [0], 0;
    forall w: World, fuel: nat, t: Trace | Follows(w, |t|, plan)
      ensures Meets(Mean(true, w, s, a, fuel, t), Mean(false, w, s, b, fuel, t), x, t, plan)
    {
      DidMeets(s.e, a, b, w, t, 0);
    }
  }

  lemma PlanReturn(s: Stmt, a: Env, b: Env, x: Way) returns (plan: seq<int>, n: nat)
    requires x in Ways(s, a, b) && s.Return?
    ensures Planned(s, a, b, x, plan, n)
  {
    hide Did, Differs, Follows;
    NoneDiffers(a, b);
    plan, n := if s.value.Some? then [0] else [], 0;
    forall w: World, fuel: nat, t: Trace | Follows(w, |t|, plan)
      ensures Meets(Mean(true, w, s, a, fuel, t), Mean(false, w, s, b, fuel, t), x, t, plan)
    {
      if s.value.Some? { DidMeets(s.value.value.e, a, b, w, t, 0); }
    }
  }

  /** Two effects, the first an evaluated expression. */
  lemma StoreMeets(e: Expr, a: Env, b: Env, w: World, t: Trace, i: int, j: int)
    requires Follows(w, |t|, [0, 0])
    ensures var t1, u1 := t + [Did(a, e), Store(i)], t + [Did(b, e), Store(j)];
            Meets(Means(Normal, a, t1), Means(Normal, b, u1), Way(Normal, a, b, Differs(e.uses, a, b) || i != j), t, [0, 0])
  {
    hide Did, Differs;
    DidDiffers(e, a, b);
    var t1, u1 := t + [Did(a, e), Store(i)], t + [Did(b, e), Store(j)];
    if Did(a, e) != Did(b, e) {
      assert t1[|t|] != u1[|t|];
    } else if i != j {
      assert t1[|t| + 1] != u1[|t| + 1];
    }
  }

  lemma PlanLet(s: Stmt, a: Env, b: Env, x: Way) returns (plan: seq<int>, n: nat)
    requires x in Ways(s, a, b) && s.Let?
    ensures Planned(s, a, b, x, plan, n)
  {
    hide Did, Differs, Follows;
    plan, n := [0, 0], 0;
    forall w: World, fuel: nat, t: Trace | Follows(w, |t|, plan)
      ensures Meets(Mean(true, w, s, a, fuel, t), Mean(false, w, s, b, fuel, t), x, t, plan)
    {
      StoreMeets(s.e, a, b, w, t, s.e.id, s.e.id);
    }
  }

  lemma PlanAssign(s: Stmt, a: Env, b: Env, x: Way) returns (plan: seq<int>, n: nat)
    requires x in Ways(s, a, b) && s.Assign?
    ensures Planned(s, a, b, x, plan, n)
  {
    hide Did, Differs, Follows, DeclOf;
    plan, n := [0, 0], 0;
    AssignDiffers(s.rhs.e, s.name, a, b);
    forall w: World, fuel: nat, t: Trace | Follows(w, |t|, plan)
      ensures Meets(Mean(true, w, s, a, fuel, t), Mean(false, w, s, b, fuel, t), x, t, plan)
    {
      StoreMeets(s.rhs.e, a, b, w, t, DeclOf(a, s.name), DeclOf(b, s.name));
    }
  }

  lemma PlanBlock(s: Stmt, a: Env, b: Env, x: Way) returns (plan: seq<int>, n: nat)
    requires x in Ways(s, a, b) && s.Block?
    ensures Planned(s, a, b, x, plan, n)
    decreases s, 0
  {
    hide Follows, MeanBody, WaysAll;
    var y :| y in WaysAll(s.stmts, a, b) && x == Restored(y, a, b);
    plan, n := PlanBody(s.stmts, a, b, y);
    forall w: World, fuel: nat, t: Trace | fuel >= n && Follows(w, |t|, plan)
      ensures Meets(Mean(true, w, s, a, fuel, t), Mean(false, w, s, b, fuel, t), x, t, plan)
    {
      assert Meets(MeanBody(true, w, s.stmts, a, fuel, t), MeanBody(false, w, s.stmts, b, fuel, t), y, t, plan);
    }
  }

  lemma {:induction false} PlanBody(ss: seq<Stmt>, a: Env, b: Env, x: Way) returns (plan: seq<int>, n: nat)
    requires x in WaysAll(ss, a, b)
    ensures BodyPlanned(ss, a, b, x, plan, n)
    decreases ss, 0
  {
    if ss == [] {
      plan, n := [], 0;
      NoneDiffers(a, b);
    } else if ss[0].Defer? {
      plan, n := PlanDefer(ss, a, b, x);
    } else {
      plan, n := PlanNext(ss, a, b, x);
    }
  }

  lemma PlanDefer(ss: seq<Stmt>, a: Env, b: Env, x: Way) returns (plan: seq<int>, n: nat)
    requires ss != [] && ss[0].Defer? && x in WaysAll(ss, a, b)
    ensures BodyPlanned(ss, a, b, x, plan, n)
    decreases ss, 0, 0
  {
    hide Ways, WaysAll, Follows, Meets, Mean, MeanBody, Marked;
    var d, rest := ss[0], ss[1..];
    assert d in ss && d.s < d;
    var y, z := WaysDefer(ss, a, b, x);
    var p, k := PlanBody(rest, a, b, y);
    var q, l := PlanFor(d.s, y.a, b, z);
    plan, n := p + q, if k > l then k else l;
    forall w: World, fuel: nat, t: Trace | fuel >= n && Follows(w, |t|, plan)
      ensures Meets(MeanBody(true, w, ss, a, fuel, t), MeanBody(false, w, ss, b, fuel, t), x, t, plan)
    {
      FollowsParts(w, |t|, p, q);
      DeferMeets(ss, a, b, y, z, w, fuel, t, p, q);
    }
  }

  lemma WaysDefer(ss: seq<Stmt>, a: Env, b: Env, x: Way) returns (y: Way, z: Way)
    requires ss != [] && ss[0].Defer? && x in WaysAll(ss, a, b)
    ensures y in WaysAll(ss[1..], a, b) && z in Ways(ss[0].s, y.a, b) && x == Marked(y.(a := z.a), z.split)
  {
    hide Ways;
    y, z :| y in WaysAll(ss[1..], a, b) && z in Ways(ss[0].s, y.a, b) && x == Marked(y.(a := z.a), z.split);
  }

  lemma BodyDefers(late: bool, w: World, ss: seq<Stmt>, env: Env, fuel: nat, t: Trace)
    requires ss != [] && ss[0].Defer?
    ensures var r := MeanBody(late, w, ss[1..], env, fuel, t);
            MeanBody(late, w, ss, env, fuel, t) ==
              if r.Endlessly? then r
              else
                var q := Mean(late, w, ss[0].s, if late then r.env else env, fuel, r.t);
                if q.Endlessly? then q else r.(t := q.t, env := if late then q.env else r.env)
  {
    hide Mean;
  }

  lemma BodyNext(late: bool, w: World, ss: seq<Stmt>, env: Env, fuel: nat, t: Trace)
    requires ss != [] && !ss[0].Defer?
    ensures var r := Mean(late, w, ss[0], env, fuel, t);
            MeanBody(late, w, ss, env, fuel, t) ==
              if r.Means? && r.how.Normal? then MeanBody(late, w, ss[1..], r.env, fuel, r.t) else r
  {
    hide Mean;
  }

  lemma DeferMeets(ss: seq<Stmt>, a: Env, b: Env, y: Way, z: Way, w: World, fuel: nat, t: Trace, p: seq<int>, q: seq<int>)
    requires ss != [] && ss[0].Defer? && Follows(w, |t| + |p|, q)
    requires Meets(MeanBody(true, w, ss[1..], a, fuel, t), MeanBody(false, w, ss[1..], b, fuel, t), y, t, p)
    requires forall u: Trace :: Follows(w, |u|, q) ==>
               Meets(Mean(true, w, ss[0].s, y.a, fuel, u), Mean(false, w, ss[0].s, b, fuel, u), z, u, q)
    ensures Meets(MeanBody(true, w, ss, a, fuel, t), MeanBody(false, w, ss, b, fuel, t), Marked(y.(a := z.a), z.split), t, p + q)
  {
    hide Mean, MeanBody, Follows;
    var r1, m1 := MeanBody(true, w, ss[1..], a, fuel, t), MeanBody(false, w, ss[1..], b, fuel, t);
    var d := ss[0];
    BodyDefers(true, w, ss, a, fuel, t);
    BodyDefers(false, w, ss, b, fuel, t);
    assert Follows(w, |r1.t|, q);
    MeanAdds(true, w, d.s, r1.env, fuel, r1.t);
    if m1.Means? { MeanAdds(false, w, d.s, b, fuel, m1.t); }
    MeetsThen(r1, m1, y, MeanBody(true, w, ss, a, fuel, t), MeanBody(false, w, ss, b, fuel, t), Way(y.how, z.a, y.b, z.split), t, p, q);
  }

  lemma PlanNext(ss: seq<Stmt>, a: Env, b: Env, x: Way) returns (plan: seq<int>, n: nat)
    requires ss != [] && !ss[0].Defer? && x in WaysAll(ss, a, b)
    ensures BodyPlanned(ss, a, b, x, plan, n)
    decreases ss, 0, 0
  {
    hide Ways, Follows, Meets, Mean;
    var s, rest := ss[0], ss[1..];
    assert s in ss;
    if x in Ways(s, a, b) && !x.how.Normal? {
      plan, n := PlanFor(s, a, b, x);
      forall w: World, fuel: nat, t: Trace | fuel >= n && Follows(w, |t|, plan)
        ensures Meets(MeanBody(true, w, ss, a, fuel, t), MeanBody(false, w, ss, b, fuel, t), x, t, plan)
      {
        StopMeets(ss, a, b, x, w, fuel, t, plan);
      }
    } else {
      var y, z :| y in Ways(s, a, b) && y.how.Normal? && z in WaysAll(rest, y.a, y.b) && x == Marked(z, y.split);
      var p, k := PlanFor(s, a, b, y);
      var q, l := PlanBody(rest, y.a, y.b, z);
      plan, n := p + q, if k > l then k else l;
      forall w: World, fuel: nat, t: Trace | fuel >= n && Follows(w, |t|, plan)
        ensures Meets(MeanBody(true, w, ss, a, fuel, t), MeanBody(false, w, ss, b, fuel, t), x, t, plan)
      {
        FollowsParts(w, |t|, p, q);
        NextMeets(ss, a, b, y, z, w, fuel, t, p, q);
      }
    }
  }

  lemma StopMeets(ss: seq<Stmt>, a: Env, b: Env, x: Way, w: World, fuel: nat, t: Trace, p: seq<int>)
    requires ss != [] && !ss[0].Defer? && !x.how.Normal?
    requires Meets(Mean(true, w, ss[0], a, fuel, t), Mean(false, w, ss[0], b, fuel, t), x, t, p)
    ensures Meets(MeanBody(true, w, ss, a, fuel, t), MeanBody(false, w, ss, b, fuel, t), x, t, p)
  {
    hide Mean;
    var m := Mean(false, w, ss[0], b, fuel, t);
    if m.Means? && x.split {
      BodyAdds(false, w, ss[1..], m.env, fuel, m.t);
      var m' := MeanBody(false, w, ss, b, fuel, t);
      if m'.Means? { PartedOn(Mean(true, w, ss[0], a, fuel, t).t, m.t, Mean(true, w, ss[0], a, fuel, t).t, m'.t); }
    }
  }

  lemma NextMeets(ss: seq<Stmt>, a: Env, b: Env, y: Way, z: Way, w: World, fuel: nat, t: Trace, p: seq<int>, q: seq<int>)
    requires ss != [] && !ss[0].Defer? && y.how.Normal? && Follows(w, |t| + |p|, q)
    requires Meets(Mean(true, w, ss[0], a, fuel, t), Mean(false, w, ss[0], b, fuel, t), y, t, p)
    requires forall u: Trace :: Follows(w, |u|, q) ==>
               Meets(MeanBody(true, w, ss[1..], y.a, fuel, u), MeanBody(false, w, ss[1..], y.b, fuel, u), z, u, q)
    ensures Meets(MeanBody(true, w, ss, a, fuel, t), MeanBody(false, w, ss, b, fuel, t), Marked(z, y.split), t, p + q)
  {
    hide Mean, MeanBody, Follows;
    var r1, m1 := Mean(true, w, ss[0], a, fuel, t), Mean(false, w, ss[0], b, fuel, t);
    BodyNext(true, w, ss, a, fuel, t);
    BodyNext(false, w, ss, b, fuel, t);
    assert Follows(w, |r1.t|, q);
    BodyAdds(true, w, ss[1..], r1.env, fuel, r1.t);
    if m1.Means? { BodyAdds(false, w, ss[1..], m1.env, fuel, m1.t); }
    MeetsThen(r1, m1, y, MeanBody(true, w, ss, a, fuel, t), MeanBody(false, w, ss, b, fuel, t), z, t, p, q);
  }

  lemma PlanIf(s: Stmt, a: Env, b: Env, x: Way) returns (plan: seq<int>, n: nat)
    requires x in Ways(s, a, b) && s.If?
    ensures Planned(s, a, b, x, plan, n)
    decreases s, 0
  {
    hide Follows, Meets, Differs, Did;
    var d := Differs(s.c.uses, a, b);
    var nothing := if s.no.Some? then Ways(s.no.value, a, b) else {Straight(a, b, [])};
    var y :| y in Ways(s.yes, a, b) + nothing && x == Marked(y, d);
    var p;
    if y in Ways(s.yes, a, b) {
      p, n := PlanFor(s.yes, a, b, y);
      plan := [1] + p;
    } else if s.no.Some? {
      p, n := PlanFor(s.no.value, a, b, y);
      plan := [0] + p;
    } else {
      p, n := [], 0;
      plan := [0] + p;
    }
    forall w: World, fuel: nat, t: Trace | fuel >= n && Follows(w, |t|, plan)
      ensures Meets(Mean(true, w, s, a, fuel, t), Mean(false, w, s, b, fuel, t), x, t, plan)
    {
      FollowsParts(w, |t|, [plan[0]], p);
      IfMeets(s, a, b, y, w, fuel, t, plan[0], p);
    }
  }

  lemma IfMeets(s: Stmt, a: Env, b: Env, y: Way, w: World, fuel: nat, t: Trace, v: int, p: seq<int>)
    requires s.If? && Follows(w, |t|, [v]) && Follows(w, |t| + 1, p)
    requires v != 0 ==> forall u: Trace :: Follows(w, |u|, p) ==>
                 Meets(Mean(true, w, s.yes, a, fuel, u), Mean(false, w, s.yes, b, fuel, u), y, u, p)
    requires v == 0 && s.no.Some? ==> forall u: Trace :: Follows(w, |u|, p) ==>
                 Meets(Mean(true, w, s.no.value, a, fuel, u), Mean(false, w, s.no.value, b, fuel, u), y, u, p)
    requires v == 0 && s.no.None? ==> y == Straight(a, b, []) && p == []
    ensures Meets(Mean(true, w, s, a, fuel, t), Mean(false, w, s, b, fuel, t), Marked(y, Differs(s.c.uses, a, b)), t, [v] + p)
  {
    hide Did, Differs;
    DidMeets(s.c, a, b, w, t, v);
    NoneDiffers(a, b);
    var t1, u1 := t + [Did(a, s.c)], t + [Did(b, s.c)];
    assert Follows(w, |t1|, p);
    MeanAdds(false, w, s.yes, b, fuel, u1);
    if s.no.Some? { MeanAdds(false, w, s.no.value, b, fuel, u1); }
    MeetsThen(Means(Normal, a, t1), Means(Normal, b, u1), Straight(a, b, s.c.uses),
              Mean(true, w, s, a, fuel, t), Mean(false, w, s, b, fuel, t), y, t, [v], p);
  }

  // ----- switches -----

  /** Above every label. */
  function Fresh(cases: seq<Case>): int {
    if cases == [] then 0
    else
      var f := Fresh(cases[1..]);
      if cases[0].lab.Some? && cases[0].lab.value >= f then cases[0].lab.value + 1 else f
  }

  lemma {:induction false} FreshUnlabelled(cases: seq<Case>, v: int)
    requires v >= Fresh(cases)
    ensures Labelled(cases, v) < 0
    decreases |cases|
  {
    if cases != [] { FreshUnlabelled(cases[1..], v); }
  }

  /** An answer that leads to the case. */
  lemma AnswerFor(cases: seq<Case>, i: nat) returns (v: int)
    requires i < |cases| && Taken(cases, i)
    ensures Chosen(cases, v) == i
  {
    v := if cases[i].lab.Some? then cases[i].lab.value else Fresh(cases);
    if cases[i].lab.None? { FreshUnlabelled(cases, v); }
  }

  lemma PlanSwitch(s: Stmt, a: Env, b: Env, x: Way) returns (plan: seq<int>, n: nat)
    requires x in Ways(s, a, b) && s.Switch?
    ensures Planned(s, a, b, x, plan, n)
    decreases s, 0
  {
    hide Follows, Meets, Differs, Did;
    if Default(s.cases) < 0 && x == Straight(a, b, s.e.uses) {
      var v := Fresh(s.cases);
      FreshUnlabelled(s.cases, v);
      plan, n := [v], 0;
      forall w: World, fuel: nat, t: Trace | Follows(w, |t|, plan)
        ensures Meets(Mean(true, w, s, a, fuel, t), Mean(false, w, s, b, fuel, t), x, t, plan)
      {
        PastMeets(s, a, b, w, fuel, t, v);
      }
    } else {
      var i, y :| 0 <= i < |s.cases| && Taken(s.cases, i) && y in Ways(s.cases[i].body, a, b)
                  && x == Marked(Caught(y, a, b), Differs(s.e.uses, a, b));
      var c := s.cases[i];
      assert c in s.cases && c.body < c;
      var v := AnswerFor(s.cases, i);
      var p;
      p, n := PlanFor(c.body, a, b, y);
      plan := [v] + p;
      forall w: World, fuel: nat, t: Trace | fuel >= n && Follows(w, |t|, plan)
        ensures Meets(Mean(true, w, s, a, fuel, t), Mean(false, w, s, b, fuel, t), x, t, plan)
      {
        FollowsParts(w, |t|, [v], p);
        CaseMeets(s, a, b, i, y, w, fuel, t, v, p);
      }
    }
  }

  /** However the plain run answers, its trace goes on from the condition. */
  lemma SwitchAdds(w: World, s: Stmt, b: Env, fuel: nat, t: Trace)
    requires s.Switch?
    ensures var m := Mean(false, w, s, b, fuel, t); m.Means? ==> t + [Did(b, s.e)] <= m.t
  {
    hide Did;
    var u1 := t + [Did(b, s.e)];
    var i := Chosen(s.cases, w(u1));
    if i >= 0 { MeanAdds(false, w, s.cases[i].body, b, fuel, u1); }
  }

  lemma PastMeets(s: Stmt, a: Env, b: Env, w: World, fuel: nat, t: Trace, v: int)
    requires s.Switch? && Follows(w, |t|, [v]) && Chosen(s.cases, v) < 0
    ensures Meets(Mean(true, w, s, a, fuel, t), Mean(false, w, s, b, fuel, t), Straight(a, b, s.e.uses), t, [v])
  {
    hide Did, Differs, Follows;
    DidMeets(s.e, a, b, w, t, v);
    SwitchAdds(w, s, b, fuel, t);
    var t1, u1 := t + [Did(a, s.e)], t + [Did(b, s.e)];
    var m := Mean(false, w, s, b, fuel, t);
    if Differs(s.e.uses, a, b) && m.Means? { PartedOn(t1, u1, t1, m.t); }
    DidDiffers(s.e, a, b);
  }

  lemma CaseMeets(s: Stmt, a: Env, b: Env, i: nat, y: Way, w: World, fuel: nat, t: Trace, v: int, p: seq<int>)
    requires s.Switch? && i < |s.cases| && Follows(w, |t|, [v]) && Follows(w, |t| + 1, p) && Chosen(s.cases, v) == i
    requires forall u: Trace :: Follows(w, |u|, p) ==>
               Meets(Mean(true, w, s.cases[i].body, a, fuel, u), Mean(false, w, s.cases[i].body, b, fuel, u), y, u, p)
    ensures Meets(Mean(true, w, s, a, fuel, t), Mean(false, w, s, b, fuel, t),
                  Marked(Caught(y, a, b), Differs(s.e.uses, a, b)), t, [v] + p)
  {
    hide Did, Differs, Follows;
    DidMeets(s.e, a, b, w, t, v);
    DidDiffers(s.e, a, b);
    var t1, u1 := t + [Did(a, s.e)], t + [Did(b, s.e)];
    assert Follows(w, |t1|, p);
    SwitchAdds(w, s, b, fuel, t);
    MeetsThen(Means(Normal, a, t1), Means(Normal, b, u1), Straight(a, b, s.e.uses),
              Mean(true, w, s, a, fuel, t), Mean(false, w, s, b, fuel, t), Caught(y, a, b), t, [v], p);
  }

  // ----- loops -----

  lemma PlanLoops(s: Stmt, a: Env, b: Env, x: Way) returns (plan: seq<int>, n: nat)
    requires x in Ways(s, a, b) && s.For?
    ensures Planned(s, a, b, x, plan, n)
    decreases s, 0, 2
  {
    hide Follows, Meets, LoopWays, Differs, Mean;
    NoneDiffers(a, b);
    var starts := if s.init.Some? then Ways(s.init.value, a, b) else {Straight(a, b, [])};
    if x in starts && !x.how.Normal? {
      plan, n := PlanFor(s.init.value, a, b, x);
      forall w: World, fuel: nat, t: Trace | fuel >= n && Follows(w, |t|, plan)
        ensures Meets(Mean(true, w, s, a, fuel, t), Mean(false, w, s, b, fuel, t), x, t, plan)
      {
        InitStops(s, a, b, x, w, fuel, t, plan);
      }
    } else {
      var y, z :| y in starts && y.how.Normal? && z in LoopWays(s, y.a, y.b) && x == Marked(Restored(z, a, b), y.split);
      var p, k := PlanInit(s, a, b, y);
      var q, l := PlanLoop(s, y.a, y.b, z);
      plan, n := p + q, if k > l then k else l;
      forall w: World, fuel: nat, t: Trace | fuel >= n && Follows(w, |t|, plan)
        ensures Meets(Mean(true, w, s, a, fuel, t), Mean(false, w, s, b, fuel, t), x, t, plan)
      {
        FollowsParts(w, |t|, p, q);
        InitMeets(s, a, b, y, z, w, fuel, t, p, q);
      }
    }
  }

  lemma PlanInit(s: Stmt, a: Env, b: Env, y: Way) returns (plan: seq<int>, n: nat)
    requires s.For? && y in if s.init.Some? then Ways(s.init.value, a, b) else {Straight(a, b, [])}
    ensures forall w: World, fuel: nat, t: Trace :: fuel >= n && Follows(w, |t|, plan) ==>
              Meets(Initial(true, w, s, a, fuel, t), Initial(false, w, s, b, fuel, t), y, t, plan)
    decreases s, 0, 0
  {
    hide Follows, Mean, Ways;
    NoneDiffers(a, b);
    if s.init.Some? { plan, n := PlanFor(s.init.value, a, b, y); } else { plan, n := [], 0; }
  }

  function Initial(late: bool, w: World, s: Stmt, env: Env, fuel: nat, t: Trace): Meaning
    requires s.For?
  {
    if s.init.Some? then Mean(late, w, s.init.value, env, fuel, t) else Means(Normal, env, t)
  }

  lemma InitAdds(w: World, s: Stmt, b: Env, fuel: nat, t: Trace)
    requires s.For?
    ensures var m1, m := Initial(false, w, s, b, fuel, t), Mean(false, w, s, b, fuel, t);
            m.Means? ==> m1.Means? && m1.t <= m.t
  {
    var m1 := Initial(false, w, s, b, fuel, t);
    if m1.Means? && m1.how.Normal? { LoopAdds(false, w, s, m1.env, fuel, fuel, m1.t); }
  }

  lemma InitStops(s: Stmt, a: Env, b: Env, x: Way, w: World, fuel: nat, t: Trace, p: seq<int>)
    requires s.For? && s.init.Some? && !x.how.Normal?
    requires Meets(Mean(true, w, s.init.value, a, fuel, t), Mean(false, w, s.init.value, b, fuel, t), x, t, p)
    ensures Meets(Mean(true, w, s, a, fuel, t), Mean(false, w, s, b, fuel, t), x, t, p)
  {
    InitAdds(w, s, b, fuel, t);
    var r, m1, m := Initial(true, w, s, a, fuel, t), Initial(false, w, s, b, fuel, t), Mean(false, w, s, b, fuel, t);
    if x.split && m.Means? { PartedOn(r.t, m1.t, r.t, m.t); }
  }

  lemma InitMeets(s: Stmt, a: Env, b: Env, y: Way, z: Way, w: World, fuel: nat, t: Trace, p: seq<int>, q: seq<int>)
    requires s.For? && y.how.Normal? && Follows(w, |t| + |p|, q)
    requires Meets(Initial(true, w, s, a, fuel, t), Initial(false, w, s, b, fuel, t), y, t, p)
    requires forall u: Trace :: Follows(w, |u|, q) ==>
               Meets(MeanLoop(true, w, s, y.a, fuel, fuel, u), MeanLoop(false, w, s, y.b, fuel, fuel, u), z, u, q)
    ensures Meets(Mean(true, w, s, a, fuel, t), Mean(false, w, s, b, fuel, t), Marked(Restored(z, a, b), y.split), t, p + q)
  {
    hide Follows, MeanLoop;
    InitAdds(w, s, b, fuel, t);
    var r1, m1 := Initial(true, w, s, a, fuel, t), Initial(false, w, s, b, fuel, t);
    assert Follows(w, |r1.t|, q);
    LoopAdds(true, w, s, r1.env, fuel, fuel, r1.t);
    MeetsThen(r1, m1, y, Mean(true, w, s, a, fuel, t), Mean(false, w, s, b, fuel, t), Restored(z, a, b), t, p, q);
  }

  lemma PlanLoop(s: Stmt, a: Env, b: Env, x: Way) returns (plan: seq<int>, n: nat)
    requires s.For? && x in LoopWays(s, a, b)
    ensures LoopPlanned(s, a, b, x, plan, n)
    decreases s, 0, 1
  {
    hide Follows, Meets, LastRound, Ways, CondDiffers, PostDiffers, MeanLoop;
    var last := LastRound(s, a, b, Ways(s.body, a, b));
    if x in last {
      plan, n := PlanLast(s, a, b, x);
    } else {
      var z :| z in last && x == Marked(z, true);
      var y :| y in Ways(s.body, a, b) && GoesOn(y) && RoundSplit(s, a, b, y);
      var p, k := PlanFor(s.body, a, b, y);
      var q, l := PlanLast(s, a, b, z);
      plan, n := RoundPlan(s, p) + q, (if k > l then k else l) + 1;
      forall w: World, fuel: nat, rounds: nat, t: Trace | fuel >= n && rounds >= n && Follows(w, |t|, plan)
        ensures Meets(MeanLoop(true, w, s, a, fuel, rounds, t), MeanLoop(false, w, s, b, fuel, rounds, t), x, t, plan)
      {
        FollowsParts(w, |t|, RoundPlan(s, p), q);
        RoundMeets(s, a, b, y, z, w, fuel, rounds, t, p, q);
      }
    }
  }

  function Entering(s: Stmt): seq<int>
    requires s.For?
  {
    if s.cond.Some? then [1] else []
  }

  /** A round that goes on to the next. */
  function RoundPlan(s: Stmt, p: seq<int>): seq<int>
    requires s.For?
  {
    Entering(s) + p + if s.post.Some? then [0] else []
  }

  lemma PlanLast(s: Stmt, a: Env, b: Env, x: Way) returns (plan: seq<int>, n: nat)
    requires s.For? && x in LastRound(s, a, b, Ways(s.body, a, b))
    ensures LoopPlanned(s, a, b, x, plan, n)
    decreases s, 0, 0
  {
    hide Follows, Meets, Ways, CondDiffers, Differs, MeanLoop;
    var c := CondDiffers(s, a, b);
    if s.cond.Some? && x == Way(Normal, a, b, c) {
      plan, n := [0], 1;
      forall w: World, fuel: nat, rounds: nat, t: Trace | rounds >= n && Follows(w, |t|, plan)
        ensures Meets(MeanLoop(true, w, s, a, fuel, rounds, t), MeanLoop(false, w, s, b, fuel, rounds, t), x, t, plan)
      {
        OverMeets(s, a, b, w, fuel, rounds, t);
      }
    } else {
      var y :| y in Ways(s.body, a, b) && (y.how.Broke? || y.how.Returned?) && x == Marked(Caught(y, a, b), c);
      var p, k := PlanFor(s.body, a, b, y);
      plan, n := Entering(s) + p, k + 1;
      forall w: World, fuel: nat, rounds: nat, t: Trace | fuel >= n && rounds >= n && Follows(w, |t|, plan)
        ensures Meets(MeanLoop(true, w, s, a, fuel, rounds, t), MeanLoop(false, w, s, b, fuel, rounds, t), x, t, plan)
      {
        FollowsParts(w, |t|, Entering(s), p);
        LeaveMeets(s, a, b, y, w, fuel, rounds, t, p);
      }
    }
  }

  function AtCond(s: Stmt, env: Env, t: Trace): Trace
    requires s.For?
  {
    if s.cond.Some? then t + [Did(env, s.cond.value)] else t
  }

  function AtPost(s: Stmt, env: Env, t: Trace): Trace
    requires s.For?
  {
    if s.post.Some? then t + [Did(env, s.post.value)] else t
  }

  /** One round of a loop, laid open. */
  lemma LoopUnfolds(late: bool, w: World, s: Stmt, env: Env, fuel: nat, rounds: nat, t: Trace)
    requires s.For? && rounds > 0
    ensures var t1 := AtCond(s, env, t);
            var r := Mean(late, w, s.body, env, fuel, t1);
            MeanLoop(late, w, s, env, fuel, rounds, t) ==
              if s.cond.Some? && w(t1) == 0 then Means(Normal, env, t1)
              else if r.Endlessly? || r.how.Returned? then r
              else if r.how.Broke? then Means(Normal, env, r.t)
              else MeanLoop(late, w, s, env, fuel, rounds - 1, AtPost(s, env, r.t))
  {
    hide Mean, Did;
  }

  /** The trace of a round, at each of its stages, is part of the trace of the loop. */
  lemma RoundAdds(w: World, s: Stmt, b: Env, fuel: nat, rounds: nat, t: Trace)
    requires s.For? && rounds > 0
    ensures var m := MeanLoop(false, w, s, b, fuel, rounds, t);
            var u1 := AtCond(s, b, t);
            var m1 := Mean(false, w, s.body, b, fuel, u1);
            m.Means? ==>
              && u1 <= m.t
              && (!(s.cond.Some? && w(u1) == 0) ==>
                    && m1.Means? && m1.t <= m.t
                    && (m1.how.Normal? || m1.how.Continued? ==> AtPost(s, b, m1.t) <= m.t))
  {
    hide Mean, MeanLoop, Did;
    LoopUnfolds(false, w, s, b, fuel, rounds, t);
    var u1 := AtCond(s, b, t);
    MeanAdds(false, w, s.body, b, fuel, u1);
    var m1 := Mean(false, w, s.body, b, fuel, u1);
    if m1.Means? {
      LoopAdds(false, w, s, b, fuel, rounds - 1, AtPost(s, b, m1.t));
    }
  }

  lemma CondMeets(s: Stmt, a: Env, b: Env, w: World, t: Trace, v: int)
    requires s.For? && (s.cond.Some? ==> Follows(w, |t|, [v]))
    ensures var t1, u1 := AtCond(s, a, t), AtCond(s, b, t);
            && (s.cond.Some? ==> w(t1) == v) && |t1| == |t| + (if s.cond.Some? then 1 else 0) && t <= t1
            && if CondDiffers(s, a, b) then Parted(t1, u1) else t1 == u1
  {
    hide Did, Differs;
    if s.cond.Some? {
      DidMeets(s.cond.value, a, b, w, t, v);
      DidDiffers(s.cond.value, a, b);
    }
  }

  lemma PostMeets(s: Stmt, a: Env, b: Env, t: Trace)
    requires s.For?
    ensures var t1, u1 := AtPost(s, a, t), AtPost(s, b, t);
            && |t1| == |t| + (if s.post.Some? then 1 else 0) && t <= t1
            && if PostDiffers(s, a, b) then Parted(t1, u1) else t1 == u1
  {
    hide Did, Differs;
    if s.post.Some? {
      DidDiffers(s.post.value, a, b);
      if PostDiffers(s, a, b) { PartNow(t, Did(a, s.post.value), Did(b, s.post.value)); }
    }
  }

  /** The condition ends the loop. */
  lemma OverMeets(s: Stmt, a: Env, b: Env, w: World, fuel: nat, rounds: nat, t: Trace)
    requires s.For? && s.cond.Some? && rounds > 0 && Follows(w, |t|, [0])
    ensures Meets(MeanLoop(true, w, s, a, fuel, rounds, t), MeanLoop(false, w, s, b, fuel, rounds, t),
                  Way(Normal, a, b, CondDiffers(s, a, b)), t, [0])
  {
    hide Follows, MeanLoop, Mean, CondDiffers, AtCond;
    CondMeets(s, a, b, w, t, 0);
    LoopUnfolds(true, w, s, a, fuel, rounds, t);
    LoopUnfolds(false, w, s, b, fuel, rounds, t);
    RoundAdds(w, s, b, fuel, rounds, t);
    var t1, m := AtCond(s, a, t), MeanLoop(false, w, s, b, fuel, rounds, t);
    if CondDiffers(s, a, b) && m.Means? { PartedOn(t1, AtCond(s, b, t), t1, m.t); }
  }

  /** The body leaves the loop. */
  lemma LeaveMeets(s: Stmt, a: Env, b: Env, y: Way, w: World, fuel: nat, rounds: nat, t: Trace, p: seq<int>)
    requires s.For? && rounds > 0 && (y.how.Broke? || y.how.Returned?)
    requires Follows(w, |t|, Entering(s)) && Follows(w, |t| + |Entering(s)|, p)
    requires forall u: Trace :: Follows(w, |u|, p) ==>
               Meets(Mean(true, w, s.body, a, fuel, u), Mean(false, w, s.body, b, fuel, u), y, u, p)
    ensures Meets(MeanLoop(true, w, s, a, fuel, rounds, t), MeanLoop(false, w, s, b, fuel, rounds, t),
                  Marked(Caught(y, a, b), CondDiffers(s, a, b)), t, Entering(s) + p)
  {
    hide Follows, MeanLoop, Mean, CondDiffers, AtCond;
    CondMeets(s, a, b, w, t, 1);
    LoopUnfolds(true, w, s, a, fuel, rounds, t);
    LoopUnfolds(false, w, s, b, fuel, rounds, t);
    RoundAdds(w, s, b, fuel, rounds, t);
    var t1, u1 := AtCond(s, a, t), AtCond(s, b, t);
    assert Follows(w, |t1|, p);
    var r, m := Mean(true, w, s.body, a, fuel, t1), MeanLoop(false, w, s, b, fuel, rounds, t);
    if m.Means? {
      if CondDiffers(s, a, b) {
        PartedOn(t1, u1, r.t, m.t);
      } else if y.split {
        var m1 := Mean(false, w, s.body, b, fuel, u1);
        PartedOn(r.t, m1.t, r.t, m.t);
      }
    }
  }

  /** After one round the late run stands at `t2`, and so does the plain one, or it parted. */
  ghost predicate Round(r: Meaning, m: Meaning, r2: Meaning, m2: Meaning, t2: Trace, split: bool) {
    r == r2 && if split then m.Endlessly? || exists u :: Parted(t2, u) && u <= m.t else m == m2
  }

  function RoundSplit(s: Stmt, a: Env, b: Env, y: Way): bool
    requires s.For?
  {
    CondDiffers(s, a, b) || y.split || PostDiffers(s, a, b)
  }

  lemma RoundMade(s: Stmt, a: Env, b: Env, y: Way, w: World, fuel: nat, rounds: nat, t: Trace, p: seq<int>) returns (t2: Trace)
    requires s.For? && rounds > 0 && GoesOn(y) && Follows(w, |t|, RoundPlan(s, p))
    requires forall u: Trace :: Follows(w, |u|, p) ==>
               Meets(Mean(true, w, s.body, a, fuel, u), Mean(false, w, s.body, b, fuel, u), y, u, p)
    ensures t <= t2 && |t2| == |t| + |RoundPlan(s, p)|
    ensures Round(MeanLoop(true, w, s, a, fuel, rounds, t), MeanLoop(false, w, s, b, fuel, rounds, t),
                  MeanLoop(true, w, s, a, fuel, rounds - 1, t2), MeanLoop(false, w, s, b, fuel, rounds - 1, t2),
                  t2, RoundSplit(s, a, b, y))
  {
    hide Follows, MeanLoop, Mean, CondDiffers, PostDiffers, AtCond, AtPost;
    var post := if s.post.Some? then [0] else [];
    FollowsParts(w, |t|, Entering(s) + p, post);
    FollowsParts(w, |t|, Entering(s), p);
    CondMeets(s, a, b, w, t, 1);
    LoopUnfolds(true, w, s, a, fuel, rounds, t);
    LoopUnfolds(false, w, s, b, fuel, rounds, t);
    RoundAdds(w, s, b, fuel, rounds, t);
    var t1, u1 := AtCond(s, a, t), AtCond(s, b, t);
    assert Follows(w, |t1|, p);
    var r1, m1 := Mean(true, w, s.body, a, fuel, t1), Mean(false, w, s.body, b, fuel, u1);
    PostMeets(s, a, b, r1.t);
    t2 := AtPost(s, a, r1.t);
    var m := MeanLoop(false, w, s, b, fuel, rounds, t);
    if m.Means? {
      if CondDiffers(s, a, b) {
        PartedOn(t1, u1, t2, u1);
      } else if y.split {
        PartedOn(r1.t, m1.t, t2, m1.t);
      } else if PostDiffers(s, a, b) {
        assert Parted(t2, AtPost(s, b, r1.t));
      }
    }
  }

  /** One round, and then the last. */
  lemma RoundMeets(s: Stmt, a: Env, b: Env, y: Way, z: Way, w: World, fuel: nat, rounds: nat, t: Trace, p: seq<int>, q: seq<int>)
    requires s.For? && rounds > 0 && GoesOn(y)
    requires Follows(w, |t|, RoundPlan(s, p)) && Follows(w, |t| + |RoundPlan(s, p)|, q)
    requires forall u: Trace :: Follows(w, |u|, p) ==>
               Meets(Mean(true, w, s.body, a, fuel, u), Mean(false, w, s.body, b, fuel, u), y, u, p)
    requires forall u: Trace :: Follows(w, |u|, q) ==>
               Meets(MeanLoop(true, w, s, a, fuel, rounds - 1, u), MeanLoop(false, w, s, b, fuel, rounds - 1, u), z, u, q)
    ensures Meets(MeanLoop(true, w, s, a, fuel, rounds, t), MeanLoop(false, w, s, b, fuel, rounds, t),
                  Marked(z, RoundSplit(s, a, b, y)), t, RoundPlan(s, p) + q)
  {
    hide Follows, MeanLoop, Mean, RoundSplit, RoundPlan;
    var t2 := RoundMade(s, a, b, y, w, fuel, rounds, t, p);
    assert Follows(w, |t2|, q);
    var r, m := MeanLoop(true, w, s, a, fuel, rounds, t), MeanLoop(false, w, s, b, fuel, rounds, t);
    if RoundSplit(s, a, b, y) && m.Means? {
      var u :| Parted(t2, u) && u <= m.t;
      PartedOn(t2, u, r.t, m.t);
    }
  }

  // ----- whole functions -----

  function WorldOf(plan: seq<int>): World { (u: Trace) => if 0 < |u| <= |plan| then plan[|u| - 1] else 0 }

  /** The run of the lowered code shows what the plain reading says. */
  ghost predicate ReadsPlainly(w: World, body: Stmt, params: Env, main: bool, fuel: nat) {
    match RunFunction(w, body, params, main, fuel)
    case Running => ReadRun(false, w, body, params, fuel) == None
    case Finished(t) => ReadRun(false, w, body, params, fuel) == Some(Effects(t))
  }

  /** Some way through the function that ends looks up a name differently in the two readings. */
  predicate Captures(body: Stmt, params: Env) { exists x <- Ways(body, Erase(params), Erase(params)) :: x.split }

  /** Deferred statements mean what they say, for all answers to the conditions, if and only
      if nothing is captured. */
  lemma DefersMeanWhatTheySay(body: Stmt, params: Env, main: bool)
    ensures (forall w, fuel :: ReadsPlainly(w, body, params, main, fuel)) <==> !Captures(body, params)
  {
    hide Mean, Ways, RunFunction, Effects;
    if Captures(body, params) {
      var x :| x in Ways(body, Erase(params), Erase(params)) && x.split;
      var w, fuel := CaptureShows(body, params, main, x);
    } else {
      forall w, fuel: nat ensures ReadsPlainly(w, body, params, main, fuel) {
        RunsLate(w, body, params, main, fuel);
        ReadingsAgree(w, body, params, fuel);
      }
    }
  }

  lemma ReadingsAgree(w: World, body: Stmt, params: Env, fuel: nat)
    requires !Captures(body, params)
    ensures ReadRun(true, w, body, params, fuel) == ReadRun(false, w, body, params, fuel)
  {
    hide Mean, Ways;
    var env := Erase(params);
    if Mean(true, w, body, env, fuel, []).Means? {
      var x := RunsAlong(true, w, body, env, env, fuel, []);
    } else if Mean(false, w, body, env, fuel, []).Means? {
      var x := RunsAlong(false, w, body, env, env, fuel, []);
    }
  }

  lemma CaptureShows(body: Stmt, params: Env, main: bool, x: Way) returns (w: World, fuel: nat)
    requires x in Ways(body, Erase(params), Erase(params)) && x.split
    ensures !ReadsPlainly(w, body, params, main, fuel)
  {
    hide Mean, Ways, RunFunction, Effects;
    var env := Erase(params);
    var plan, n := PlanFor(body, env, env, x);
    w, fuel := WorldOf(plan), n;
    var start: Trace := [];
    assert Follows(w, |start|, plan);
    var r, m := Mean(true, w, body, env, fuel, []), Mean(false, w, body, env, fuel, []);
    assert Meets(r, m, x, start, plan);
    if m.Means? { PartedOn(r.t, m.t, r.t, m.t); }
    RunsLate(w, body, params, main, fuel);
  }

  // ----- what a capture is in the text -----

  /** However a way ends, the locals it started with are still there, behind newer ones. */
  lemma {:induction false} ExitExtends(s: Stmt, a: Env, b: Env, x: Way)
    requires x in Ways(s, a, b)
    ensures a <= x.a && b <= x.b
    decreases s, 1
  {
    hide Differs;
    match s
    case Block(stmts, _) =>
      var y :| y in WaysAll(stmts, a, b) && x == Restored(y, a, b);
      BodyExtends(stmts, a, b, y);
    case If(c, yes, no) =>
      var others := if no.Some? then Ways(no.value, a, b) else {Straight(a, b, [])};
      var y :| y in Ways(yes, a, b) + others && x == Marked(y, Differs(c.uses, a, b));
      if y in Ways(yes, a, b) { ExitExtends(yes, a, b, y); } else if no.Some? { ExitExtends(no.value, a, b, y); }
    case For(_, _, _, _) => ForExtends(s, a, b, x);
    case Switch(e, cases) =>
      if !(Default(cases) < 0 && x == Straight(a, b, e.uses)) {
        var i, y :| 0 <= i < |cases| && Taken(cases, i) && y in Ways(cases[i].body, a, b)
                    && x == Marked(Caught(y, a, b), Differs(e.uses, a, b));
        assert cases[i] in cases && cases[i].body < cases[i];
        ExitExtends(cases[i].body, a, b, y);
      }
    case _ =>
  }

  lemma {:induction false} BodyExtends(ss: seq<Stmt>, a: Env, b: Env, x: Way)
    requires x in WaysAll(ss, a, b)
    ensures a <= x.a && b <= x.b
    decreases ss, 0
  {
    hide Ways, Differs;
    if ss == [] {
    } else if ss[0].Defer? {
      var d := ss[0];
      assert d in ss && d.s < d;
      var y, z :| y in WaysAll(ss[1..], a, b) && z in Ways(d.s, y.a, b) && x == Marked(y.(a := z.a), z.split);
      BodyExtends(ss[1..], a, b, y);
      ExitExtends(d.s, y.a, b, z);
    } else if x in Ways(ss[0], a, b) && !x.how.Normal? {
      ExitExtends(ss[0], a, b, x);
    } else {
      var y, z :| y in Ways(ss[0], a, b) && y.how.Normal? && z in WaysAll(ss[1..], y.a, y.b) && x == Marked(z, y.split);
      ExitExtends(ss[0], a, b, y);
      BodyExtends(ss[1..], y.a, y.b, z);
    }
  }

  lemma ForExtends(s: Stmt, a: Env, b: Env, x: Way)
    requires s.For? && x in Ways(s, a, b)
    ensures a <= x.a && b <= x.b
    decreases s, 0, 1
  {
    hide Differs, LoopWays;
    var starts := if s.init.Some? then Ways(s.init.value, a, b) else {Straight(a, b, [])};
    if x in starts && !x.how.Normal? {
      ExitExtends(s.init.value, a, b, x);
    } else {
      var y, z :| y in starts && y.how.Normal? && z in LoopWays(s, y.a, y.b) && x == Marked(Restored(z, a, b), y.split);
      if s.init.Some? { ExitExtends(s.init.value, a, b, y); }
      LoopExtends(s, y.a, y.b, z);
    }
  }

  lemma LoopExtends(s: Stmt, a: Env, b: Env, x: Way)
    requires s.For? && x in LoopWays(s, a, b)
    ensures a <= x.a && b <= x.b
    decreases s, 0, 0
  {
    hide Differs, Ways, CondDiffers;
    var last := LastRound(s, a, b, Ways(s.body, a, b));
    var z :| z in last && z.a == x.a && z.b == x.b;
    var c := CondDiffers(s, a, b);
    if !(s.cond.Some? && z == Way(Normal, a, b, c)) {
      var y :| y in Ways(s.body, a, b) && (y.how.Broke? || y.how.Returned?) && z == Marked(Caught(y, a, b), c);
      ExitExtends(s.body, a, b, y);
    }
  }

  lemma {:induction false} FindNewer(env: Env, newer: Env, name: string)
    ensures if exists l <- newer :: l.name == name then Find(env + newer, name) >= |env|
            else Find(env + newer, name) == Find(env, name)
    decreases |newer|
  {
    var all := env + newer;
    if newer == [] {
      assert all == env;
    } else {
      var front := newer[..|newer| - 1];
      var l := newer[|newer| - 1];
      assert all[..|all| - 1] == env + front && all[|all| - 1] == l && l in newer;
      FindNewer(env, front, name);
      assert forall k <- newer :: k in front || k == l;
    }
  }

  predicate Distinct(env: Env) { forall i, j :: 0 <= i < j < |env| ==> env[i].decl != env[j].decl }

  /** At an exit of a block, a name means something else than where its deferred statement
      stands exactly when it was declared again since, in a scope still open there. */
  lemma CaptureIsShadowing(ss: seq<Stmt>, a: Env, b: Env, x: Way, names: seq<string>)
    requires x in WaysAll(ss, a, b) && Distinct(x.a)
    ensures a <= x.a && (Differs(names, x.a, a) <==> exists n <- names, l <- x.a[|a|..] :: l.name == n)
  {
    hide Find;
    BodyExtends(ss, a, b, x);
    var newer := x.a[|a|..];
    assert x.a == a + newer;
    forall n: string ensures DeclOf(x.a, n) != DeclOf(a, n) <==> exists l <- newer :: l.name == n {
      FindNewer(a, newer, n);
      var i, j := Find(x.a, n), Find(a, n);
      if i >= |a| && j >= 0 { assert x.a[j] == a[j]; }
    }
    if Differs(names, x.a, a) {
      var i :| 0 <= i < |names| && DeclOf(x.a, names[i]) != DeclOf(a, names[i]);
      var l :| l in newer && l.name == names[i];
      assert names[i] in names;
    }
    if n, l :| n in names && l in newer && l.name == n {
      var i :| 0 <= i < |names| && names[i] == n;
    }
  }

  // ----- a captured name -----

  const USES_X := Expr(2, ["x"])

  /** `x` is declared, its use deferred, and an inner block declares another `x` and returns. */
  const CAPTURED := Block([Let("x", Expr(0, [])), Defer(Eval(USES_X)),
                           Block([Let("x", Expr(1, [])), Return(None)], true)], false)

  function CapturedTrace(decl: nat): Trace {
    [Eff(0, []), Store(0), Eff(1, []), Store(1), Eff(2, [decl])]
  }

  const OUTER := Local("x", 0, 0)

  const INNER := [Let("x", Expr(1, [])), Return(None)]

  lemma DidX(decl: nat, env: Env)
    requires DeclOf(env, "x") == decl
    ensures Did(env, USES_X) == Eff(2, [decl])
  {
    assert DeclsOf(env, USES_X.uses) == [decl];
  }

  lemma CapturedPlain(w: World, fuel: nat)
    ensures ReadRun(false, w, CAPTURED, [], fuel) == Some(CapturedTrace(0))
  {
    hide DeclOf, Did;
    var ss := CAPTURED.stmts;
    assert Erase([]) == [];
    DidNone([], 0);
    DidNone([OUTER], 1);
    var t1 := [Eff(0, []), Store(0)];
    var t2 := t1 + [Eff(1, []), Store(1)];
    var env2 := [OUTER, Local("x", 1, 0)];
    assert [] + t1 == t1 && [] + [OUTER] == [OUTER] && [OUTER] + [Local("x", 1, 0)] == env2;
    assert MeanBody(false, w, INNER[1..], env2, fuel, t2) == Means(Returned(None), env2, t2);
    assert Mean(false, w, INNER[0], [OUTER], fuel, t1) == Means(Normal, env2, t2);
    assert MeanBody(false, w, INNER, [OUTER], fuel, t1) == Means(Returned(None), env2, t2);
    assert ss[2..] == [Block(INNER, true)];
    assert MeanBody(false, w, ss[2..], [OUTER], fuel, t1) == Means(Returned(None), env2, t2);
    DeclOfExtended([], OUTER, "x");
    DidX(0, [OUTER]);
    assert ss[1..][1..] == ss[2..] && t2 + [Eff(2, [0])] == CapturedTrace(0);
    assert MeanBody(false, w, ss[1..], [OUTER], fuel, t1) == Means(Returned(None), env2, CapturedTrace(0));
    assert Mean(false, w, ss[0], [], fuel, []) == Means(Normal, [OUTER], t1);
    assert MeanBody(false, w, ss, [], fuel, []) == Means(Returned(None), env2, CapturedTrace(0));
    assert Mean(false, w, CAPTURED, [], fuel, []) == Means(Returned(None), env2, CapturedTrace(0));
  }

  lemma DidNone(env: Env, id: nat)
    ensures Did(env, Expr(id, [])) == Eff(id, [])
  {
    assert DeclsOf(env, []) == [];
  }

  lemma CapturedLowered(w: World, fuel: nat)
    ensures var r := RunFunction(w, CAPTURED, [], false, fuel); r.Finished? && Effects(r.t) == CapturedTrace(1)
  {
    hide DeclOf, Did, Effects, Epilogue;
    var ss := CAPTURED.stmts;
    DidNone([], 0);
    DidNone([OUTER], 1);
    var t1 := [Push, Eff(0, []), Store(0)];
    var t2 := t1 + [Push, Eff(1, []), Store(1)];
    var t3 := t2 + [Eff(2, [1])];
    var env2 := [OUTER, Local("x", 1, 1)];
    assert [Push] + [Eff(0, []), Store(0)] == t1 && [] + [OUTER] == [OUTER] && [OUTER] + [Local("x", 1, 1)] == env2;
    assert t1 + [Push] + [Eff(1, []), Store(1)] == t2;
    assert ExecBody(w, INNER[1..], env2, 1, fuel, t2) == Done(Returned(None), env2, 1, t2);
    assert Exec(w, INNER[0], [OUTER], 1, fuel, t1 + [Push]) == Done(Normal, env2, 1, t2);
    assert ExecBody(w, INNER, [OUTER], 1, fuel, t1 + [Push]) == Done(Returned(None), env2, 1, t2);
    assert ss[2..] == [Block(INNER, true)];
    assert ExecBody(w, ss[2..], [OUTER], 0, fuel, t1) == Done(Returned(None), env2, 1, t2);
    DeclOfExtended([OUTER], Local("x", 1, 1), "x");
    DidX(1, env2);
    assert ss[1..][1..] == ss[2..];
    assert ExecBody(w, ss[1..], [OUTER], 0, fuel, t1) == Done(Returned(None), env2, 1, t3);
    assert Exec(w, ss[0], [], 0, fuel, [Push]) == Done(Normal, [OUTER], 0, t1);
    assert Exec(w, CAPTURED, [], 0, fuel, [Push]) == Done(Returned(None), env2, 1, t3);
    EpilogueQuiet(None, 1, false);
    EffectsPast(t3, Epilogue(None, 1, false));
    CapturedEffects(t3);
  }

  lemma CapturedEffects(t: Trace)
    requires t == [Push, Eff(0, []), Store(0), Push, Eff(1, []), Store(1), Eff(2, [1])]
    ensures Effects(t) == CapturedTrace(1)
  {
    var a := [Push, Eff(0, []), Store(0)];
    var b := [Push, Eff(1, []), Store(1), Eff(2, [1])];
    assert t == a + b;
    EffectsPlus(a, b);
    EffectsOfSome(Eff(0, []), Store(0));
    EffectsPlus([Push, Eff(1, []), Store(1)], [Eff(2, [1])]);
    assert b == [Push, Eff(1, []), Store(1)] + [Eff(2, [1])];
    EffectsOfSome(Eff(1, []), Store(1));
    EffectsThen([], Eff(2, [1]));
    assert [] + [Eff(2, [1])] == [Eff(2, [1])];
  }

  lemma EffectsOfSome(e: Event, s: Event)
    requires e.Eff? && s.Store?
    ensures Effects([Push, e, s]) == [e, s]
  {
    EffectsOfNone([Push]);
    EffectsThen([Push], e);
    EffectsThen([Push, e], s);
    assert [Push] + [e] == [Push, e] && [Push, e] + [s] == [Push, e, s];
  }

  /** A program whose readings part, for all answers to conditions: the deferred use of the
      outer `x` is lowered at the return, where `x` is the inner one. */
  lemma CaptureMisleads(w: World, fuel: nat)
    ensures Captures(CAPTURED, [])
    ensures ReadRun(false, w, CAPTURED, [], fuel) == Some(CapturedTrace(0))
    ensures var r := RunFunction(w, CAPTURED, [], false, fuel); r.Finished? && Effects(r.t) == CapturedTrace(1)
  {
    CapturedPlain(w, fuel);
    CapturedLowered(w, fuel);
    assert CapturedTrace(0)[4] != CapturedTrace(1)[4];
    assert !ReadsPlainly(w, CAPTURED, [], false, fuel);
    DefersMeanWhatTheySay(CAPTURED, [], false);
  }

  /** The same with an inner block that is over before the exit: nothing is captured. */
  lemma ClosedScopesDoNotCapture()
    ensures !Captures(Block([Let("x", Expr(0, [])), Defer(Eval(USES_X)), Block([Let("x", Expr(1, []))], true)], false), [])
  {
    hide Differs;
    var inner := Block([Let("x", Expr(1, []))], true);
    var ss := [Let("x", Expr(0, [])), Defer(Eval(USES_X)), inner];
    assert Erase([]) == [];
    var out := [OUTER];
    assert ss[1..][1..] == [inner] && [inner][1..] == [] && inner.stmts[1..] == [] && [] + [OUTER] == out;
    SameDiffers(out);
    SameDiffers([]);
    forall x <- WaysAll([inner], out, out) ensures x == Way(Normal, out, out, false) {
      InnerWays(x, inner, out);
    }
    forall x <- WaysAll(ss[1..], out, out) ensures !x.split {
      var y, z :| y in WaysAll([inner], out, out) && z in Ways(Eval(USES_X), y.a, out) && x == Marked(y.(a := z.a), z.split);
    }
    forall x <- WaysAll(ss, [], []) ensures !x.split {
      assert forall u <- Ways(ss[0], [], []) :: u == Way(Normal, out, out, false);
      WaysNext(ss, [], [], x);
      var y, z :| y in Ways(ss[0], [], []) && y.how.Normal? && z in WaysAll(ss[1..], y.a, y.b) && x == Marked(z, y.split);
    }
  }

  lemma WaysNext(ss: seq<Stmt>, a: Env, b: Env, x: Way)
    requires ss != [] && !ss[0].Defer? && x in WaysAll(ss, a, b)
    ensures || (x in Ways(ss[0], a, b) && !x.how.Normal?)
            || exists y, z :: y in Ways(ss[0], a, b) && y.how.Normal? && z in WaysAll(ss[1..], y.a, y.b) && x == Marked(z, y.split)
  {
    hide Ways;
  }

  lemma InnerWays(x: Way, inner: Stmt, out: Env)
    requires inner == Block([Let("x", Expr(1, []))], true) && x in WaysAll([inner], out, out)
    ensures x == Way(Normal, out, out, false)
  {
    hide Differs;
    SameDiffers(out);
    assert [inner][1..] == [] && inner.stmts[1..] == [];
    forall y <- WaysAll(inner.stmts, out, out) ensures y.how.Normal? && !y.split {
      SameDiffers(out + [Local("x", 1, 0)]);
    }
    SameDiffers(out);
  }

  lemma SameDiffers(env: Env)
    ensures forall names :: !Differs(names, env, env)
  {
  }
}
