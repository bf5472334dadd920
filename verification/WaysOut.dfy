/** How statements leave the place they stand at, read off the text alone. Code behind a
    statement that leaves is dead: the generator emits nothing for it (control.rs:77-79). */
module WaysOut {
  import opened Wrappers
  import opened Syntax

  datatype Kind = ByReturn | ByBreak | ByContinue

  /** Control never passes the end of the statement. */
  predicate Stops(s: Stmt) {
    match s
    case Block(stmts, _) => StopsAll(stmts)
    case Return(_) => true
    case Break => true
    case Continue => true
    case _ => false
  }

  predicate StopsAll(ss: seq<Stmt>) { ss != [] && (Stops(ss[0]) || StopsAll(ss[1..])) }

  /** A return, or a break or continue of a loop around the statement, that is not dead. */
  predicate Out(s: Stmt, kind: Kind)
    decreases s, 1
  {
    match s
    case Block(stmts, _) => OutAll(stmts, kind)
    case Return(_) => kind == ByReturn
    case Break => kind == ByBreak
    case Continue => kind == ByContinue
    case If(_, yes, no) => Out(yes, kind) || (no.Some? && Out(no.value, kind))
    case For(_, _, _, body) => kind == ByReturn && Out(body, kind)
    case Switch(_, cases) => kind != ByBreak && exists c <- cases :: Out(c.body, kind)
    case _ => false
  }

  predicate OutAll(ss: seq<Stmt>, kind: Kind)
    decreases ss, 0
  {
    ss != [] && (Out(ss[0], kind) || (!Stops(ss[0]) && OutAll(ss[1..], kind)))
  }

  predicate GetsOut(s: Stmt) { Out(s, ByReturn) || Out(s, ByBreak) || Out(s, ByContinue) }

  /** A deferred statement, not dead, gets out of itself, or one inside it does. The `s` of
      `defer defer s` does not count: it is registered too late to be expanded. */
  predicate Recurs(s: Stmt)
    decreases s, 1
  {
    match s
    case Block(stmts, _) => RecursAll(stmts)
    case If(_, yes, no) => Recurs(yes) || (no.Some? && Recurs(no.value))
    case For(_, _, _, body) => Recurs(body)
    case Switch(_, cases) => exists c <- cases :: Recurs(c.body)
    case Defer(d) => !d.Defer? && (GetsOut(d) || Recurs(d))
    case _ => false
  }

  predicate RecursAll(ss: seq<Stmt>)
    decreases ss, 0
  {
    ss != [] && (Recurs(ss[0]) || (!Stops(ss[0]) && RecursAll(ss[1..])))
  }

  predicate Wild(d: Stmt) { !d.Defer? && (GetsOut(d) || Recurs(d)) }

  /** The `s` of a `defer defer s`, not dead, gets out of itself, or a deferred statement
      inside it does. */
  predicate Stray(s: Stmt)
    decreases s, 1
  {
    match s
    case Block(stmts, _) => StrayAll(stmts)
    case If(_, yes, no) => Stray(yes) || (no.Some? && Stray(no.value))
    case For(_, _, _, body) => Stray(body)
    case Switch(_, cases) => exists c <- cases :: Stray(c.body)
    case Defer(d) => Stray(d) || (d.Defer? && Wild(d.s))
    case _ => false
  }

  predicate StrayAll(ss: seq<Stmt>)
    decreases ss, 0
  {
    ss != [] && (Stray(ss[0]) || (!Stops(ss[0]) && StrayAll(ss[1..])))
  }

  ghost predicate Tame(ds: seq<Stmt>) { forall d <- ds :: !Wild(d) }

  function Max(a: nat, b: nat): nat { if a > b then a else b }

  /** How deeply deferred statements are nested. */
  function Nesting(s: Stmt): nat
    decreases s, 1
  {
    match s
    case Block(stmts, _) => NestingAll(stmts)
    case If(_, yes, no) => Max(Nesting(yes), if no.Some? then Nesting(no.value) else 0)
    case For(_, _, _, body) => Nesting(body)
    case Switch(_, cases) => NestingCases(cases)
    case Defer(d) => 1 + Nesting(d)
    case _ => 0
  }

  function NestingAll(ss: seq<Stmt>): nat
    decreases ss, 0
  {
    if ss == [] then 0 else Max(Nesting(ss[0]), NestingAll(ss[1..]))
  }

  function NestingCases(cases: seq<Case>): nat
    decreases cases, 0
  {
    if cases == [] then 0
    else
      var c := cases[0];
      assert c in cases && c.body < c;
      Max(Nesting(c.body), NestingCases(cases[1..]))
  }

  lemma {:induction false} StopsGetsOut(s: Stmt)
    requires Stops(s)
    ensures GetsOut(s)
    decreases s, 1
  {
    if s.Block? { AllGetsOut(s.stmts); }
  }

  lemma {:induction false} AllGetsOut(ss: seq<Stmt>)
    requires StopsAll(ss)
    ensures OutAll(ss, ByReturn) || OutAll(ss, ByBreak) || OutAll(ss, ByContinue)
    decreases ss, 0
  {
    if Stops(ss[0]) { StopsGetsOut(ss[0]); } else { AllGetsOut(ss[1..]); }
  }
}
