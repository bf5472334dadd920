/** The code the Rust seed emits, reduced to its control flow: numbered basic blocks of
    events, each closed by at most one terminator, and a machine that runs them. */
module BasicBlocks {
  import opened Wrappers
  import opened Syntax

  /** `asks` is false for the constant-true condition of a loop without one. */
  datatype Terminator =
    | Open
    | Jump(to: nat)
    | Cond(asks: bool, yes: nat, no: nat)
    | Table(labels: seq<(int, nat)>, other: nat)
    | Ret

  datatype Code = Code(code: Trace, end: Terminator)

  type Program = seq<Code>

  datatype Config = At(block: nat, pc: nat, t: Trace) | Halted(t: Trace) | Stuck

  function Target(labels: seq<(int, nat)>, other: nat, v: int): nat {
    if labels == [] then other
    else if labels[0].0 == v then labels[0].1
    else Target(labels[1..], other, v)
  }

  function Step(p: Program, w: World, c: Config): Config {
    if !c.At? then c
    else if c.block >= |p| then Stuck
    else
      var b := p[c.block];
      if c.pc < |b.code| then At(c.block, c.pc + 1, c.t + [b.code[c.pc]])
      else
        match b.end
        case Open => Stuck
        case Jump(to) => At(to, 0, c.t)
        case Cond(asks, yes, no) => At(if !asks || w(Effects(c.t)) != 0 then yes else no, 0, c.t)
        case Table(labels, other) => At(Target(labels, other, w(Effects(c.t))), 0, c.t)
        case Ret => Halted(c.t)
  }

  function Steps(p: Program, w: World, c: Config, k: nat): Config
    decreases k
  {
    if k == 0 then c else Steps(p, w, Step(p, w, c), k - 1)
  }

  ghost predicate Reaches(p: Program, w: World, c: Config, d: Config) { exists k :: Steps(p, w, c, k) == d }

  /** Still running after `n` steps. */
  ghost predicate Runs(p: Program, w: World, c: Config, n: nat) { Steps(p, w, c, n).At? }

  lemma {:induction false} StepsPlus(p: Program, w: World, c: Config, j: nat, k: nat)
    ensures Steps(p, w, Steps(p, w, c, j), k) == Steps(p, w, c, j + k)
    decreases j
  {
    if j > 0 { StepsPlus(p, w, Step(p, w, c), j - 1, k); }
  }

  lemma {:induction false} StoppedStays(p: Program, w: World, c: Config, k: nat)
    requires !c.At?
    ensures Steps(p, w, c, k) == c
    decreases k
  {
    if k > 0 { StoppedStays(p, w, c, k - 1); }
  }

  lemma ReachesSelf(p: Program, w: World, c: Config)
    ensures Reaches(p, w, c, c)
  {
    assert Steps(p, w, c, 0) == c;
  }

  lemma ReachesStep(p: Program, w: World, c: Config)
    ensures Reaches(p, w, c, Step(p, w, c))
  {
    assert Steps(p, w, c, 1) == Steps(p, w, Step(p, w, c), 0);
  }

  lemma ReachesTransitive(p: Program, w: World, c: Config, d: Config, e: Config)
    requires Reaches(p, w, c, d) && Reaches(p, w, d, e)
    ensures Reaches(p, w, c, e)
  {
    var j: nat :| Steps(p, w, c, j) == d;
    var k: nat :| Steps(p, w, d, k) == e;
    StepsPlus(p, w, c, j, k);
  }

  lemma RunsLess(p: Program, w: World, c: Config, m: nat, n: nat)
    requires Runs(p, w, c, n) && m <= n
    ensures Runs(p, w, c, m)
  {
    StepsPlus(p, w, c, m, n - m);
    if !Steps(p, w, c, m).At? { StoppedStays(p, w, Steps(p, w, c, m), n - m); }
  }

  lemma ReachesRuns(p: Program, w: World, c: Config, d: Config, n: nat)
    requires Reaches(p, w, c, d) && Runs(p, w, d, n)
    ensures Runs(p, w, c, n)
  {
    var j: nat :| Steps(p, w, c, j) == d;
    StepsPlus(p, w, c, j, n);
    RunsLess(p, w, c, n, j + n);
  }

  /** A step that leads on counts one. */
  lemma StepRuns(p: Program, w: World, c: Config, n: nat)
    requires c.At? && (n == 0 || Runs(p, w, Step(p, w, c), n - 1))
    ensures Runs(p, w, c, n)
  {
  }

  /** Where a run halts does not depend on when one looks. */
  lemma HaltsOnce(p: Program, w: World, c: Config, j: nat, k: nat)
    requires !Steps(p, w, c, j).At? && !Steps(p, w, c, k).At?
    ensures Steps(p, w, c, j) == Steps(p, w, c, k)
  {
    if j <= k {
      StepsPlus(p, w, c, j, k - j);
      StoppedStays(p, w, Steps(p, w, c, j), k - j);
    } else {
      StepsPlus(p, w, c, k, j - k);
      StoppedStays(p, w, Steps(p, w, c, k), j - k);
    }
  }

  /** Running through a stretch of straight-line code. */
  lemma {:induction false} ReachesAlong(p: Program, w: World, b: nat, pc: nat, es: Trace, t: Trace)
    requires b < |p| && pc + |es| <= |p[b].code| && p[b].code[pc..pc + |es|] == es
    ensures Reaches(p, w, At(b, pc, t), At(b, pc + |es|, t + es))
    decreases |es|
  {
    var c := At(b, pc, t);
    if es == [] {
      assert t + es == t;
      ReachesSelf(p, w, c);
    } else {
      assert es[0] == p[b].code[pc..pc + |es|][0] == p[b].code[pc];
      assert p[b].code[pc + 1..pc + 1 + |es[1..]|] == es[1..];
      ReachesAlong(p, w, b, pc + 1, es[1..], t + [es[0]]);
      assert t + [es[0]] + es[1..] == t + es;
      ReachesStep(p, w, c);
      ReachesTransitive(p, w, c, Step(p, w, c), At(b, pc + |es|, t + es));
    }
  }
}
