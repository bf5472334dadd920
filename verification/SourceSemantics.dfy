/** What a statement means: a run ends normally or by break, continue or return, remembers
    where it left off, and whoever catches it pops the frames in between. A deferred
    statement runs when the rest of its block is over, however that happens, and sees the
    locals of the point where the block was left: that is how control.rs:69-75 lowers it. */
module SourceSemantics {
  import opened Wrappers
  import opened Syntax

  datatype Completion = Normal | Broke | Continued | Returned(value: Option<Value>)

  /** `env` and `depth` are those of the point where the run stopped. */
  datatype Outcome = Timeout | Done(how: Completion, env: Env, depth: nat, t: Trace)

  function Did(env: Env, e: Expr): Event { Eff(e.id, DeclsOf(env, e.uses)) }

  /** The escape of a value from block depth `depth` to block depth `target`. */
  function Escapes(v: Value, depth: nat, target: int): Trace {
    if depth > target >= 0 then Repeat(Escape(depth - target), v.escapes) else []
  }

  function AssignEvents(env: Env, depth: nat, name: string, v: Value): Trace {
    var i := Find(env, name);
    [Did(env, v.e)] + Escapes(v, depth, if i < 0 then -1 else env[i].depth) + [Store(DeclOf(env, name))]
  }

  /** The case the switch takes: the one with that label, else the last default. */
  function Labelled(cases: seq<Case>, v: int): (i: int)
    ensures -1 <= i < |cases|
  {
    if cases == [] then -1
    else if cases[0].lab == Some(v) then 0
    else
      var i := Labelled(cases[1..], v);
      if i < 0 then -1 else i + 1
  }

  function Default(cases: seq<Case>): (i: int)
    ensures -1 <= i < |cases|
  {
    if cases == [] then -1
    else
      var i := Default(cases[1..]);
      if i >= 0 then i + 1 else if cases[0].lab.None? then 0 else -1
  }

  function Chosen(cases: seq<Case>, v: int): (i: int)
    ensures -1 <= i < |cases|
  {
    if Labelled(cases, v) >= 0 then Labelled(cases, v) else Default(cases)
  }

  /** `fuel` bounds how often each loop goes round. */
  function Exec(w: World, s: Stmt, env: Env, depth: nat, fuel: nat, t: Trace): Outcome
    decreases s, 1
  {
    match s
    case Block(stmts, own) =>
      var r := ExecBody(w, stmts, env, if own then depth + 1 else depth, fuel, if own then t + [Push] else t);
      if r.Done? && r.how.Normal? then Done(Normal, env, depth, if own then r.t + [Pop] else r.t)
      else r
    case Let(name, e) =>
      Done(Normal, env + [Local(name, e.id, depth)], depth, t + [Did(env, e), Store(e.id)])
    case Assign(name, v) => Done(Normal, env, depth, t + AssignEvents(env, depth, name, v))
    case Eval(e) => Done(Normal, env, depth, t + [Did(env, e)])
    case Return(v) =>
      Done(Returned(v), env, depth, if v.Some? then t + [Did(env, v.value.e)] else t)
    case If(c, yes, no) =>
      var t1 := t + [Did(env, c)];
      if w(Effects(t1)) != 0 then Exec(w, yes, env, depth, fuel, t1)
      else if no.Some? then Exec(w, no.value, env, depth, fuel, t1)
      else Done(Normal, env, depth, t1)
    case For(init, cond, post, body) =>
      var r := if init.Some? then Exec(w, init.value, env, depth, fuel, t) else Done(Normal, env, depth, t);
      if r.Timeout? || !r.how.Normal? then r
      else
        var q := ExecLoop(w, s, r.env, depth, fuel, fuel, r.t);
        if q.Done? && q.how.Normal? then q.(env := env) else q
    case Switch(e, cases) =>
      var t1 := t + [Did(env, e)];
      var i := Chosen(cases, w(Effects(t1)));
      if i < 0 then Done(Normal, env, depth, t1)
      else
        var r := Exec(w, cases[i].body, env, depth, fuel, t1);
        if r.Done? && r.how.Broke? && r.depth >= depth then Done(Normal, env, depth, r.t + Pops(r.depth - depth))
        else r
    case Break => Done(Broke, env, depth, t)
    case Continue => Done(Continued, env, depth, t)
    case Defer(_) => Done(Normal, env, depth, t)
  }

  function ExecBody(w: World, ss: seq<Stmt>, env: Env, depth: nat, fuel: nat, t: Trace): Outcome
    decreases ss, 0
  {
    if ss == [] then Done(Normal, env, depth, t)
    else if ss[0].Defer? then
      var r := ExecBody(w, ss[1..], env, depth, fuel, t);
      if r.Timeout? then r
      else
        var d := ss[0];
        assert d in ss && d.s < d;
        var q := Exec(w, d.s, r.env, r.depth, fuel, r.t);
        if q.Timeout? then q else r.(t := q.t, env := q.env)
    else
      var r := Exec(w, ss[0], env, depth, fuel, t);
      if r.Done? && r.how.Normal? then ExecBody(w, ss[1..], r.env, depth, fuel, r.t) else r
  }

  /** `rounds` are left to this loop. */
  function ExecLoop(w: World, s: Stmt, env: Env, depth: nat, fuel: nat, rounds: nat, t: Trace): Outcome
    requires s.For?
    decreases s, 0, rounds
  {
    if rounds == 0 then Timeout
    else
      var t1 := if s.cond.Some? then t + [Did(env, s.cond.value)] else t;
      if s.cond.Some? && w(Effects(t1)) == 0 then Done(Normal, env, depth, t1)
      else
        var r := Exec(w, s.body, env, depth, fuel, t1);
        if r.Timeout? || r.how.Returned? || r.depth < depth then r
        else
          var t2 := r.t + if r.how.Normal? then [] else Pops(r.depth - depth);
          if r.how.Broke? then Done(Normal, env, depth, t2)
          else ExecLoop(w, s, env, depth, fuel, rounds - 1, if s.post.Some? then t2 + [Did(env, s.post.value)] else t2)
  }

  /** Return moves the value to the caller's frame and pops every frame of the function. */
  function Epilogue(v: Option<Value>, depth: nat, main: bool): Trace {
    (if v.Some? then Repeat(Escape(depth + 1), v.value.escapes) + (if v.value.aggregate then [MoveFrame] else [])
     else [])
    + Pops(depth + 1) + if main then [Shutdown] else []
  }

  datatype Result = Running | Finished(t: Trace)

  /** A whole function body, from entry to return. */
  function RunFunction(w: World, body: Stmt, params: Env, main: bool, fuel: nat): Result {
    var r := Exec(w, body, params, 0, fuel, if main then [Init, Push] else [Push]);
    if r.Timeout? then Running
    else Finished(r.t + Epilogue(if r.how.Returned? then r.how.value else None, r.depth, main))
  }
}
