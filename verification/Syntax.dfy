/** The statements whose control flow the Rust seed lowers (ast.rs:110-123), and the events
    a run of the lowered code makes visible. An expression is opaque: an identity and the
    local names it mentions. */
module Syntax {
  import opened Wrappers

  datatype Expr = Expr(id: nat, uses: seq<string>)

  /** `escapes` counts the pointers in a value that escape analysis follows. */
  datatype Value = Value(e: Expr, escapes: nat, aggregate: bool)

  datatype Stmt =
    | Block(stmts: seq<Stmt>, own: bool)
    | Let(name: string, e: Expr)
    | Assign(name: string, rhs: Value)
    | Eval(e: Expr)
    | Return(value: Option<Value>)
    | If(c: Expr, yes: Stmt, no: Option<Stmt>)
    | For(init: Option<Stmt>, cond: Option<Expr>, post: Option<Expr>, body: Stmt)
    | Switch(e: Expr, cases: seq<Case>)
    | Break
    | Continue
    | Defer(s: Stmt)

  /** A case without a label is the default. */
  datatype Case = Case(lab: Option<int>, body: Stmt)

  /** A local: its name, the declaration it stands for, and the block depth it lives at. */
  datatype Local = Local(name: string, decl: nat, depth: nat)

  type Env = seq<Local>

  /** The newest local of that name, -1 if there is none. */
  function Find(env: Env, name: string): (i: int)
    ensures -1 <= i < |env|
  {
    if env == [] then -1
    else if env[|env| - 1].name == name then |env| - 1
    else Find(env[..|env| - 1], name)
  }

  function DeclOf(env: Env, name: string): int {
    var i := Find(env, name);
    if i < 0 then -1 else env[i].decl
  }

  function DeclsOf(env: Env, names: seq<string>): seq<int> {
    seq(|names|, i requires 0 <= i < |names| => DeclOf(env, names[i]))
  }

  predicate Known(env: Env, names: seq<string>) {
    forall n <- names :: Find(env, n) >= 0
  }

  /** One executed instruction: an evaluated expression with the declarations its names
      stand for, a store, or a call into the runtime. */
  datatype Event =
    | Eff(id: nat, decls: seq<int>)
    | Store(decl: int)
    | Push
    | Pop
    | Escape(levels: nat)
    | MoveFrame
    | Init
    | Shutdown

  type Trace = seq<Event>

  /** What the program does, leaving out how the runtime keeps its frames. */
  function Effects(t: Trace): Trace {
    if t == [] then []
    else Effects(t[..|t| - 1]) + if t[|t| - 1].Eff? || t[|t| - 1].Store? then [t[|t| - 1]] else []
  }

  /** The answer to each condition may depend on everything done so far. */
  type World = Trace -> int

  function Repeat(e: Event, n: nat): Trace { seq(n, _ => e) }

  function Pops(n: nat): Trace { Repeat(Pop, n) }
}
