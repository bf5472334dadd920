/** Two expression parsers, one grammar. The Rust seed climbs precedences with a bound
    (parser.rs:432-606); the C++ seed descends through one function per level
    (parser.cpp:720-922, 994-1051, 1081-1092, 1240-1246). Both read the standard
    left-associative grammar, and read it the same way. */
module Precedence {
  import opened Wrappers

  /** A name is any word, a literal a number or a quoted text, a symbol anything else. */
  datatype Token = Name(text: string) | Literal(text: string) | Sym(text: string)

  type Tokens = seq<Token>

  datatype Ast =
    | Id(name: string)
    | Value(text: string)
    | Unary(op: string, e: Ast)
    | Binary(op: string, left: Ast, right: Ast)
    | Index(base: Ast, at: Ast)
    | Member(base: Ast, name: string)
    | Post(op: string, e: Ast)

  datatype Parsed = Fail | Ok(e: Ast, rest: Tokens)

  /** The bound that the Rust seed climbs by: a number per operator, 0 for everything else
      (parser.rs:436-448). */
  function Prec(t: Token): (p: nat)
    ensures p <= 10
  {
    if !t.Sym? then 0
    else
      match t.text
      case "||" => 1
      case "&&" => 2
      case "|" => 3
      case "^" => 4
      case "&" => 5
      case "==" | "!=" => 6
      case "<" | "<=" | ">" | ">=" => 7
      case "<<" | ">>" => 8
      case "+" | "-" => 9
      case "*" | "/" | "%" => 10
      case _ => 0
  }

  /** Whether one of the ten level functions of the C++ seed takes the operator, the loosest
      function first (parser.cpp:720-840). */
  predicate OnLevel(k: nat, op: string): (b: bool)
    ensures 1 <= k <= 10 ==> (b <==> Prec(Sym(op)) == k)
  {
    match k
    case 1 => op == "||"
    case 2 => op == "&&"
    case 3 => op == "|"
    case 4 => op == "^"
    case 5 => op == "&"
    case 6 => op == "==" || op == "!="
    case 7 => op == "<" || op == ">" || op == "<=" || op == ">="
    case 8 => op == "<<" || op == ">>"
    case 9 => op == "+" || op == "-"
    case 10 => op == "*" || op == "/" || op == "%"
    case _ => false
  }

  /** The level whose function takes the operator, 0 if none does. */
  function LevelOf(op: string, from: nat := 1): (k: nat)
    requires 1 <= from <= 11
    ensures k <= 10 && (k == Prec(Sym(op)) || (k == 0 && Prec(Sym(op)) < from))
    decreases 11 - from
  {
    if from == 11 then 0 else if OnLevel(from, op) then from else LevelOf(op, from + 1)
  }

  function Next(ts: Tokens): nat { if ts == [] then 0 else Prec(ts[0]) }

  predicate Is(ts: Tokens, s: string) { ts != [] && ts[0] == Sym(s) }

  /** Which seed's prefix operators: the C++ lexer takes `*` and `&` for prefix operators
      only if the next character begins a word, a parenthesis, a bracket or another of the
      two (lexer.cpp:289-305, 322-338, 622-625), and its parser knows no `~`
      (parser.cpp:845-847; parser.rs:461). */
  datatype Seed = Rust | Cpp

  predicate Prefix(seed: Seed, ts: Tokens) {
    && ts != [] && ts[0].Sym?
    && match ts[0].text
       case "!" | "-" | "+" | "++" | "--" => true
       case "*" | "&" => seed.Rust? || (|ts| > 1 && Tight(ts[1]))
       case "~" => seed.Rust?
       case _ => false
  }

  predicate Tight(t: Token) { t.Name? || (t.Sym? && t.text != "" && t.text[0] in "*&([") }

  /** Words that are values in both seeds (parser.rs:509-514, parser.cpp:1104-1118). */
  predicate KeywordLiteral(word: string) {
    match word
    case "true" | "false" | "none" => true
    case _ => false
  }

  /** The other words of the C++ lexer's table (lexer.cpp:9-35); the Rust seed reserves none. */
  predicate Reserved(word: string) {
    match word
    case "module" | "package" | "import" | "pub" | "extern" | "intrinsic" | "fn" | "struct" => true
    case "enum" | "const" | "if" | "else" | "for" | "in" | "return" | "break" => true
    case "continue" | "as" | "switch" | "type" | "defer" | "byte" => true
    case _ => false
  }

  /** The start of a vector literal or type, which is no operand of the model. */
  predicate VecList(ts: Tokens) { ts != [] && ts[0] == Name("Vec") && Is(ts[1..], "<") }

  /** The word in front is an operand of its own (parser.rs:509-537, parser.cpp:1094-1281). */
  predicate WordStands(seed: Seed, ts: Tokens)
    requires ts != [] && ts[0].Name?
  {
    (seed.Rust? || !Reserved(ts[0].text)) && !VecList(ts)
  }

  function WordTree(word: string): Ast { if KeywordLiteral(word) then Value(word) else Id(word) }

  /** Any word to the Rust seed, an identifier to the C++ seed (parser.rs:572-574,
      parser.cpp:1039-1045). */
  predicate MemberName(seed: Seed, t: Token) {
    t.Name? && (seed.Rust? || (!Reserved(t.text) && !KeywordLiteral(t.text)))
  }

  predicate Suffix(ts: Tokens) { Is(ts, "(") || Is(ts, "[") || Is(ts, ".") || Is(ts, "++") || Is(ts, "--") }

  // ----- climbing -----

  function Climb(seed: Seed, min: nat, ts: Tokens): (r: Parsed)
    ensures r.Ok? ==> |r.rest| < |ts|
    decreases |ts|, 3
  {
    var left := Primary(seed, ts);
    if left.Fail? then Fail else ClimbOn(seed, min, left.e, left.rest)
  }

  function ClimbOn(seed: Seed, min: nat, left: Ast, ts: Tokens): (r: Parsed)
    ensures r.Ok? ==> |r.rest| <= |ts|
    decreases |ts|, 2
  {
    var p := Next(ts);
    if p == 0 || p < min then Ok(left, ts)
    else
      var right := Climb(seed, p + 1, ts[1..]);
      if right.Fail? then Fail else ClimbOn(seed, min, Binary(ts[0].text, left, right.e), right.rest)
  }

  /** An operand; suffixes are looked for after prefix operators too. */
  function Primary(seed: Seed, ts: Tokens): (r: Parsed)
    ensures r.Ok? ==> |r.rest| < |ts|
    decreases |ts|, 1
  {
    if ts == [] then Fail
    else if Prefix(seed, ts) then
      var r := Primary(seed, ts[1..]);
      if r.Fail? then Fail else Suffixes(seed, Unary(ts[0].text, r.e), r.rest)
    else
      match ts[0]
      case Name(text) => if WordStands(seed, ts) then Suffixes(seed, WordTree(text), ts[1..]) else Fail
      case Literal(text) => Suffixes(seed, Value(text), ts[1..])
      case Sym(text) =>
        if text != "(" then Fail
        else
          var r := Climb(seed, 0, ts[1..]);
          if r.Fail? || !Is(r.rest, ")") then Fail else Suffixes(seed, r.e, r.rest[1..])
  }

  function Suffixes(seed: Seed, e: Ast, ts: Tokens): (r: Parsed)
    ensures r.Ok? ==> |r.rest| <= |ts|
    decreases |ts|, 0
  {
    if Is(ts, "(") then Fail
    else if Is(ts, "[") then
      var r := Climb(seed, 0, ts[1..]);
      if r.Fail? || !Is(r.rest, "]") then Fail else Suffixes(seed, Index(e, r.e), r.rest[1..])
    else if Is(ts, ".") then
      if |ts| < 2 || !MemberName(seed, ts[1]) then Fail else Suffixes(seed, Member(e, ts[1].text), ts[2..])
    else if Is(ts, "++") || Is(ts, "--") then Suffixes(seed, Post(ts[0].text, e), ts[1..])
    else Ok(e, ts)
  }

  // ----- descending -----

  /** Level k is one of ten functions of the same form; below them are the operands. */
  function Level(seed: Seed, k: nat, ts: Tokens): (r: Parsed)
    requires k <= 11
    ensures r.Ok? ==> |r.rest| < |ts|
    decreases |ts|, 14 - k
  {
    if k == 11 then Operand(seed, ts)
    else
      var left := Level(seed, k + 1, ts);
      if left.Fail? then Fail else LevelOn(seed, k, left.e, left.rest)
  }

  function LevelOn(seed: Seed, k: nat, left: Ast, ts: Tokens): (r: Parsed)
    requires k <= 10
    ensures r.Ok? ==> |r.rest| <= |ts|
    decreases |ts|, 2
  {
    if ts == [] || !ts[0].Sym? || !OnLevel(k, ts[0].text) then Ok(left, ts)
    else
      var right := Level(seed, k + 1, ts[1..]);
      if right.Fail? then Fail else LevelOn(seed, k, Binary(ts[0].text, left, right.e), right.rest)
  }

  function Operand(seed: Seed, ts: Tokens): (r: Parsed)
    ensures r.Ok? ==> |r.rest| < |ts|
    decreases |ts|, 1
  {
    if ts == [] then Fail
    else if Prefix(seed, ts) then
      var r := Operand(seed, ts[1..]);
      if r.Fail? then Fail else Ok(Unary(ts[0].text, r.e), r.rest)
    else
      match ts[0]
      case Name(text) => if WordStands(seed, ts) then Postfix(seed, WordTree(text), ts[1..]) else Fail
      case Literal(text) => Postfix(seed, Value(text), ts[1..])
      case Sym(text) =>
        if text != "(" then Fail
        else
          var r := Level(seed, 1, ts[1..]);
          if r.Fail? || !Is(r.rest, ")") then Fail else Postfix(seed, r.e, r.rest[1..])
  }

  function Postfix(seed: Seed, e: Ast, ts: Tokens): (r: Parsed)
    ensures r.Ok? ==> |r.rest| <= |ts|
    decreases |ts|, 0
  {
    if Is(ts, "(") then Fail
    else if Is(ts, "[") then
      var r := Level(seed, 1, ts[1..]);
      if r.Fail? || !Is(r.rest, "]") then Fail else Postfix(seed, Index(e, r.e), r.rest[1..])
    else if Is(ts, "++") || Is(ts, "--") then Postfix(seed, Post(ts[0].text, e), ts[1..])
    else if Is(ts, ".") then
      if |ts| < 2 || !MemberName(seed, ts[1]) then Fail else Postfix(seed, Member(e, ts[1].text), ts[2..])
    else Ok(e, ts)
  }

  // ----- where parsing stops -----

  /** A second look for suffixes finds none. */
  lemma {:induction false} SuffixesStop(seed: Seed, e: Ast, ts: Tokens)
    ensures var r := Suffixes(seed, e, ts); r.Ok? ==> !Suffix(r.rest)
    decreases |ts|
  {
    hide Climb;
    if Is(ts, "(") {
    } else if Is(ts, "[") {
      var r := Climb(seed, 0, ts[1..]);
      if r.Ok? && Is(r.rest, "]") { SuffixesStop(seed, Index(e, r.e), r.rest[1..]); }
    } else if Is(ts, ".") {
      if |ts| >= 2 && MemberName(seed, ts[1]) { SuffixesStop(seed, Member(e, ts[1].text), ts[2..]); }
    } else if Is(ts, "++") || Is(ts, "--") {
      SuffixesStop(seed, Post(ts[0].text, e), ts[1..]);
    }
  }

  lemma PrimaryStops(seed: Seed, ts: Tokens)
    ensures var r := Primary(seed, ts); r.Ok? ==> !Suffix(r.rest)
  {
    hide Climb, Suffixes, Suffix, Prefix;
    if ts != [] {
      if Prefix(seed, ts) {
        var r := Primary(seed, ts[1..]);
        if r.Ok? { SuffixesStop(seed, Unary(ts[0].text, r.e), r.rest); }
      } else {
        match ts[0]
        case Name(text) => if WordStands(seed, ts) { SuffixesStop(seed, WordTree(text), ts[1..]); }
        case Literal(text) => SuffixesStop(seed, Value(text), ts[1..]);
        case Sym(text) =>
          if text == "(" {
            var r := Climb(seed, 0, ts[1..]);
            if r.Ok? && Is(r.rest, ")") { SuffixesStop(seed, r.e, r.rest[1..]); }
          }
      }
    }
  }

  lemma NoSuffixes(seed: Seed, e: Ast, ts: Tokens)
    requires !Suffix(ts)
    ensures Suffixes(seed, e, ts) == Ok(e, ts)
  {
  }

  /** What is left over does not continue the expression at this level. */
  lemma {:induction false} ClimbOnStops(seed: Seed, min: nat, left: Ast, ts: Tokens)
    ensures var r := ClimbOn(seed, min, left, ts); r.Ok? ==> Next(r.rest) == 0 || Next(r.rest) < min
    decreases |ts|
  {
    hide Climb, Next;
    var p := Next(ts);
    if p != 0 && p >= min {
      NextIs(ts);
      var right := Climb(seed, p + 1, ts[1..]);
      if right.Ok? { ClimbOnStops(seed, min, Binary(ts[0].text, left, right.e), right.rest); }
    }
  }

  /** The numbers of the one seed and the functions of the other part the operators alike. */
  lemma NextOnLevel(k: nat, ts: Tokens)
    requires 1 <= k <= 10
    ensures Next(ts) == k <==> ts != [] && ts[0].Sym? && OnLevel(k, ts[0].text)
  {
  }

  lemma NextIs(ts: Tokens)
    ensures Next(ts) > 0 ==> ts != []
    ensures Next(ts) <= 10
  {
  }

  lemma ClimbStops(seed: Seed, min: nat, ts: Tokens)
    ensures var r := Climb(seed, min, ts); r.Ok? ==> Next(r.rest) == 0 || Next(r.rest) < min
  {
    hide ClimbOn, Primary, Next;
    var left := Primary(seed, ts);
    if left.Ok? { ClimbOnStops(seed, min, left.e, left.rest); }
  }

  // ----- climbing and descending agree -----

  /** Climbing from k is climbing from k + 1 and then level k alone. */
  lemma OneLevel(seed: Seed, k: nat, left: Ast, ts: Tokens, n: nat)
    requires 1 <= k <= 10 && |ts| <= n
    requires forall j, us: Tokens :: 1 <= j <= 11 && |us| < n ==> Climb(seed, j, us) == Level(seed, j, us)
    ensures ClimbOn(seed, k, left, ts) ==
            (var r := ClimbOn(seed, k + 1, left, ts); if r.Fail? then Fail else LevelOn(seed, k, r.e, r.rest))
    decreases |ts|
  {
    hide Climb, Level, Next;
    NextIs(ts);
    NextOnLevel(k, ts);
    var p := Next(ts);
    if p >= k {
      var right := Climb(seed, p + 1, ts[1..]);
      ClimbStops(seed, p + 1, ts[1..]);
      if right.Ok? {
        var left' := Binary(ts[0].text, left, right.e);
        OneLevel(seed, k, left', right.rest, n);
        if p == k {
          assert ClimbOn(seed, k + 1, left', right.rest) == Ok(left', right.rest);
          assert Climb(seed, k + 1, ts[1..]) == Level(seed, k + 1, ts[1..]);
        }
      }
    }
  }

  lemma SameOperand(seed: Seed, ts: Tokens)
    requires forall us: Tokens :: |us| < |ts| ==> Climb(seed, 1, us) == Level(seed, 1, us)
    ensures Primary(seed, ts) == Operand(seed, ts)
    decreases |ts|
  {
    hide Climb, Level, Prefix, Suffixes, Postfix, Suffix;
    if ts != [] {
      if Prefix(seed, ts) {
        SameOperand(seed, ts[1..]);
        var r := Primary(seed, ts[1..]);
        PrimaryStops(seed, ts[1..]);
        if r.Ok? { NoSuffixes(seed, Unary(ts[0].text, r.e), r.rest); }
      } else {
        match ts[0]
        case Name(text) => if WordStands(seed, ts) { SamePostfix(seed, WordTree(text), ts[1..], |ts|); }
        case Literal(text) => SamePostfix(seed, Value(text), ts[1..], |ts|);
        case Sym(text) =>
          ZeroIsOne(seed, ts[1..]);
          var r := Climb(seed, 0, ts[1..]);
          if r.Ok? && Is(r.rest, ")") { SamePostfix(seed, r.e, r.rest[1..], |ts|); }
      }
    }
  }

  lemma OneSymbol(ts: Tokens)
    ensures Is(ts, ".") ==> !Is(ts, "++") && !Is(ts, "--")
    ensures forall s {:trigger Is(ts, s)} :: Is(ts, s) ==> |ts| > 0
  {
  }

  lemma SamePostfix(seed: Seed, e: Ast, ts: Tokens, n: nat)
    requires |ts| < n && forall us: Tokens :: |us| < n ==> Climb(seed, 1, us) == Level(seed, 1, us)
    ensures Suffixes(seed, e, ts) == Postfix(seed, e, ts)
    decreases |ts|
  {
    hide Climb, Level, Is, Suffixes, Postfix;
    OneSymbol(ts);
    SuffixCases(seed, e, ts);
    PostfixCases(seed, e, ts);
    if Is(ts, "[") {
      ZeroIsOne(seed, ts[1..]);
      var r := Climb(seed, 0, ts[1..]);
      assert r == Level(seed, 1, ts[1..]);
      if r.Ok? && Is(r.rest, "]") {
        OneSymbol(r.rest);
        SamePostfix(seed, Index(e, r.e), r.rest[1..], n);
      }
    } else if Is(ts, ".") {
      if |ts[1..]| > 0 && MemberName(seed, ts[1..][0]) { SamePostfix(seed, Member(e, ts[1..][0].text), ts[1..][1..], n); }
    } else if Is(ts, "++") {
      SamePostfix(seed, Post("++", e), ts[1..], n);
    } else if Is(ts, "--") {
      SamePostfix(seed, Post("--", e), ts[1..], n);
    }
  }

  /** No operator has level 0, so `expr(0)` starts at the lowest level. */
  lemma ZeroIsOne(seed: Seed, ts: Tokens)
    ensures Climb(seed, 0, ts) == Climb(seed, 1, ts)
  {
    hide Primary, ClimbOn;
    var left := Primary(seed, ts);
    if left.Ok? { ZeroIsOneOn(seed, left.e, left.rest); }
  }

  lemma {:induction false} ZeroIsOneOn(seed: Seed, left: Ast, ts: Tokens)
    ensures ClimbOn(seed, 0, left, ts) == ClimbOn(seed, 1, left, ts)
    decreases |ts|
  {
    hide Climb, Next;
    NextIs(ts);
    var p := Next(ts);
    if p > 0 {
      var right := Climb(seed, p + 1, ts[1..]);
      if right.Ok? { ZeroIsOneOn(seed, Binary(ts[0].text, left, right.e), right.rest); }
    }
  }

  /** For every token sequence and every level: same tree, same remainder, same failures. */
  lemma ClimbingIsDescending(seed: Seed, k: nat, ts: Tokens)
    requires 1 <= k <= 11
    ensures Climb(seed, k, ts) == Level(seed, k, ts)
    decreases |ts|, 11 - k
  {
    hide Primary, Operand, ClimbOn, LevelOn, Next;
    forall j, us: Tokens | 1 <= j <= 11 && |us| < |ts|
      ensures Climb(seed, j, us) == Level(seed, j, us)
    {
      ClimbingIsDescending(seed, j, us);
    }
    if k == 11 {
      SameOperand(seed, ts);
      TopLevel(seed, ts);
    } else {
      ClimbingIsDescending(seed, k + 1, ts);
      var left := Primary(seed, ts);
      if left.Ok? { OneLevel(seed, k, left.e, left.rest, |ts|); }
    }
  }

  lemma TopLevel(seed: Seed, ts: Tokens)
    ensures Climb(seed, 11, ts) == Primary(seed, ts)
  {
    hide Primary, Next;
    var left := Primary(seed, ts);
    if left.Ok? { NextIs(left.rest); }
  }

  // ----- what the C++ seed accepts -----

  lemma PrefixesGrow(ts: Tokens)
    ensures Prefix(Cpp, ts) ==> Prefix(Rust, ts)
    ensures Prefix(Rust, ts) && !Prefix(Cpp, ts) ==> ts[0].Sym? && ts[0].text != "("
  {
  }

  ghost predicate Carries(a: Parsed, b: Parsed) { a.Ok? ==> b == a }

  lemma OperandCarries(ts: Tokens)
    ensures Carries(Primary(Cpp, ts), Primary(Rust, ts))
    decreases |ts|, 1
  {
    hide Prefix, Suffixes, Climb;
    PrefixesGrow(ts);
    if ts != [] {
      if Prefix(Cpp, ts) {
        OperandCarries(ts[1..]);
        var r := Primary(Cpp, ts[1..]);
        if r.Ok? { SuffixesCarry(Unary(ts[0].text, r.e), r.rest); }
      } else if !Prefix(Rust, ts) {
        match ts[0]
        case Name(text) => if WordStands(Cpp, ts) { SuffixesCarry(WordTree(text), ts[1..]); }
        case Literal(text) => SuffixesCarry(Value(text), ts[1..]);
        case Sym(text) =>
          ClimbCarries(0, ts[1..]);
          var r := Climb(Cpp, 0, ts[1..]);
          if r.Ok? && Is(r.rest, ")") { SuffixesCarry(r.e, r.rest[1..]); }
      }
    }
  }

  lemma SuffixesCarry(e: Ast, ts: Tokens)
    ensures Carries(Suffixes(Cpp, e, ts), Suffixes(Rust, e, ts))
    decreases |ts|, 0
  {
    hide Climb, Is;
    OneSymbol(ts);
    if Is(ts, "(") {
    } else if Is(ts, "[") {
      ClimbCarries(0, ts[1..]);
      var r := Climb(Cpp, 0, ts[1..]);
      if r.Ok? && Is(r.rest, "]") {
        OneSymbol(r.rest);
        SuffixesCarry(Index(e, r.e), r.rest[1..]);
      }
    } else if Is(ts, ".") {
      if |ts| >= 2 && MemberName(Cpp, ts[1]) { SuffixesCarry(Member(e, ts[1].text), ts[2..]); }
    } else if Is(ts, "++") || Is(ts, "--") {
      SuffixesCarry(Post(ts[0].text, e), ts[1..]);
    }
  }

  lemma ClimbCarries(min: nat, ts: Tokens)
    ensures Carries(Climb(Cpp, min, ts), Climb(Rust, min, ts))
    decreases |ts|, 3
  {
    hide Primary, ClimbOn;
    OperandCarries(ts);
    var left := Primary(Cpp, ts);
    if left.Ok? { ClimbOnCarries(min, left.e, left.rest); }
  }

  lemma ClimbOnCarries(min: nat, left: Ast, ts: Tokens)
    ensures Carries(ClimbOn(Cpp, min, left, ts), ClimbOn(Rust, min, left, ts))
    decreases |ts|, 2
  {
    hide Climb, Next;
    NextIs(ts);
    var p := Next(ts);
    if p != 0 && p >= min {
      ClimbCarries(p + 1, ts[1..]);
      var right := Climb(Cpp, p + 1, ts[1..]);
      if right.Ok? { ClimbOnCarries(min, Binary(ts[0].text, left, right.e), right.rest); }
    }
  }

  /** Whatever the C++ seed parses, the Rust seed parses to the same tree and remainder. */
  lemma SeedsAgree(ts: Tokens)
    ensures Level(Cpp, 1, ts).Ok? ==> Climb(Rust, 0, ts) == Level(Cpp, 1, ts)
  {
    ClimbingIsDescending(Cpp, 1, ts);
    ZeroIsOne(Cpp, ts);
    ClimbCarries(0, ts);
  }

  lemma OneOperand(seed: Seed, t: Token)
    requires !t.Sym?
    ensures Primary(seed, [t]) ==
            if t.Literal? then Ok(Value(t.text), [])
            else if seed.Cpp? && Reserved(t.text) then Fail else Ok(WordTree(t.text), [])
  {
    assert [t][1..] == [];
  }

  /** All of the tokens, by an operand alone. */
  lemma OperandRead(seed: Seed, ts: Tokens)
    requires var r := Primary(seed, ts); r.Ok? ==> r.rest == []
    ensures Climb(seed, 0, ts) == Primary(seed, ts) == Level(seed, 1, ts)
  {
    hide Primary;
    ClimbingIsDescending(seed, 1, ts);
    ZeroIsOne(seed, ts);
  }

  /** Not the other way round: `*1`, `~x`, the operand `if` and the member `true` are
      expressions to the Rust seed alone. */
  lemma OnlyRust()
    ensures Climb(Rust, 0, [Sym("*"), Literal("1")]) == Ok(Unary("*", Value("1")), [])
    ensures Climb(Rust, 0, [Sym("~"), Name("x")]) == Ok(Unary("~", Id("x")), [])
    ensures Climb(Rust, 0, [Name("if")]) == Ok(Id("if"), [])
    ensures Climb(Rust, 0, [Name("x"), Sym("."), Name("true")]) == Ok(Member(Id("x"), "true"), [])
    ensures Level(Cpp, 1, [Sym("*"), Literal("1")]).Fail? && Level(Cpp, 1, [Sym("~"), Name("x")]).Fail?
    ensures Level(Cpp, 1, [Name("if")]).Fail? && Level(Cpp, 1, [Name("x"), Sym("."), Name("true")]).Fail?
  {
    hide Climb, Level, Primary;
    PrefixRead(Rust, "*", Literal("1"));
    PrefixRead(Cpp, "*", Literal("1"));
    PrefixRead(Rust, "~", Name("x"));
    PrefixRead(Cpp, "~", Name("x"));
    OneOperand(Rust, Name("if"));
    OneOperand(Cpp, Name("if"));
    OperandRead(Rust, [Name("if")]);
    OperandRead(Cpp, [Name("if")]);
    MemberRead(Rust, "true");
    MemberRead(Cpp, "true");
  }

  /** A keyword literal behind a `*` or `&` is read alike, and `Vec<` is no operand to either. */
  lemma BothAlike(seed: Seed)
    ensures Climb(seed, 0, [Sym("*"), Name("true")]) == Ok(Unary("*", Value("true")), []) == Level(seed, 1, [Sym("*"), Name("true")])
    ensures Climb(seed, 0, [Sym("&"), Name("none")]) == Ok(Unary("&", Value("none")), []) == Level(seed, 1, [Sym("&"), Name("none")])
    ensures Climb(seed, 0, [Name("Vec"), Sym("<"), Name("a")]) == Fail == Level(seed, 1, [Name("Vec"), Sym("<"), Name("a")])
  {
    hide Climb, Level;
    PrefixRead(seed, "*", Name("true"));
    PrefixRead(seed, "&", Name("none"));
    var ts := [Name("Vec"), Sym("<"), Name("a")];
    assert VecList(ts);
    OperandRead(seed, ts);
  }

  lemma PrefixRead(seed: Seed, op: string, t: Token)
    requires !t.Sym? && (t.Name? ==> !Reserved(t.text)) && op in ["*", "&", "~"]
    ensures var ts := [Sym(op), t];
            var r := Climb(seed, 0, ts);
            r == Level(seed, 1, ts) && if Prefix(seed, ts) then r == Ok(Unary(op, Tree(if t.Name? then PName(t.text) else PLiteral(t.text))), []) else r == Fail
  {
    hide Climb, Level;
    var ts := [Sym(op), t];
    assert ts[1..] == [t];
    OneOperand(seed, t);
    assert Primary(seed, ts).Ok? ==> Primary(seed, ts).rest == [];
    OperandRead(seed, ts);
  }

  lemma MemberRead(seed: Seed, name: string)
    ensures var ts := [Name("x"), Sym("."), Name(name)];
            var r := Climb(seed, 0, ts);
            r == Level(seed, 1, ts) && r == if MemberName(seed, Name(name)) then Ok(Member(Id("x"), name), []) else Fail
  {
    hide Climb, Level;
    var ts := [Name("x"), Sym("."), Name(name)];
    assert ts[1..] == [Sym("."), Name(name)] && ts[1..][2..] == [];
    assert !VecList(ts) && !Reserved("x");
    assert Primary(seed, ts) == Suffixes(seed, Id("x"), ts[1..]);
    NoSuffixes(seed, Member(Id("x"), name), []);
    assert Suffixes(seed, Id("x"), ts[1..]) == if MemberName(seed, Name(name)) then Ok(Member(Id("x"), name), []) else Fail by {
      SuffixCases(seed, Id("x"), ts[1..]);
      assert ts[1..][1..] == [Name(name)] && ts[1..][1..][1..] == [];
    }
    OperandRead(seed, ts);
  }

  // ----- the grammar -----

  /** Derivations of the left-associative grammar, parentheses and all. */
  datatype Phrase =
    | PName(text: string)
    | PLiteral(text: string)
    | PParen(inner: Phrase)
    | PPrefix(op: string, e: Phrase)
    | PBinary(op: string, left: Phrase, right: Phrase)
    | PIndex(base: Phrase, at: Phrase)
    | PMember(base: Phrase, name: string)
    | PPost(op: string, e: Phrase)

  /** `! - + ++ --` anywhere; `*` and `&` in the C++ seed only right in front of a word, a
      parenthesis, a bracket or another `*` or `&`; `~` in the Rust seed only. */
  predicate Prefixes(seed: Seed, op: string, e: Tokens): (b: bool)
    ensures b <==> Prefix(seed, [Sym(op)] + e)
  {
    if op == "*" || op == "&" then
      seed == Rust
      || (e != []
          && (|| e[0].Name?
              || (e[0].Sym? && e[0].text != "" && var c := e[0].text[0]; c == '*' || c == '&' || c == '(' || c == '[')))
    else op in ["!", "-", "+", "++", "--"] || (op == "~" && seed == Rust)
  }

  /** Levels 0 to 10 are binary, 11 has the seed's prefix operators, 12 suffixes only. The
      right side of an operator is one level tighter than the left. */
  predicate Derives(seed: Seed, c: Phrase, level: nat) {
    match c
    case PName(text) => seed.Rust? || !Reserved(text)
    case PLiteral(_) => true
    case PParen(inner) => Derives(seed, inner, 0)
    case PPrefix(op, e) => level <= 11 && Prefixes(seed, op, Yield(e)) && Derives(seed, e, 11)
    case PBinary(op, left, right) =>
      var p := LevelOf(op);
      p > 0 && level <= p && Derives(seed, left, p) && Derives(seed, right, p + 1) && (op == "<" ==> !EndsInVec(left))
    case PIndex(base, at) => Derives(seed, base, 12) && Derives(seed, at, 0)
    case PMember(base, name) => Derives(seed, base, 12) && MemberName(seed, Name(name))
    case PPost(op, e) => op in ["++", "--"] && Derives(seed, e, 12)
  }

  /** The last operand is the word `Vec`. */
  predicate EndsInVec(c: Phrase) {
    match c
    case PName(text) => text == "Vec"
    case PPrefix(_, e) => EndsInVec(e)
    case PBinary(_, _, right) => EndsInVec(right)
    case _ => false
  }

  /** What follows does not make a vector literal of the last operand. */
  predicate Whole(c: Phrase, rest: Tokens) { EndsInVec(c) ==> !Is(rest, "<") }

  function Yield(c: Phrase): Tokens {
    match c
    case PName(text) => [Name(text)]
    case PLiteral(text) => [Literal(text)]
    case PParen(inner) => [Sym("(")] + Yield(inner) + [Sym(")")]
    case PPrefix(op, e) => [Sym(op)] + Yield(e)
    case PBinary(op, left, right) => Yield(left) + [Sym(op)] + Yield(right)
    case PIndex(base, at) => Yield(base) + [Sym("[")] + Yield(at) + [Sym("]")]
    case PMember(base, name) => Yield(base) + [Sym("."), Name(name)]
    case PPost(op, e) => Yield(e) + [Sym(op)]
  }

  function Tree(c: Phrase): Ast {
    match c
    case PName(text) => WordTree(text)
    case PLiteral(text) => Value(text)
    case PParen(inner) => Tree(inner)
    case PPrefix(op, e) => Unary(op, Tree(e))
    case PBinary(op, left, right) => Binary(op, Tree(left), Tree(right))
    case PIndex(base, at) => Index(Tree(base), Tree(at))
    case PMember(base, name) => Member(Tree(base), name)
    case PPost(op, e) => Post(op, Tree(e))
  }

  lemma DerivesLooser(seed: Seed, c: Phrase, level: nat, looser: nat)
    requires Derives(seed, c, level) && looser <= level
    ensures Derives(seed, c, looser)
  {
  }

  // ----- every phrase is read back -----

  lemma ReadSuffixed(seed: Seed, c: Phrase, rest: Tokens)
    requires Derives(seed, c, 12) && Whole(c, rest)
    ensures Primary(seed, Yield(c) + rest) == Suffixes(seed, Tree(c), rest)
    decreases c, 0
  {
    hide Climb, Prec, Suffixes, Primary;
    var ts := Yield(c) + rest;
    match c
    case PName(text) => WordPrimary(seed, c, rest);
    case PLiteral(text) => WordPrimary(seed, c, rest);
    case PParen(inner) =>
      ReadClosed(seed, inner, ")", rest);
      ParenPrimary(seed, inner, rest);
    case PIndex(base, at) =>
      var after := [Sym("[")] + (Yield(at) + ([Sym("]")] + rest));
      assert ts == Yield(base) + after;
      ReadSuffixed(seed, base, after);
      ReadClosed(seed, at, "]", rest);
      IndexSuffix(seed, Tree(base), at, after, rest);
    case PMember(base, name) =>
      assert ts == Yield(base) + ([Sym("."), Name(name)] + rest);
      ReadSuffixed(seed, base, [Sym("."), Name(name)] + rest);
      MemberSuffix(seed, Tree(base), name, rest);
    case PPost(op, e) =>
      assert ts == Yield(e) + ([Sym(op)] + rest);
      ReadSuffixed(seed, e, [Sym(op)] + rest);
      PostSuffix(seed, Tree(e), op, rest);
  }

  lemma WordPrimary(seed: Seed, c: Phrase, rest: Tokens)
    requires (c.PName? || c.PLiteral?) && Derives(seed, c, 12) && Whole(c, rest)
    ensures Primary(seed, Yield(c) + rest) == Suffixes(seed, Tree(c), rest)
  {
    hide Suffixes, Climb;
    assert (Yield(c) + rest)[1..] == rest;
  }

  lemma ParenPrimary(seed: Seed, inner: Phrase, rest: Tokens)
    requires Climb(seed, 0, Yield(inner) + ([Sym(")")] + rest)) == Ok(Tree(inner), [Sym(")")] + rest)
    ensures Primary(seed, Yield(PParen(inner)) + rest) == Suffixes(seed, Tree(inner), rest)
  {
    hide Climb, Suffixes;
    assert (Yield(PParen(inner)) + rest)[1..] == Yield(inner) + ([Sym(")")] + rest);
    assert ([Sym(")")] + rest)[1..] == rest;
  }

  lemma IndexSuffix(seed: Seed, e: Ast, at: Phrase, after: Tokens, rest: Tokens)
    requires after == [Sym("[")] + (Yield(at) + ([Sym("]")] + rest))
    requires Climb(seed, 0, Yield(at) + ([Sym("]")] + rest)) == Ok(Tree(at), [Sym("]")] + rest)
    ensures Suffixes(seed, e, after) == Suffixes(seed, Index(e, Tree(at)), rest)
  {
    hide Climb;
    assert after[1..] == Yield(at) + ([Sym("]")] + rest);
    assert ([Sym("]")] + rest)[1..] == rest;
  }

  lemma MemberSuffix(seed: Seed, e: Ast, name: string, rest: Tokens)
    requires MemberName(seed, Name(name))
    ensures Suffixes(seed, e, [Sym("."), Name(name)] + rest) == Suffixes(seed, Member(e, name), rest)
  {
    hide Climb;
    assert ([Sym("."), Name(name)] + rest)[2..] == rest;
  }

  lemma PostSuffix(seed: Seed, e: Ast, op: string, rest: Tokens)
    requires op in ["++", "--"]
    ensures Suffixes(seed, e, [Sym(op)] + rest) == Suffixes(seed, Post(op, e), rest)
  {
    hide Climb;
    assert ([Sym(op)] + rest)[1..] == rest;
  }

  /** A phrase up to the bracket that closes it. */
  lemma ReadClosed(seed: Seed, c: Phrase, close: string, rest: Tokens)
    requires Derives(seed, c, 0) && close in [")", "]"]
    ensures Climb(seed, 0, Yield(c) + ([Sym(close)] + rest)) == Ok(Tree(c), [Sym(close)] + rest)
    decreases c, 3
  {
    var after := [Sym(close)] + rest;
    hide Derives, Climb;
    assert Next(after) == 0 && !Suffix(after);
    Read(seed, c, 0, 0, after);
  }

  lemma ReadOperand(seed: Seed, c: Phrase, rest: Tokens)
    requires Derives(seed, c, 11) && !c.PBinary? && !Suffix(rest) && Whole(c, rest)
    ensures Primary(seed, Yield(c) + rest) == Ok(Tree(c), rest)
    decreases c, 1
  {
    hide Climb, Prec, Suffix;
    if c.PPrefix? {
      var ts := Yield(c) + rest;
      assert ts[1..] == Yield(c.e) + rest;
      OperandOnly(seed, c.e);
      ReadOperand(seed, c.e, rest);
      NoSuffixes(seed, Tree(c), rest);
    } else {
      ReadSuffixed(seed, c, rest);
      NoSuffixes(seed, Tree(c), rest);
    }
  }

  lemma OperandOnly(seed: Seed, c: Phrase)
    requires Derives(seed, c, 11)
    ensures !c.PBinary?
  {
  }

  /** In front of anything that does not bind tighter, a phrase is read whole. */
  lemma Read(seed: Seed, c: Phrase, level: nat, min: nat, rest: Tokens)
    requires Derives(seed, c, level) && min <= level <= 11 && !Suffix(rest) && Next(rest) <= level && Whole(c, rest)
    ensures Climb(seed, min, Yield(c) + rest) == ClimbOn(seed, min, Tree(c), rest)
    decreases c, 2
  {
    hide Primary, Prec, Suffix;
    if c.PBinary? {
      var p := Prec(Sym(c.op));
      var after := [Sym(c.op)] + (Yield(c.right) + rest);
      assert Yield(c) + rest == Yield(c.left) + after && after[1..] == Yield(c.right) + rest;
      OperatorIsNoSuffix(c.op, after);
      Read(seed, c.left, p, min, after);
      Read(seed, c.right, p + 1, p + 1, rest);
      assert ClimbOn(seed, p + 1, Tree(c.right), rest) == Ok(Tree(c.right), rest);
      assert Climb(seed, p + 1, after[1..]) == Ok(Tree(c.right), rest);
    } else {
      DerivesAbove(seed, c, level);
      ReadOperand(seed, c, rest);
    }
  }

  lemma DerivesAbove(seed: Seed, c: Phrase, level: nat)
    requires Derives(seed, c, level) && !c.PBinary?
    ensures Derives(seed, c, 11)
  {
  }

  lemma OperatorIsNoSuffix(op: string, ts: Tokens)
    requires Prec(Sym(op)) > 0 && ts != [] && ts[0] == Sym(op)
    ensures !Suffix(ts) && Next(ts) == Prec(Sym(op)) <= 10
  {
  }

  // ----- everything read is a phrase -----

  ghost predicate Reads(seed: Seed, c: Phrase, level: nat, ts: Tokens, r: Parsed) {
    r.Ok? && Derives(seed, c, level) && Tree(c) == r.e && ts == Yield(c) + r.rest && Whole(c, r.rest)
  }

  lemma SoundSuffixes(seed: Seed, base: Phrase, ts: Tokens) returns (c: Phrase)
    requires Derives(seed, base, 12) && Whole(base, ts) && Suffixes(seed, Tree(base), ts).Ok?
    ensures var r := Suffixes(seed, Tree(base), ts);
            Derives(seed, c, 12) && Tree(c) == r.e && Yield(base) + ts == Yield(c) + r.rest && Whole(c, r.rest)
    decreases |ts|, 0
  {
    hide Climb, Is, Prec, Suffixes, Yield;
    SuffixCases(seed, Tree(base), ts);
    SymbolAt(ts);
    if Is(ts, "[") {
      var r := Climb(seed, 0, ts[1..]);
      var at := SoundClimb(seed, 0, ts[1..]);
      SymbolAt(r.rest);
      YieldIndex(base, at, ts, r.rest);
      c := SoundSuffixes(seed, PIndex(base, at), r.rest[1..]);
    } else if Is(ts, ".") {
      YieldMember(base, ts);
      c := SoundSuffixes(seed, PMember(base, ts[1..][0].text), ts[1..][1..]);
    } else if Is(ts, "++") || Is(ts, "--") {
      YieldPost(base, ts);
      c := SoundSuffixes(seed, PPost(ts[0].text, base), ts[1..]);
    } else {
      c := base;
    }
  }

  lemma YieldIndex(base: Phrase, at: Phrase, ts: Tokens, rest: Tokens)
    requires ts != [] && ts[0] == Sym("[") && ts[1..] == Yield(at) + rest && rest != [] && rest[0] == Sym("]")
    ensures Yield(base) + ts == Yield(PIndex(base, at)) + rest[1..]
  {
    assert ts == [Sym("[")] + (Yield(at) + ([Sym("]")] + rest[1..]));
  }

  lemma YieldMember(base: Phrase, ts: Tokens)
    requires |ts| > 1 && ts[0] == Sym(".") && ts[1].Name?
    ensures Yield(base) + ts == Yield(PMember(base, ts[1..][0].text)) + ts[1..][1..]
  {
    assert ts == [ts[0], ts[1]] + ts[1..][1..];
  }

  lemma YieldPost(base: Phrase, ts: Tokens)
    requires ts != [] && ts[0].Sym?
    ensures Yield(base) + ts == Yield(PPost(ts[0].text, base)) + ts[1..]
  {
    assert ts == [ts[0]] + ts[1..];
  }

  lemma SymbolAt(ts: Tokens)
    ensures forall s {:trigger Is(ts, s)} :: Is(ts, s) ==> |ts| > 0 && ts[0] == Sym(s)
  {
  }

  lemma SoundOperand(seed: Seed, ts: Tokens) returns (c: Phrase)
    requires Primary(seed, ts).Ok?
    ensures Reads(seed, c, 11, ts, Primary(seed, ts))
    decreases |ts|, 1
  {
    hide Climb, Suffixes, Prec, Is;
    if Prefix(seed, ts) {
      var r := Primary(seed, ts[1..]);
      var e := SoundOperand(seed, ts[1..]);
      PrimaryStops(seed, ts[1..]);
      NoSuffixes(seed, Unary(ts[0].text, r.e), r.rest);
      c := PPrefix(ts[0].text, e);
      assert ts == [Sym(ts[0].text)] + ts[1..];
    } else {
      c := SoundAtom(seed, ts);
      SuffixedIsOperand(seed, c);
    }
  }

  lemma SoundAtom(seed: Seed, ts: Tokens) returns (c: Phrase)
    requires Primary(seed, ts).Ok? && !Prefix(seed, ts)
    ensures Reads(seed, c, 12, ts, Primary(seed, ts))
    decreases |ts|, 0, 1
  {
    hide Climb, Suffixes, Primary, Is, Derives, Prefix, Yield, Tree, WordStands;
    AtomIs(seed, ts);
    match ts[0]
    case Name(text) =>
      WordDerives(seed, ts);
      FirstYields(PName(text), ts);
      c := SoundSuffixes(seed, PName(text), ts[1..]);
    case Literal(text) =>
      LiteralDerives(seed, text, ts[1..]);
      FirstYields(PLiteral(text), ts);
      c := SoundSuffixes(seed, PLiteral(text), ts[1..]);
    case Sym(text) =>
      var r := Climb(seed, 0, ts[1..]);
      var inner := SoundClimb(seed, 0, ts[1..]);
      SymbolAt(r.rest);
      DerivesParen(seed, inner, r.rest[1..]);
      ParenYields(inner, ts, r.rest);
      c := SoundSuffixes(seed, PParen(inner), r.rest[1..]);
  }

  lemma FirstYields(c: Phrase, ts: Tokens)
    requires ts != [] && ((c.PName? && ts[0] == Name(c.text)) || (c.PLiteral? && ts[0] == Literal(c.text)))
    ensures Yield(c) + ts[1..] == ts && Tree(c) == if c.PName? then WordTree(c.text) else Value(c.text)
  {
  }

  lemma ParenYields(inner: Phrase, ts: Tokens, rest: Tokens)
    requires ts != [] && ts[0] == Sym("(") && ts[1..] == Yield(inner) + rest && rest != [] && rest[0] == Sym(")")
    ensures Yield(PParen(inner)) + rest[1..] == ts && Tree(PParen(inner)) == Tree(inner)
  {
    assert rest == [Sym(")")] + rest[1..];
  }

  lemma AtomIs(seed: Seed, ts: Tokens)
    requires Primary(seed, ts).Ok? && !Prefix(seed, ts)
    ensures ts != []
    ensures ts[0].Name? ==> WordStands(seed, ts) && Primary(seed, ts) == Suffixes(seed, WordTree(ts[0].text), ts[1..])
    ensures ts[0].Literal? ==> Primary(seed, ts) == Suffixes(seed, Value(ts[0].text), ts[1..])
    ensures ts[0].Sym? ==>
              var r := Climb(seed, 0, ts[1..]);
              ts[0].text == "(" && r.Ok? && Is(r.rest, ")") && r.rest != [] && Primary(seed, ts) == Suffixes(seed, r.e, r.rest[1..])
  {
    hide Climb, Suffixes, Prefix;
  }

  lemma WordDerives(seed: Seed, ts: Tokens)
    requires ts != [] && ts[0].Name? && WordStands(seed, ts)
    ensures Derives(seed, PName(ts[0].text), 12) && Whole(PName(ts[0].text), ts[1..])
  {
  }

  lemma LiteralDerives(seed: Seed, text: string, rest: Tokens)
    ensures Derives(seed, PLiteral(text), 12) && Whole(PLiteral(text), rest)
  {
  }

  lemma DerivesParen(seed: Seed, inner: Phrase, rest: Tokens)
    requires Derives(seed, inner, 0)
    ensures Derives(seed, PParen(inner), 12) && Whole(PParen(inner), rest)
  {
  }

  lemma SoundClimb(seed: Seed, min: nat, ts: Tokens) returns (c: Phrase)
    requires Climb(seed, min, ts).Ok? && min <= 11
    ensures Reads(seed, c, min, ts, Climb(seed, min, ts))
    decreases |ts|, 3
  {
    hide Primary, ClimbOn, Derives, Next;
    var left := Primary(seed, ts);
    var c0 := SoundOperand(seed, ts);
    DerivesLooser(seed, c0, 11, min);
    NextIs(left.rest);
    DerivesLooser(seed, c0, 11, Next(left.rest));
    c := SoundClimbOn(seed, min, c0, left.rest);
  }

  /** The left side so far is tight enough for whatever operator comes next. */
  lemma SoundClimbOn(seed: Seed, min: nat, left: Phrase, ts: Tokens) returns (c: Phrase)
    requires Derives(seed, left, min) && Derives(seed, left, Next(ts)) && ClimbOn(seed, min, Tree(left), ts).Ok?
    requires Whole(left, ts)
    ensures var r := ClimbOn(seed, min, Tree(left), ts);
            Derives(seed, c, min) && Tree(c) == r.e && Yield(left) + ts == Yield(c) + r.rest && Whole(c, r.rest)
    decreases |ts|, 2
  {
    hide Climb, Prec, Next;
    var p := Next(ts);
    c := left;
    if p != 0 && p >= min {
      NextIsOp(ts);
      var right := Climb(seed, p + 1, ts[1..]);
      var d := SoundClimb(seed, p + 1, ts[1..]);
      ClimbStops(seed, p + 1, ts[1..]);
      var both := PBinary(ts[0].text, left, d);
      assert Yield(left) + ts == Yield(both) + right.rest;
      DerivesLooser(seed, both, p, min);
      DerivesLooser(seed, both, p, Next(right.rest));
      c := SoundClimbOn(seed, min, both, right.rest);
    }
  }

  lemma NextIsOp(ts: Tokens)
    ensures Next(ts) > 0 ==> ts != [] && ts[0].Sym? && Prec(Sym(ts[0].text)) == Next(ts) <= 10
  {
  }

  lemma SuffixedIsOperand(seed: Seed, c: Phrase)
    requires Derives(seed, c, 12)
    ensures Derives(seed, c, 11)
  {
  }

  /** Climbing parses a whole token sequence to a tree exactly when the grammar, with the
      prefix operators of that seed, derives it with that tree. */
  lemma ParsesTheGrammar(seed: Seed, ts: Tokens, t: Ast)
    ensures Climb(seed, 0, ts) == Ok(t, []) <==> exists c :: Derives(seed, c, 0) && Yield(c) == ts && Tree(c) == t
  {
    hide Derives;
    if Climb(seed, 0, ts) == Ok(t, []) {
      var c := SoundClimb(seed, 0, ts);
      assert Yield(c) + [] == Yield(c);
    }
    forall c | Derives(seed, c, 0) && Yield(c) == ts && Tree(c) == t
      ensures Climb(seed, 0, ts) == Ok(t, [])
    {
      Read(seed, c, 0, 0, []);
      assert Yield(c) + [] == ts;
    }
  }

  /** So does descending. */
  lemma DescentParsesTheGrammar(seed: Seed, ts: Tokens, t: Ast)
    ensures Level(seed, 1, ts) == Ok(t, []) <==> exists c :: Derives(seed, c, 0) && Yield(c) == ts && Tree(c) == t
  {
    hide Derives, Climb, Level;
    ClimbingIsDescending(seed, 1, ts);
    ZeroIsOne(seed, ts);
    ParsesTheGrammar(seed, ts, t);
  }

  /** So the tree is the only one its tokens have. */
  lemma TreeIsUnique(seed: Seed, c: Phrase, d: Phrase)
    requires Derives(seed, c, 0) && Derives(seed, d, 0) && Yield(c) == Yield(d)
    ensures Tree(c) == Tree(d)
  {
    hide Derives, Climb;
    ParsesTheGrammar(seed, Yield(c), Tree(c));
    ParsesTheGrammar(seed, Yield(d), Tree(d));
  }

  // ----- how operators group -----

  /** The operators from the loosest set to the tightest. */
  const SETS: seq<seq<string>> := [
    ["||"], ["&&"], ["|"], ["^"], ["&"], ["==", "!="], ["<", "<=", ">", ">="], ["<<", ">>"], ["+", "-"], ["*", "/", "%"]
  ]

  lemma SetIs(op: string, i: nat)
    requires i < 10 && op in SETS[i]
    ensures LevelOf(op) == i + 1
  {
    hide LevelOf;
    match i
    case 0 => assert op in ["||"];
    case 1 => assert op in ["&&"];
    case 2 => assert op in ["|"];
    case 3 => assert op in ["^"];
    case 4 => assert op in ["&"];
    case 5 => assert op in ["==", "!="];
    case 6 => assert op in ["<", "<=", ">", ">="];
    case 7 => assert op in ["<<", ">>"];
    case 8 => assert op in ["+", "-"];
    case 9 => assert op in ["*", "/", "%"];
  }

  /** Between operands with prefixes and suffixes of their own: the right operator is applied
      first exactly when its set comes later, and operators of one set group to the left. */
  lemma Groups(seed: Seed, a: Phrase, op1: string, b: Phrase, op2: string, c: Phrase, i: nat, j: nat)
    requires Derives(seed, a, 11) && Derives(seed, b, 11) && Derives(seed, c, 11)
    requires i < 10 && op1 in SETS[i] && j < 10 && op2 in SETS[j]
    requires (op1 == "<" ==> !EndsInVec(a)) && (op2 == "<" ==> !EndsInVec(b))
    ensures var ts := Yield(a) + [Sym(op1)] + Yield(b) + [Sym(op2)] + Yield(c);
            var x, y, z := Tree(a), Tree(b), Tree(c);
            Climb(seed, 0, ts) == Level(seed, 1, ts) ==
            Ok(if i < j then Binary(op1, x, Binary(op2, y, z)) else Binary(op2, Binary(op1, x, y), z), [])
  {
    hide LevelOf, Climb, Level, Derives, Yield, Tree, EndsInVec, SETS;
    SetIs(op1, i);
    SetIs(op2, j);
    var ts := Yield(a) + [Sym(op1)] + Yield(b) + [Sym(op2)] + Yield(c);
    if i < j {
      BinaryDerives(seed, op2, b, c, j + 1, i + 2);
      BinaryDerives(seed, op1, a, PBinary(op2, b, c), i + 1, 0);
      RightYields(a, op1, b, op2, c);
      OneTree(seed, PBinary(op1, a, PBinary(op2, b, c)), ts);
    } else {
      BinaryDerives(seed, op1, a, b, i + 1, j + 1);
      BinaryDerives(seed, op2, PBinary(op1, a, b), c, j + 1, 0) by { LastOperand(op1, a, b); }
      LeftYields(a, op1, b, op2, c);
      OneTree(seed, PBinary(op2, PBinary(op1, a, b), c), ts);
    }
  }

  lemma OneTree(seed: Seed, p: Phrase, ts: Tokens)
    requires Derives(seed, p, 0) && Yield(p) == ts
    ensures Climb(seed, 0, ts) == Level(seed, 1, ts) == Ok(Tree(p), [])
  {
    hide Derives, Climb, Level, Yield, Tree;
    ParsesTheGrammar(seed, ts, Tree(p));
    DescentParsesTheGrammar(seed, ts, Tree(p));
  }

  lemma BinaryDerives(seed: Seed, op: string, l: Phrase, r: Phrase, k: nat, looser: nat)
    requires 1 <= k <= 10 && LevelOf(op) == k && looser <= k && (op == "<" ==> !EndsInVec(l))
    requires (Derives(seed, l, 11) || Derives(seed, l, k)) && (Derives(seed, r, 11) || Derives(seed, r, k + 1))
    ensures Derives(seed, PBinary(op, l, r), looser)
  {
    hide LevelOf, Derives;
    if Derives(seed, l, 11) { DerivesLooser(seed, l, 11, k); }
    if Derives(seed, r, 11) { DerivesLooser(seed, r, 11, k + 1); }
    DerivesBinary(seed, op, l, r, looser);
  }

  lemma DerivesBinary(seed: Seed, op: string, l: Phrase, r: Phrase, level: nat)
    ensures Derives(seed, PBinary(op, l, r), level) <==>
            var p := LevelOf(op); p > 0 && level <= p && Derives(seed, l, p) && Derives(seed, r, p + 1) && (op == "<" ==> !EndsInVec(l))
  {
  }

  lemma LastOperand(op: string, a: Phrase, b: Phrase)
    ensures EndsInVec(PBinary(op, a, b)) == EndsInVec(b)
  {
  }

  lemma RightYields(a: Phrase, op1: string, b: Phrase, op2: string, c: Phrase)
    ensures var p := PBinary(op1, a, PBinary(op2, b, c));
            && Yield(p) == Yield(a) + [Sym(op1)] + Yield(b) + [Sym(op2)] + Yield(c)
            && Tree(p) == Binary(op1, Tree(a), Binary(op2, Tree(b), Tree(c)))
  {
    BinaryYields(op1, a, PBinary(op2, b, c));
    BinaryYields(op2, b, c);
  }

  lemma LeftYields(a: Phrase, op1: string, b: Phrase, op2: string, c: Phrase)
    ensures var p := PBinary(op2, PBinary(op1, a, b), c);
            && Yield(p) == Yield(a) + [Sym(op1)] + Yield(b) + [Sym(op2)] + Yield(c)
            && Tree(p) == Binary(op2, Binary(op1, Tree(a), Tree(b)), Tree(c))
  {
    BinaryYields(op1, a, b);
    BinaryYields(op2, PBinary(op1, a, b), c);
  }

  lemma BinaryYields(op: string, l: Phrase, r: Phrase)
    ensures Yield(PBinary(op, l, r)) == Yield(l) + [Sym(op)] + Yield(r)
    ensures Tree(PBinary(op, l, r)) == Binary(op, Tree(l), Tree(r))
  {
  }

  /** `1 + 2 * 3` is `1 + (2 * 3)`, and `-x.f + y` is `(-(x.f)) + y`. */
  lemma GroupsFor(seed: Seed)
    ensures Climb(seed, 0, [Literal("1"), Sym("+"), Literal("2"), Sym("*"), Literal("3")]) ==
            Ok(Binary("+", Value("1"), Binary("*", Value("2"), Value("3"))), [])
    ensures Climb(seed, 0, [Sym("-"), Name("x"), Sym("."), Name("f"), Sym("+"), Name("y")]) ==
            Ok(Binary("+", Unary("-", Member(Id("x"), "f")), Id("y")), [])
  {
    hide Climb, Level, LevelOf, Prefixes, SETS;
    var a, b, c := PLiteral("1"), PLiteral("2"), PLiteral("3");
    SetsOfPlus();
    Groups(seed, a, "+", b, "*", c, 8, 9);
    assert Yield(a) + [Sym("+")] + Yield(b) + [Sym("*")] + Yield(c) == [Literal("1"), Sym("+"), Literal("2"), Sym("*"), Literal("3")];
    MinusMember(seed);
  }

  lemma MinusMember(seed: Seed)
    ensures Climb(seed, 0, [Sym("-"), Name("x"), Sym("."), Name("f"), Sym("+"), Name("y")]) ==
            Ok(Binary("+", Unary("-", Member(Id("x"), "f")), Id("y")), [])
  {
    hide Climb, Level, LevelOf, Prefixes, SETS;
    var m, y := PPrefix("-", PMember(PName("x"), "f")), PName("y");
    var ts := [Sym("-"), Name("x"), Sym("."), Name("f"), Sym("+"), Name("y")];
    SetsOfPlus();
    SetIs("+", 8);
    MinusIsPrefix(seed, Yield(PMember(PName("x"), "f")));
    BinaryDerives(seed, "+", m, y, 9, 0);
    assert Yield(PBinary("+", m, y)) == ts;
    OneTree(seed, PBinary("+", m, y), ts);
  }

  lemma SetsOfPlus()
    ensures "+" in SETS[8] && "*" in SETS[9]
  {
    assert SETS[8] == ["+", "-"];
    assert ["+", "-"][0] == "+" && ["*", "/", "%"][0] == "*";
  }

  lemma MinusIsPrefix(seed: Seed, e: Tokens)
    ensures Prefixes(seed, "-", e)
  {
  }

  /** A word behind a dot: a member, or nothing to the C++ seed if it is one of its 25. */
  lemma MemberIs(seed: Seed, word: string)
    ensures Climb(seed, 0, [Name("x"), Sym("."), Name(word)]) ==
            if seed == Cpp && word in ["module", "package", "import", "pub", "extern", "intrinsic", "fn", "struct",
                                       "enum", "const", "if", "else", "for", "in", "return", "break",
                                       "continue", "as", "switch", "true", "false", "none", "type", "defer", "byte"] then Fail
            else Ok(Member(Id("x"), word), [])
  {
    hide Climb, Level;
    MemberRead(seed, word);
  }

  /** A word alone: a value, nothing, or a name. */
  lemma WordRead(seed: Seed, word: string)
    ensures Climb(seed, 0, [Name(word)]) ==
            if word in ["true", "false", "none"] then Ok(Value(word), [])
            else if seed == Cpp && word in ["module", "package", "import", "pub", "extern", "intrinsic", "fn", "struct",
                                            "enum", "const", "if", "else", "for", "in", "return", "break",
                                            "continue", "as", "switch", "type", "defer", "byte"] then Fail
            else Ok(Id(word), [])
  {
    hide Climb;
    OneOperand(seed, Name(word));
    OperandRead(seed, [Name(word)]);
  }

  // ----- where the seeds differ -----

  /** A prefix operator to the Rust seed alone: a `~`, or a `*` or `&` that the C++ lexer
      takes for the binary operator because of the token behind it. */
  predicate RustPrefix(ts: Tokens) {
    Is(ts, "~") || ((Is(ts, "*") || Is(ts, "&")) && (|ts| < 2 || !Tight(ts[1])))
  }

  lemma RustPrefixExactly(ts: Tokens)
    ensures RustPrefix(ts) <==> Prefix(Rust, ts) && !Prefix(Cpp, ts)
    ensures Prefix(Cpp, ts) ==> Prefix(Rust, ts)
  {
  }

  predicate ReservedAt(ts: Tokens) { ts != [] && ts[0].Name? && Reserved(ts[0].text) }

  /** A check on the tokens alone. Where an operand begins, which is at the front and behind
      a binary or prefix operator and an opening bracket, there stands no such operator and
      no reserved word; behind a dot no reserved word and no keyword literal. */
  predicate Shared(ts: Tokens, operand: bool)
    decreases |ts|
  {
    if ts == [] then true
    else if operand then !RustPrefix(ts) && !ReservedAt(ts) && Shared(ts[1..], Prefix(Rust, ts) || Is(ts, "("))
    else if Is(ts, ".") then |ts| < 2 || (MemberName(Cpp, ts[1]) && Shared(ts[2..], false))
    else Shared(ts[1..], Next(ts) > 0 || Is(ts, "["))
  }

  lemma OperandStep(ts: Tokens, rest: Tokens)
    requires ts != [] && ts[1..] == rest
    ensures Shared(ts, true) <==> !RustPrefix(ts) && !ReservedAt(ts) && Shared(rest, Prefix(Rust, ts) || Is(ts, "("))
  {
  }

  lemma OperatorStep(ts: Tokens, rest: Tokens)
    requires ts != [] && ts[1..] == rest && !Is(ts, ".")
    ensures Shared(ts, false) <==> Shared(rest, Next(ts) > 0 || Is(ts, "["))
  {
  }

  lemma YieldsSomething(c: Phrase)
    ensures Yield(c) != []
  {
  }

  /** Going over a phrase of the Rust grammar, the check says whether the phrase belongs to
      the C++ grammar too. */
  lemma ChecksPhrase(c: Phrase, level: nat, rest: Tokens)
    requires Derives(Rust, c, level)
    ensures Shared(Yield(c) + rest, true) <==> Derives(Cpp, c, level) && Shared(rest, false)
    decreases c
  {
    hide Shared, Prec, Prefix;
    match c
    case PName(_) => WordChecks(c, level, rest);
    case PLiteral(_) => WordChecks(c, level, rest);
    case PParen(inner) =>
      ParenChecks(Yield(inner), rest);
      ChecksPhrase(inner, 0, [Sym(")")] + rest);
      CloseChecks(")", rest);
    case PPrefix(op, e) =>
      YieldsSomething(e);
      PrefixChecks(op, Yield(e), rest);
      ChecksPhrase(e, 11, rest);
    case PBinary(op, left, right) =>
      var after := [Sym(op)] + (Yield(right) + rest);
      assert Yield(c) + rest == Yield(left) + after;
      ChecksPhrase(left, Prec(Sym(op)), after);
      BinaryChecks(op, Yield(right) + rest);
      ChecksPhrase(right, Prec(Sym(op)) + 1, rest);
    case PIndex(base, at) =>
      var after := [Sym("[")] + (Yield(at) + ([Sym("]")] + rest));
      assert Yield(c) + rest == Yield(base) + after;
      ChecksPhrase(base, 12, after);
      IndexChecks(Yield(at) + ([Sym("]")] + rest));
      ChecksPhrase(at, 0, [Sym("]")] + rest);
      CloseChecks("]", rest);
    case PMember(base, name) =>
      assert Yield(c) + rest == Yield(base) + ([Sym("."), Name(name)] + rest);
      ChecksPhrase(base, 12, [Sym("."), Name(name)] + rest);
      MemberChecks(name, rest);
    case PPost(op, e) =>
      assert Yield(c) + rest == Yield(e) + ([Sym(op)] + rest);
      ChecksPhrase(e, 12, [Sym(op)] + rest);
      PostChecks(op, rest);
  }

  lemma WordChecks(c: Phrase, level: nat, rest: Tokens)
    requires (c.PName? || c.PLiteral?) && Derives(Rust, c, level)
    ensures Shared(Yield(c) + rest, true) <==> Derives(Cpp, c, level) && Shared(rest, false)
  {
    hide Shared;
    OperandStep(Yield(c) + rest, rest) by { assert (Yield(c) + rest)[1..] == rest; }
  }

  lemma ParenChecks(inner: Tokens, rest: Tokens)
    ensures Shared([Sym("(")] + inner + [Sym(")")] + rest, true) <==> Shared(inner + ([Sym(")")] + rest), true)
  {
    hide Shared;
    var ts := [Sym("(")] + inner + [Sym(")")] + rest;
    assert ts[1..] == inner + ([Sym(")")] + rest);
    OperandStep(ts, ts[1..]);
  }

  lemma CloseChecks(close: string, rest: Tokens)
    requires close in [")", "]"]
    ensures Shared([Sym(close)] + rest, false) <==> Shared(rest, false)
  {
    hide Shared;
    assert ([Sym(close)] + rest)[1..] == rest;
    OperatorStep([Sym(close)] + rest, rest);
  }

  lemma IndexChecks(rest: Tokens)
    ensures Shared([Sym("[")] + rest, false) <==> Shared(rest, true)
  {
    hide Shared;
    assert ([Sym("[")] + rest)[1..] == rest;
    OperatorStep([Sym("[")] + rest, rest);
  }

  lemma PrefixChecks(op: string, e: Tokens, rest: Tokens)
    requires e != [] && Prefix(Rust, [Sym(op)] + e)
    ensures Shared([Sym(op)] + e + rest, true) <==> Prefix(Cpp, [Sym(op)] + e) && Shared(e + rest, true)
  {
    hide Shared;
    var ts := [Sym(op)] + e + rest;
    assert ts[1..] == e + rest;
    OperandStep(ts, ts[1..]);
  }

  lemma BinaryChecks(op: string, rest: Tokens)
    requires Prec(Sym(op)) > 0
    ensures Shared([Sym(op)] + rest, false) <==> Shared(rest, true)
  {
    hide Shared;
    assert ([Sym(op)] + rest)[1..] == rest;
    OperatorStep([Sym(op)] + rest, rest);
  }

  lemma MemberChecks(name: string, rest: Tokens)
    ensures Shared([Sym("."), Name(name)] + rest, false) <==> MemberName(Cpp, Name(name)) && Shared(rest, false)
  {
    assert ([Sym("."), Name(name)] + rest)[2..] == rest;
  }

  lemma PostChecks(op: string, rest: Tokens)
    requires op in ["++", "--"]
    ensures Shared([Sym(op)] + rest, false) <==> Shared(rest, false)
  {
    hide Shared;
    assert ([Sym(op)] + rest)[1..] == rest;
    OperatorStep([Sym(op)] + rest, rest);
  }

  lemma CppPhrasesAreRust(c: Phrase, level: nat)
    requires Derives(Cpp, c, level)
    ensures Derives(Rust, c, level)
    decreases c
  {
    if c.PPrefix? { RustPrefixExactly([Sym(c.op)] + Yield(c.e)); }
  }

  /** For every token sequence the Rust seed parses: the C++ seed parses it, and to the same
      tree, exactly when it has none of what only the Rust seed reads. */
  lemma SeedsAgreeExactly(ts: Tokens, t: Ast)
    requires Climb(Rust, 0, ts) == Ok(t, [])
    ensures Level(Cpp, 1, ts) == Ok(t, []) <==> Shared(ts, true)
  {
    hide Derives, Climb, Level, Shared;
    ParsesTheGrammar(Rust, ts, t);
    var c :| Derives(Rust, c, 0) && Yield(c) == ts && Tree(c) == t;
    NothingLeft();
    assert ts + [] == ts;
    ChecksPhrase(c, 0, []);
    DescentParsesTheGrammar(Cpp, ts, t);
    if Level(Cpp, 1, ts) == Ok(t, []) {
      var d :| Derives(Cpp, d, 0) && Yield(d) == ts && Tree(d) == t;
      CppPhrasesAreRust(d, 0);
      ChecksPhrase(d, 0, []);
    }
  }

  lemma NothingLeft()
    ensures Shared([], false)
  {
  }

  // ----- the parsers as they run -----

  /** A token list and a position. Expr, PrimaryExpr and Loop are the Rust parser (parser.rs:19-48,
      432-606); Descend, UnaryExpr and PostfixOn the C++ one (parser.cpp:720-922, 994-1051). */
  class Parser {
    const tokens: Tokens
    const seed: Seed
    var pos: nat

    ghost predicate Valid()
      reads this
    {
      pos <= |tokens|
    }

    ghost function Rest(): Tokens
      requires Valid()
      reads this
    {
      tokens[pos..]
    }

    constructor (seed: Seed, tokens: Tokens)
      ensures Valid() && this.seed == seed && Rest() == tokens
    {
      this.seed, this.tokens, pos := seed, tokens, 0;
    }

    /** The current token, the empty symbol at the end. */
    method At() returns (t: Token)
      requires Valid()
      ensures t == if Rest() == [] then Sym("") else Rest()[0]
    {
      t := if pos < |tokens| then tokens[pos] else Sym("");
    }

    method Take(s: string) returns (taken: bool)
      requires Valid() && s != ""
      modifies this
      ensures Valid() && taken == old(Is(Rest(), s)) && Rest() == if taken then old(Rest())[1..] else old(Rest())
      ensures pos == if taken then old(pos) + 1 else old(pos)
    {
      var t := At();
      taken := t == Sym(s);
      if taken { pos := pos + 1; }
    }

    method Expr(min: nat) returns (r: Option<Ast>)
      requires Valid()
      modifies this
      ensures Valid() && Told(r, Climb(seed, min, old(Rest()))) && pos >= old(pos)
      decreases |tokens| - pos, 3
    {
      hide Climb, Primary;
      ghost var start := Rest();
      ClimbUnfolds(seed, min, start);
      r := PrimaryExpr();
      if r.None? { return; }
      var left := r.value;
      while true
        invariant Valid() && pos > old(pos)
        invariant ClimbOn(seed, min, left, Rest()) == Climb(seed, min, start)
        decreases |tokens| - pos
      {
        var op := At();
        var prec := Prec(op);
        NextAt(Rest());
        if prec == 0 || prec < min { break; }
        pos := pos + 1;
        var right := Expr(prec + 1);
        if right.None? { return None; }
        left := Binary(op.text, left, right.value);
      }
      r := Some(left);
    }

    method PrimaryExpr() returns (r: Option<Ast>)
      requires Valid()
      modifies this
      ensures Valid() && Told(r, Primary(seed, old(Rest()))) && pos >= old(pos)
      ensures r.Some? ==> pos > old(pos)
      decreases |tokens| - pos, 2
    {
      hide Climb, Suffixes;
      if pos == |tokens| { return None; }
      var t := tokens[pos];
      if Prefix(seed, tokens[pos..]) {
        pos := pos + 1;
        r := PrimaryExpr();
        if r.Some? { r := Loop(Unary(t.text, r.value)); }
        return;
      }
      var stands := t.Name? && WordStands(seed, tokens[pos..]);
      pos := pos + 1;
      match t
      case Name(text) => if stands { r := Loop(WordTree(text)); } else { r := None; }
      case Literal(text) => r := Loop(Value(text));
      case Sym(text) =>
        if text != "(" { return None; }
        r := Expr(0);
        if r.None? { return; }
        var closed := Take(")");
        if !closed { return None; }
        r := Loop(r.value);
    }

    /** Suffixes, as long as there are any. */
    method Loop(e: Ast) returns (r: Option<Ast>)
      requires Valid()
      modifies this
      ensures Valid() && Told(r, Suffixes(seed, e, old(Rest()))) && pos >= old(pos)
      decreases |tokens| - pos, 1
    {
      hide Suffixes;
      var left, more := e, true;
      while more
        invariant Valid() && pos >= old(pos)
        invariant if more then Suffixes(seed, left, Rest()) == Suffixes(seed, e, old(Rest()))
                  else Suffixes(seed, e, old(Rest())) == Ok(left, Rest())
        decreases |tokens| - pos, more
      {
        var next;
        next, more := Suffixed(left);
        if next.None? { return None; }
        left := next.value;
      }
      r := Some(left);
    }

    /** One turn of the loop: another suffix, or no more. */
    method Suffixed(left: Ast) returns (r: Option<Ast>, more: bool)
      requires Valid()
      modifies this
      ensures Valid() && pos >= old(pos)
      ensures r.None? ==> Suffixes(seed, left, old(Rest())).Fail?
      ensures r.Some? && more ==> pos > old(pos) && Suffixes(seed, left, old(Rest())) == Suffixes(seed, r.value, Rest())
      ensures r.Some? && !more ==> Suffixes(seed, left, old(Rest())) == Ok(r.value, Rest())
      decreases |tokens| - pos, 0
    {
      hide Climb, Is, Suffixes;
      ghost var here := Rest();
      SuffixCases(seed, left, here);
      more := true;
      var called := Take("(");
      if called { return None, false; }
      var indexed := Take("[");
      if indexed {
        var at := Expr(0);
        if at.None? { return None, false; }
        var closed := Take("]");
        if !closed { return None, false; }
        return Some(Index(left, at.value)), true;
      }
      var dotted := Take(".");
      if dotted {
        if pos == |tokens| || !MemberName(seed, tokens[pos]) { return None, false; }
        r := Some(Member(left, tokens[pos].text));
        pos := pos + 1;
        return;
      }
      var up := Take("++");
      if up { return Some(Post("++", left)), true; }
      var down := Take("--");
      if down { return Some(Post("--", left)), true; }
      r, more := Some(left), false;
    }

    /** One of the ten level functions of the C++ parser, or what lies below them. */
    method Descend(k: nat) returns (r: Option<Ast>)
      requires Valid() && 1 <= k <= 11
      modifies this
      ensures Valid() && Told(r, Level(seed, k, old(Rest()))) && pos >= old(pos)
      ensures r.Some? ==> pos > old(pos)
      decreases |tokens| - pos, 14 - k
    {
      hide Level, Operand;
      ghost var start := Rest();
      LevelUnfolds(seed, k, start);
      if k == 11 {
        r := UnaryExpr();
        return;
      }
      r := Descend(k + 1);
      if r.None? { return; }
      var left := r.value;
      var op := At();
      while op.Sym? && OnLevel(k, op.text)
        invariant Valid() && pos > old(pos) && op == (if Rest() == [] then Sym("") else Rest()[0])
        invariant LevelOn(seed, k, left, Rest()) == Level(seed, k, start)
        decreases |tokens| - pos
      {
        NextAt(Rest());
        pos := pos + 1;
        var right := Descend(k + 1);
        if right.None? { return None; }
        left := Binary(op.text, left, right.value);
        op := At();
      }
      NextAt(Rest());
      r := Some(left);
    }

    method UnaryExpr() returns (r: Option<Ast>)
      requires Valid()
      modifies this
      ensures Valid() && Told(r, Operand(seed, old(Rest()))) && pos >= old(pos)
      ensures r.Some? ==> pos > old(pos)
      decreases |tokens| - pos, 2
    {
      hide Level, Postfix;
      if pos == |tokens| { return None; }
      var t := tokens[pos];
      if Prefix(seed, tokens[pos..]) {
        pos := pos + 1;
        r := UnaryExpr();
        if r.Some? { r := Some(Unary(t.text, r.value)); }
        return;
      }
      var stands := t.Name? && WordStands(seed, tokens[pos..]);
      pos := pos + 1;
      match t
      case Name(text) => if stands { r := PostfixOn(WordTree(text)); } else { r := None; }
      case Literal(text) => r := PostfixOn(Value(text));
      case Sym(text) =>
        if text != "(" { return None; }
        r := Descend(1);
        if r.None? { return; }
        var closed := Take(")");
        if !closed { return None; }
        r := PostfixOn(r.value);
    }

    method PostfixOn(e: Ast) returns (r: Option<Ast>)
      requires Valid()
      modifies this
      ensures Valid() && Told(r, Postfix(seed, e, old(Rest()))) && pos >= old(pos)
      decreases |tokens| - pos, 1
    {
      hide Postfix;
      var left, more := e, true;
      while more
        invariant Valid() && pos >= old(pos)
        invariant if more then Postfix(seed, left, Rest()) == Postfix(seed, e, old(Rest()))
                  else Postfix(seed, e, old(Rest())) == Ok(left, Rest())
        decreases |tokens| - pos, more
      {
        var next;
        next, more := OnePostfix(left);
        if next.None? { return None; }
        left := next.value;
      }
      r := Some(left);
    }

    method OnePostfix(left: Ast) returns (r: Option<Ast>, more: bool)
      requires Valid()
      modifies this
      ensures Valid() && pos >= old(pos)
      ensures r.None? ==> Postfix(seed, left, old(Rest())).Fail?
      ensures r.Some? && more ==> pos > old(pos) && Postfix(seed, left, old(Rest())) == Postfix(seed, r.value, Rest())
      ensures r.Some? && !more ==> Postfix(seed, left, old(Rest())) == Ok(r.value, Rest())
      decreases |tokens| - pos, 0
    {
      hide Level, Is, Postfix;
      PostfixCases(seed, left, Rest());
      more := true;
      var called := Take("(");
      if called { return None, false; }
      var indexed := Take("[");
      if indexed {
        var at := Descend(1);
        if at.None? { return None, false; }
        var closed := Take("]");
        if !closed { return None, false; }
        return Some(Index(left, at.value)), true;
      }
      var up := Take("++");
      if up { return Some(Post("++", left)), true; }
      var down := Take("--");
      if down { return Some(Post("--", left)), true; }
      var dotted := Take(".");
      if dotted {
        if pos == |tokens| || !MemberName(seed, tokens[pos]) { return None, false; }
        r := Some(Member(left, tokens[pos].text));
        pos := pos + 1;
        return;
      }
      r, more := Some(left), false;
    }

    ghost predicate Told(r: Option<Ast>, p: Parsed)
      requires Valid()
      reads this
    {
      match p
      case Fail => r.None?
      case Ok(e, rest) => r == Some(e) && Rest() == rest
    }
  }

  lemma ClimbUnfolds(seed: Seed, min: nat, ts: Tokens)
    ensures Climb(seed, min, ts) ==
            var left := Primary(seed, ts); if left.Fail? then Fail else ClimbOn(seed, min, left.e, left.rest)
  {
  }

  lemma SuffixCases(seed: Seed, e: Ast, ts: Tokens)
    ensures Is(ts, "(") ==> Suffixes(seed, e, ts) == Fail
    ensures Is(ts, "[") ==>
              var r := Climb(seed, 0, ts[1..]);
              Suffixes(seed, e, ts) == if r.Fail? || !Is(r.rest, "]") then Fail else Suffixes(seed, Index(e, r.e), r.rest[1..])
    ensures Is(ts, ".") ==>
              Suffixes(seed, e, ts) == if |ts[1..]| == 0 || !MemberName(seed, ts[1..][0]) then Fail
                                       else Suffixes(seed, Member(e, ts[1..][0].text), ts[1..][1..])
    ensures Is(ts, "++") ==> Suffixes(seed, e, ts) == Suffixes(seed, Post("++", e), ts[1..])
    ensures Is(ts, "--") ==> Suffixes(seed, e, ts) == Suffixes(seed, Post("--", e), ts[1..])
    ensures !Is(ts, "(") && !Is(ts, "[") && !Is(ts, ".") && !Is(ts, "++") && !Is(ts, "--") ==> Suffixes(seed, e, ts) == Ok(e, ts)
  {
    hide Climb;
    if Is(ts, ".") && |ts| > 1 { assert ts[1..][1..] == ts[2..]; }
  }

  lemma PostfixCases(seed: Seed, e: Ast, ts: Tokens)
    ensures Is(ts, "(") ==> Postfix(seed, e, ts) == Fail
    ensures Is(ts, "[") ==>
              var r := Level(seed, 1, ts[1..]);
              Postfix(seed, e, ts) == if r.Fail? || !Is(r.rest, "]") then Fail else Postfix(seed, Index(e, r.e), r.rest[1..])
    ensures Is(ts, ".") ==>
              Postfix(seed, e, ts) == if |ts[1..]| == 0 || !MemberName(seed, ts[1..][0]) then Fail
                                      else Postfix(seed, Member(e, ts[1..][0].text), ts[1..][1..])
    ensures Is(ts, "++") ==> Postfix(seed, e, ts) == Postfix(seed, Post("++", e), ts[1..])
    ensures Is(ts, "--") ==> Postfix(seed, e, ts) == Postfix(seed, Post("--", e), ts[1..])
    ensures !Is(ts, "(") && !Is(ts, "[") && !Is(ts, ".") && !Is(ts, "++") && !Is(ts, "--") ==> Postfix(seed, e, ts) == Ok(e, ts)
  {
    hide Level;
    if Is(ts, ".") && |ts| > 1 { assert ts[1..][1..] == ts[2..]; }
  }

  lemma LevelUnfolds(seed: Seed, k: nat, ts: Tokens)
    requires k <= 11
    ensures Level(seed, k, ts) ==
            if k == 11 then Operand(seed, ts)
            else
              var left := Level(seed, k + 1, ts);
              if left.Fail? then Fail else LevelOn(seed, k, left.e, left.rest)
  {
  }

  lemma NextAt(ts: Tokens)
    ensures Next(ts) == Prec(if ts == [] then Sym("") else ts[0])
  {
  }
}
