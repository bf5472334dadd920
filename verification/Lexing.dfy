/** The lexer of the Rust seed (lexer.rs:9-187): blanks and nested comments are skipped, the
    rest is cut into tokens that carry the line and column they start at. Newlines are
    tokens of their own. */
module Lexing {
  import opened Wrappers

  type Text = seq<char>

  datatype Problem = UnclosedComment | BadExponent | BadChar | Unterminated | NotAscii

  datatype Token = Token(start: nat, end: nat, kind: nat, line: nat, col: nat)

  datatype Result = Tokens(ts: seq<Token>) | Wrong(why: Problem, at: nat)

  predicate Starts(b: Text, i: nat, s: string) { i + |s| <= |b| && b[i..i + |s|] == s }

  predicate Alpha(c: char) { 'a' <= c <= 'z' || 'A' <= c <= 'Z' }

  predicate Digit(c: char) { '0' <= c <= '9' }

  predicate WordChar(c: char) { Alpha(c) || Digit(c) || c == '_' }

  // ----- where the parts of a text end -----

  function LineEnd(b: Text, i: nat): (j: nat)
    requires i <= |b|
    ensures i <= j <= |b|
    decreases |b| - i
  {
    if i == |b| || b[i] == '\n' then i else LineEnd(b, i + 1)
  }

  /** Past the end of a comment `depth` levels deep, if all of them are closed. */
  function CommentEnd(b: Text, i: nat, depth: nat): (j: Option<nat>)
    requires i <= |b|
    ensures j.Some? ==> i <= j.value <= |b|
    decreases |b| - i
  {
    if depth == 0 then Some(i)
    else if i == |b| then None
    else if Starts(b, i, "/*") then CommentEnd(b, i + 2, depth + 1)
    else if Starts(b, i, "*/") then CommentEnd(b, i + 2, depth - 1)
    else CommentEnd(b, i + 1, depth)
  }

  lemma CommentStep(b: Text, i: nat, depth: nat)
    requires i < |b| && depth > 0
    ensures Starts(b, i, "/*") ==> i + 2 <= |b| && CommentEnd(b, i, depth) == CommentEnd(b, i + 2, depth + 1)
    ensures !Starts(b, i, "/*") && Starts(b, i, "*/") ==>
              i + 2 <= |b| && CommentEnd(b, i, depth) == CommentEnd(b, i + 2, depth - 1)
    ensures !Starts(b, i, "/*") && !Starts(b, i, "*/") ==> CommentEnd(b, i, depth) == CommentEnd(b, i + 1, depth)
  {
  }

  lemma CommentStops(b: Text, i: nat, depth: nat)
    requires i <= |b|
    ensures depth == 0 ==> CommentEnd(b, i, depth) == Some(i)
    ensures depth > 0 && i == |b| ==> CommentEnd(b, i, depth) == None
  {
  }

  function WordEnd(b: Text, i: nat): (j: nat)
    requires i <= |b|
    ensures i <= j <= |b|
    decreases |b| - i
  {
    if i < |b| && WordChar(b[i]) then WordEnd(b, i + 1) else i
  }

  function DigitsEnd(b: Text, i: nat): (j: nat)
    requires i <= |b|
    ensures i <= j <= |b|
    decreases |b| - i
  {
    if i < |b| && Digit(b[i]) then DigitsEnd(b, i + 1) else i
  }

  /** Digits and separators; letters as well behind `0x` and `0b`. */
  function IntegerEnd(b: Text, i: nat, radix: bool): (j: nat)
    requires i <= |b|
    ensures i <= j <= |b|
    decreases |b| - i
  {
    if i < |b| && (Digit(b[i]) || b[i] == '_' || (radix && Alpha(b[i]))) then IntegerEnd(b, i + 1, radix) else i
  }

  predicate Radix(b: Text, i: nat)
    requires i < |b|
  {
    b[i] == '0' && i + 1 < |b| && (b[i + 1] == 'x' || b[i + 1] == 'b')
  }

  function FractionEnd(b: Text, i: nat): (j: nat)
    requires i <= |b|
    ensures i <= j <= |b|
  {
    if i + 1 < |b| && b[i] == '.' && Digit(b[i + 1]) then DigitsEnd(b, i + 1) else i
  }

  predicate ExponentAt(b: Text, i: nat) { i < |b| && (b[i] == 'e' || b[i] == 'E') }

  function SignEnd(b: Text, i: nat): (j: nat)
    requires i <= |b|
    ensures i <= j <= |b|
  {
    if i < |b| && (b[i] == '+' || b[i] == '-') then i + 1 else i
  }

  datatype Step = Blank(next: nat) | Cut(end: nat, kind: nat) | Bad(why: Problem)

  function Number(b: Text, i: nat): (s: Step)
    requires i < |b| && Digit(b[i])
    ensures s.Cut? ==> i < s.end <= |b|
    ensures !s.Blank?
  {
    var whole := IntegerEnd(b, i, Radix(b, i));
    if Radix(b, i) then Cut(whole, 1)
    else
      var fraction := FractionEnd(b, whole);
      if !ExponentAt(b, fraction) then Cut(fraction, if fraction > whole then 2 else 1)
      else
        var digits := SignEnd(b, fraction + 1);
        if digits == |b| || !Digit(b[digits]) then Bad(BadExponent) else Cut(DigitsEnd(b, digits), 2)
  }

  /** Past the closing quote. A backslash hides the next character, except in raw strings,
      which alone may contain newlines. */
  function QuoteEnd(b: Text, i: nat, q: char): (j: Option<nat>)
    requires i <= |b|
    ensures j.Some? ==> i < j.value <= |b|
    decreases |b| - i
  {
    if i == |b| then None
    else if b[i] == q then Some(i + 1)
    else if b[i] == '\n' && q != '`' then None
    else if b[i] == '\\' && q != '`' then if i + 1 == |b| then None else QuoteEnd(b, i + 2, q)
    else QuoteEnd(b, i + 1, q)
  }

  /** How many bytes a quoted text stands for. */
  function Decoded(b: Text): nat {
    if b == [] then 0 else if b[0] == '\\' && |b| > 1 then 1 + Decoded(b[2..]) else 1 + Decoded(b[1..])
  }

  function Quoted(b: Text, i: nat): (s: Step)
    requires i < |b| && b[i] in "\"'`"
    ensures s.Cut? ==> i < s.end <= |b|
    ensures !s.Blank?
  {
    var q := b[i];
    var end := QuoteEnd(b, i + 1, q);
    if end.None? then Bad(if q == '\'' then BadChar else Unterminated)
    else if q == '\'' && Decoded(b[i + 1..end.value - 1]) != 1 then Bad(BadChar)
    else Cut(end.value, if q == '\'' then 4 else if q == '`' then 5 else 3)
  }

  const OPERATORS := ["...", ":=", "==", "!=", "<=", ">=", "&&", "||", "<<", ">>", "+=", "-=", "*=",
                      "/=", "%=", "++", "--", "->", "<-"]

  /** The first operator of the list that the text starts with. */
  function OperatorLength(b: Text, i: nat, ops: seq<string>): nat {
    if ops == [] then 1 else if Starts(b, i, ops[0]) then |ops[0]| else OperatorLength(b, i, ops[1..])
  }

  /** What stands at `i`. */
  function Scan(b: Text, i: nat): (s: Step)
    requires i < |b|
    ensures s.Blank? ==> i < s.next <= |b|
    ensures s.Cut? ==> i < s.end <= |b|
  {
    if b[i] == ' ' || b[i] == '\t' || b[i] == '\r' then Blank(i + 1)
    else if Starts(b, i, "//") then SlashLine(b, i); Blank(LineEnd(b, i))
    else if Starts(b, i, "/*") then
      var end := CommentEnd(b, i + 2, 1);
      if end.None? then Bad(UnclosedComment) else Blank(end.value)
    else if Alpha(b[i]) || b[i] == '_' then Cut(WordEnd(b, i), 0)
    else if Digit(b[i]) then Number(b, i)
    else if b[i] in "\"'`" then Quoted(b, i)
    else if b[i] as int >= 128 then Bad(NotAscii)
    else
      OperatorFits(b, i, OPERATORS);
      Cut(i + OperatorLength(b, i, OPERATORS), 0)
  }

  lemma SlashLine(b: Text, i: nat)
    requires i < |b| && Starts(b, i, "//")
    ensures LineEnd(b, i) > i
  {
    assert b[i] == b[i..i + 2][0];
  }

  lemma {:induction false} OperatorFits(b: Text, i: nat, ops: seq<string>)
    requires i < |b| && forall s <- ops :: |s| > 0
    ensures 0 < OperatorLength(b, i, ops) && i + OperatorLength(b, i, ops) <= |b|
    decreases |ops|
  {
    if ops != [] {
      assert ops[0] in ops;
      OperatorFits(b, i, ops[1..]);
    }
  }

  /** Line and column of a place, counting from one. */
  function Place(b: Text, i: nat): (nat, nat)
    requires i <= |b|
  {
    if i == 0 then (1, 1)
    else
      var p := Place(b, i - 1);
      if b[i - 1] == '\n' then (p.0 + 1, 1) else (p.0, p.1 + 1)
  }

  function TokenAt(b: Text, i: nat, end: nat, kind: nat): Token
    requires i <= |b|
  {
    Token(i, end, kind, Place(b, i).0, Place(b, i).1)
  }

  function LexFrom(b: Text, i: nat): Result
    requires i <= |b|
    decreases |b| - i
  {
    if i == |b| then Tokens([TokenAt(b, i, i, 0)])
    else
      match Scan(b, i)
      case Bad(why) => Wrong(why, i)
      case Blank(next) => LexFrom(b, next)
      case Cut(end, kind) =>
        var r := LexFrom(b, end);
        if r.Wrong? then r else Tokens([TokenAt(b, i, end, kind)] + r.ts)
  }

  // ----- nested comments as a grammar -----

  /** A place where no comment opens or closes. */
  predicate NoMark(b: Text, i: nat) { i < |b| && !Starts(b, i, "/*") && !Starts(b, i, "*/") }

  /** An opener, a balanced text, a closer. */
  ghost predicate Comment(b: Text, i: nat, j: nat)
    decreases j - i, 0
  {
    i + 4 <= j <= |b| && Starts(b, i, "/*") && Balanced(b, i + 2, j - 2) && Starts(b, j - 2, "*/")
  }

  /** Whole comments and places without a mark. */
  ghost predicate Balanced(b: Text, i: nat, j: nat)
    requires i <= j <= |b|
    decreases j - i, 1
  {
    || i == j
    || (NoMark(b, i) && Balanced(b, i + 1, j))
    || exists m: nat :: i < m <= j && Comment(b, i, m) && Balanced(b, m, j)
  }

  /** A balanced text and a closer, `depth` times. */
  ghost predicate Closed(b: Text, i: nat, depth: nat, j: nat)
    decreases depth
  {
    if depth == 0 then i == j
    else exists m: nat :: i <= m <= |b| && Balanced(b, i, m) && Starts(b, m, "*/") && Closed(b, m + 2, depth - 1, j)
  }

  lemma NotBoth(b: Text, i: nat)
    requires Starts(b, i, "*/")
    ensures i + 2 <= |b| && !Starts(b, i, "/*")
  {
    assert b[i] == b[i..i + 2][0];
  }

  lemma {:induction false} BalancedSkipped(b: Text, i: nat, j: nat, depth: nat)
    requires i <= j <= |b| && depth > 0 && Balanced(b, i, j)
    ensures CommentEnd(b, i, depth) == CommentEnd(b, j, depth)
    decreases j - i
  {
    hide Starts, CommentEnd;
    if i < j {
      CommentStep(b, i, depth);
      if NoMark(b, i) && Balanced(b, i + 1, j) {
        BalancedSkipped(b, i + 1, j, depth);
      } else {
        var m: nat :| i < m <= j && Comment(b, i, m) && Balanced(b, m, j);
        BalancedSkipped(b, i + 2, m - 2, depth + 1);
        NotBoth(b, m - 2);
        CommentStep(b, m - 2, depth + 1);
        BalancedSkipped(b, m, j, depth);
      }
    }
  }

  lemma {:induction false} ScanCloses(b: Text, i: nat, depth: nat)
    requires i <= |b|
    ensures var j := CommentEnd(b, i, depth); j.Some? ==> Closed(b, i, depth, j.value)
    decreases |b| - i
  {
    hide Starts, CommentEnd;
    CommentStops(b, i, depth);
    if i < |b| && depth > 0 && CommentEnd(b, i, depth).Some? {
      var j := CommentEnd(b, i, depth).value;
      CommentStep(b, i, depth);
      if Starts(b, i, "/*") {
        ScanCloses(b, i + 2, depth + 1);
        var m: nat :| i + 2 <= m <= |b| && Balanced(b, i + 2, m) && Starts(b, m, "*/") && Closed(b, m + 2, depth, j);
        NotBoth(b, m);
        var n: nat :| m + 2 <= n <= |b| && Balanced(b, m + 2, n) && Starts(b, n, "*/") && Closed(b, n + 2, depth - 1, j);
        assert Comment(b, i, m + 2) && Balanced(b, i, n);
      } else if Starts(b, i, "*/") {
        ScanCloses(b, i + 2, depth - 1);
        assert Balanced(b, i, i);
      } else {
        ScanCloses(b, i + 1, depth);
        var m: nat :| i + 1 <= m <= |b| && Balanced(b, i + 1, m) && Starts(b, m, "*/") && Closed(b, m + 2, depth - 1, j);
        assert NoMark(b, i) && Balanced(b, i, m);
      }
    }
  }

  /** Counting openers and closers finds the balanced comment that starts here, and fails
      only where there is none. */
  lemma CommentExactly(b: Text, i: nat, j: nat)
    requires Starts(b, i, "/*")
    ensures i + 2 <= |b| && (CommentEnd(b, i + 2, 1) == Some(j) <==> Comment(b, i, j))
    ensures CommentEnd(b, i + 2, 1) == None <==> forall k: nat :: !Comment(b, i, k)
  {
    hide CommentEnd, Comment;
    CommentScanned(b, i, j);
    forall k: nat | Comment(b, i, k) ensures CommentEnd(b, i + 2, 1) == Some(k) { CommentScanned(b, i, k); }
  }

  lemma CommentScanned(b: Text, i: nat, k: nat)
    requires Starts(b, i, "/*")
    ensures i + 2 <= |b| && (Comment(b, i, k) ==> CommentEnd(b, i + 2, 1) == Some(k))
    ensures var end := CommentEnd(b, i + 2, 1); end.Some? ==> Comment(b, i, end.value)
  {
    hide CommentEnd;
    if Comment(b, i, k) {
      BalancedSkipped(b, i + 2, k - 2, 1);
      NotBoth(b, k - 2);
      CommentStep(b, k - 2, 1);
      CommentStops(b, k, 0);
    }
    var end := CommentEnd(b, i + 2, 1);
    if end.Some? {
      ScanCloses(b, i + 2, 1);
      var m: nat :| i + 2 <= m <= |b| && Balanced(b, i + 2, m) && Starts(b, m, "*/") && Closed(b, m + 2, 0, end.value);
      assert Comment(b, i, end.value);
    }
  }

  // ----- characters and operators -----

  lemma StartsIs(b: Text, i: nat, s: string)
    ensures Starts(b, i, s) <==> i + |s| <= |b| && forall k :: 0 <= k < |s| ==> b[i + k] == s[k]
  {
    if i + |s| <= |b| {
      var here := b[i..i + |s|];
      forall k | 0 <= k < |s| ensures here[k] == b[i + k] { }
      if forall k :: 0 <= k < |s| ==> b[i + k] == s[k] { assert here == s; }
    }
  }

  lemma ClassesAre(c: char)
    ensures Digit(c) <==> c in "0123456789"
    ensures Alpha(c) <==> c in "abcdefghijklmnopqrstuvwxyz" || c in "ABCDEFGHIJKLMNOPQRSTUVWXYZ"
    ensures WordChar(c) <==> Alpha(c) || Digit(c) || c == '_'
  {
  }

  /** `...`, `:=`, the arrows, a character with `=` behind it, or a doubled one. */
  predicate LongOperator(s: string) {
    || s == "..." || s == ":=" || s == "->" || s == "<-"
    || (|s| == 2 && s[1] == '=' && s[0] in "=!<>+-*/%")
    || (|s| == 2 && s[1] == s[0] && s[0] in "&|<>+-")
  }

  lemma OperatorsAre(s: string)
    ensures s in OPERATORS <==> LongOperator(s)
  {
    hide LongOperator, OPERATORS;
    if LongOperator(s) { LongIsListed(s); }
    if s in OPERATORS { ListedIsLong(s); }
  }

  lemma LongIsListed(s: string)
    requires LongOperator(s)
    ensures s in OPERATORS
  {
    hide OPERATORS;
    ListedAll();
    if |s| == 2 { assert s == [s[0], s[1]]; }
  }

  lemma ListedIsLong(s: string)
    requires s in OPERATORS
    ensures LongOperator(s)
  {
    hide LongOperator;
    AllLong();
    hide OPERATORS;
    var k :| 0 <= k < |OPERATORS| && OPERATORS[k] == s;
  }

  lemma AllLong()
    ensures |OPERATORS| == 19 && forall k :: 0 <= k < 19 ==> LongOperator(OPERATORS[k])
  {
  }

  lemma ListedAll()
    ensures "..." in OPERATORS
    ensures ":=" in OPERATORS
    ensures "==" in OPERATORS
    ensures "!=" in OPERATORS
    ensures "<=" in OPERATORS
    ensures ">=" in OPERATORS
    ensures "&&" in OPERATORS
    ensures "||" in OPERATORS
    ensures "<<" in OPERATORS
    ensures ">>" in OPERATORS
    ensures "+=" in OPERATORS
    ensures "-=" in OPERATORS
    ensures "*=" in OPERATORS
    ensures "/=" in OPERATORS
    ensures "%=" in OPERATORS
    ensures "++" in OPERATORS
    ensures "--" in OPERATORS
    ensures "->" in OPERATORS
    ensures "<-" in OPERATORS
  {
    assert OPERATORS[0] == "...";
    assert OPERATORS[1] == ":=";
    assert OPERATORS[2] == "==";
    assert OPERATORS[3] == "!=";
    assert OPERATORS[4] == "<=";
    assert OPERATORS[5] == ">=";
    assert OPERATORS[6] == "&&";
    assert OPERATORS[7] == "||";
    assert OPERATORS[8] == "<<";
    assert OPERATORS[9] == ">>";
    assert OPERATORS[10] == "+=";
    assert OPERATORS[11] == "-=";
    assert OPERATORS[12] == "*=";
    assert OPERATORS[13] == "/=";
    assert OPERATORS[14] == "%=";
    assert OPERATORS[15] == "++";
    assert OPERATORS[16] == "--";
    assert OPERATORS[17] == "->";
    assert OPERATORS[18] == "<-";
  }

  // ----- gaps and tokens by what they contain -----

  /** A run of characters of a class, as long as it can be. */
  ghost predicate Run(b: Text, i: nat, j: nat, fits: char -> bool) {
    i <= j <= |b| && (forall k :: i <= k < j ==> fits(b[k])) && (j < |b| ==> !fits(b[j]))
  }

  lemma RunUnique(b: Text, i: nat, j: nat, k: nat, fits: char -> bool)
    requires Run(b, i, j, fits) && Run(b, i, k, fits)
    ensures j == k
  {
  }

  ghost predicate LineComment(b: Text, i: nat, j: nat) { Starts(b, i, "//") && Run(b, i, j, c => c != '\n') }

  /** One blank, the rest of a line behind `//`, or one balanced comment. */
  ghost predicate Gap(b: Text, i: nat, j: nat) {
    && i < j <= |b|
    && ((j == i + 1 && b[i] in " \t\r") || LineComment(b, i, j) || Comment(b, i, j))
  }

  predicate IntegerChar(c: char, radix: bool) { Digit(c) || c == '_' || (radix && Alpha(c)) }

  ghost predicate Integer(b: Text, i: nat, j: nat, radix: bool) { Run(b, i, j, c => IntegerChar(c, radix)) }

  ghost predicate Fraction(b: Text, i: nat, j: nat) {
    if i + 1 < |b| && b[i] == '.' && Digit(b[i + 1]) then Run(b, i + 1, j, Digit) else j == i
  }

  ghost predicate Exponent(b: Text, i: nat, j: nat) {
    if !(i < |b| && b[i] in "eE") then j == i
    else
      var sign := if i + 1 < |b| && b[i + 1] in "+-" then 1 else 0;
      i + 1 + sign < j && Run(b, i + 1 + sign, j, Digit)
  }

  /** Digits, a fraction, an exponent; a number with a fraction or an exponent is of kind 2. */
  ghost predicate Numeral(b: Text, i: nat, j: nat, kind: nat) {
    && i < |b| && Digit(b[i])
    && if i + 1 < |b| && b[i] == '0' && b[i + 1] in "xb" then kind == 1 && Integer(b, i, j, true)
       else
         exists w: nat, f: nat ::
           && Integer(b, i, w, false) && Fraction(b, w, f) && Exponent(b, f, j)
           && kind == if j == w then 1 else 2
  }

  /** Text inside quotes: escapes, and characters that are neither the quote nor, outside
      raw strings, a backslash or a newline. */
  ghost predicate Inside(b: Text, i: nat, j: nat, q: char)
    requires i <= j <= |b|
    decreases j - i
  {
    || i == j
    || (b[i] != q && (q != '`' ==> b[i] != '\\' && b[i] != '\n') && Inside(b, i + 1, j, q))
    || (b[i] == '\\' && q != '`' && i + 2 <= j && Inside(b, i + 2, j, q))
  }

  ghost predicate QuotedText(b: Text, i: nat, j: nat, kind: nat) {
    && i + 1 < j <= |b| && b[i] in "\"'`"
    && Inside(b, i + 1, j - 1, b[i]) && b[j - 1] == b[i]
    && kind == (match b[i] case '\'' => 4 case '`' => 5 case _ => 3)
    && (b[i] == '\'' ==> j == i + 3 || (j == i + 4 && b[i + 1] == '\\'))
  }

  ghost predicate Listed(b: Text, i: nat, k: nat) { k < |OPERATORS| && Starts(b, i, OPERATORS[k]) }

  /** The longest listed operator, or one character where there is none. */
  ghost predicate Operator(b: Text, i: nat, j: nat) {
    || (exists k: nat :: Listed(b, i, k) && j == i + |OPERATORS[k]|
                         && forall n: nat :: Listed(b, i, n) ==> |OPERATORS[n]| <= |OPERATORS[k]|)
    || (j == i + 1 && forall k: nat :: !Listed(b, i, k))
  }

  ghost predicate Lexeme(b: Text, i: nat, j: nat, kind: nat)
    requires i < |b|
  {
    && !(b[i] in " \t\r") && !Starts(b, i, "//") && !Starts(b, i, "/*")
    && if Alpha(b[i]) || b[i] == '_' then kind == 0 && Run(b, i, j, WordChar)
       else if Digit(b[i]) then Numeral(b, i, j, kind)
       else if b[i] in "\"'`" then QuotedText(b, i, j, kind)
       else b[i] as int < 128 && kind == 0 && Operator(b, i, j)
  }

  lemma {:induction false} LineRuns(b: Text, i: nat)
    requires i <= |b|
    ensures Run(b, i, LineEnd(b, i), c => c != '\n')
    decreases |b| - i
  {
    if i < |b| && b[i] != '\n' { LineRuns(b, i + 1); }
  }

  lemma {:induction false} WordRuns(b: Text, i: nat)
    requires i <= |b|
    ensures Run(b, i, WordEnd(b, i), WordChar)
    decreases |b| - i
  {
    if i < |b| && WordChar(b[i]) { WordRuns(b, i + 1); }
  }

  lemma {:induction false} DigitsRun(b: Text, i: nat)
    requires i <= |b|
    ensures Run(b, i, DigitsEnd(b, i), Digit)
    decreases |b| - i
  {
    if i < |b| && Digit(b[i]) { DigitsRun(b, i + 1); }
  }

  lemma {:induction false} IntegerRuns(b: Text, i: nat, radix: bool)
    requires i <= |b|
    ensures Integer(b, i, IntegerEnd(b, i, radix), radix)
    decreases |b| - i
  {
    if i < |b| && IntegerChar(b[i], radix) { IntegerRuns(b, i + 1, radix); }
  }

  /** What the scan passes over is exactly one gap. */
  lemma GapExactly(b: Text, i: nat, j: nat)
    requires i < |b|
    ensures Scan(b, i) == Blank(j) <==> Gap(b, i, j)
  {
    hide CommentEnd, Comment, Number, Quoted, OperatorLength, LineEnd;
    Slashes(b, i);
    LineRuns(b, i);
    if Starts(b, i, "//") {
      SlashLine(b, i);
      if LineComment(b, i, j) { RunUnique(b, i, j, LineEnd(b, i), c => c != '\n'); }
      NoCommentHere(b, i, j);
    } else if Starts(b, i, "/*") {
      CommentExactly(b, i, j);
      if Comment(b, i, j) { CommentLong(b, i, j); }
    } else {
      NoCommentHere(b, i, j);
    }
  }

  lemma CommentLong(b: Text, i: nat, j: nat)
    requires Comment(b, i, j)
    ensures i + 4 <= j <= |b|
  {
  }

  lemma NoCommentHere(b: Text, i: nat, j: nat)
    requires !Starts(b, i, "/*")
    ensures !Comment(b, i, j)
  {
  }

  lemma Slashes(b: Text, i: nat)
    requires i < |b|
    ensures Starts(b, i, "//") ==> b[i] == '/' && !Starts(b, i, "/*")
    ensures Starts(b, i, "/*") ==> b[i] == '/'
  {
    if Starts(b, i, "//") || Starts(b, i, "/*") {
      assert b[i] == b[i..i + 2][0] && b[i + 1] == b[i..i + 2][1];
    }
  }

  lemma NumberExactly(b: Text, i: nat, j: nat, kind: nat)
    requires i < |b| && Digit(b[i])
    ensures Number(b, i) == Cut(j, kind) <==> Numeral(b, i, j, kind)
  {
    hide IntegerEnd, DigitsEnd;
    var radix := Radix(b, i);
    IntegerRuns(b, i, radix);
    var w := IntegerEnd(b, i, radix);
    if radix {
      if Integer(b, i, j, true) { RunUnique(b, i, w, j, c => IntegerChar(c, true)); }
    } else {
      assert Integer(b, i, w, false) && w > i;
      var f := FractionEnd(b, w);
      FractionExactly(b, w, f);
      if Number(b, i) == Cut(j, kind) {
        ExponentExactly(b, f, j);
        assert Integer(b, i, w, false) && Fraction(b, w, f) && Exponent(b, f, j);
      }
      if Numeral(b, i, j, kind) {
        var w', f' :| Integer(b, i, w', false) && Fraction(b, w', f') && Exponent(b, f', j) && kind == if j == w' then 1 else 2;
        RunUnique(b, i, w, w', c => IntegerChar(c, false));
        FractionExactly(b, w, f');
        ExponentExactly(b, f, j);
      }
    }
  }

  lemma FractionExactly(b: Text, w: nat, f: nat)
    requires w <= |b|
    ensures Fraction(b, w, f) <==> f == FractionEnd(b, w)
  {
    hide DigitsEnd;
    if w + 1 < |b| {
      DigitsRun(b, w + 1);
      if Run(b, w + 1, f, Digit) { RunUnique(b, w + 1, f, DigitsEnd(b, w + 1), Digit); }
    }
  }

  function ExponentEnd(b: Text, f: nat): Option<nat>
    requires f <= |b|
  {
    if !ExponentAt(b, f) then Some(f)
    else
      var digits := SignEnd(b, f + 1);
      if digits == |b| || !Digit(b[digits]) then None else Some(DigitsEnd(b, digits))
  }

  lemma ExponentExactly(b: Text, f: nat, j: nat)
    requires f <= |b|
    ensures Exponent(b, f, j) <==> ExponentEnd(b, f) == Some(j)
    ensures ExponentEnd(b, f) == Some(j) ==> f <= j && (ExponentAt(b, f) <==> j != f)
  {
    hide DigitsEnd;
    if ExponentAt(b, f) {
      var digits := SignEnd(b, f + 1);
      DigitsRun(b, digits);
      var d := DigitsEnd(b, digits);
      if Run(b, digits, j, Digit) { RunUnique(b, digits, j, d, Digit); }
    }
  }

  /** The closing quote ends a text without one. */
  lemma {:induction false} QuoteExactly(b: Text, i: nat, j: nat, q: char)
    requires i <= |b| && q in "\"'`"
    ensures QuoteEnd(b, i, q) == Some(j) <==> i < j <= |b| && Inside(b, i, j - 1, q) && b[j - 1] == q
    decreases |b| - i
  {
    if i < |b| && b[i] != q {
      if b[i] == '\\' && q != '`' {
        if i + 2 <= |b| { QuoteExactly(b, i + 2, j, q); }
      } else {
        QuoteExactly(b, i + 1, j, q);
      }
    }
  }

  /** One byte is one character or an escaped one. */
  lemma OneByte(b: Text)
    ensures Decoded(b) == 1 <==> |b| == 1 || (|b| == 2 && b[0] == '\\')
  {
    if |b| > 2 {
      DecodedNone(b[1..]);
      DecodedNone(b[2..]);
    }
  }

  lemma DecodedNone(b: Text)
    ensures Decoded(b) == 0 <==> b == []
  {
  }

  lemma QuotedExactly(b: Text, i: nat, j: nat, kind: nat)
    requires i < |b| && b[i] in "\"'`"
    ensures Quoted(b, i) == Cut(j, kind) <==> QuotedText(b, i, j, kind)
  {
    hide QuoteEnd, Inside, Decoded;
    QuoteExactly(b, i + 1, j, b[i]);
    if i + 1 < j <= |b| { OneByte(b[i + 1..j - 1]); }
  }

  /** What the scan takes is exactly one lexeme. */
  lemma LexemeExactly(b: Text, i: nat, j: nat, kind: nat)
    requires i < |b|
    ensures Scan(b, i) == Cut(j, kind) <==> Lexeme(b, i, j, kind)
  {
    hide CommentEnd, Number, Numeral, Quoted, QuotedText, OperatorLength, Operator, LineEnd, WordEnd;
    if Alpha(b[i]) || b[i] == '_' {
      WordRuns(b, i);
      if Run(b, i, j, WordChar) { RunUnique(b, i, j, WordEnd(b, i), WordChar); }
    } else if Digit(b[i]) {
      NumberExactly(b, i, j, kind);
    } else if b[i] in "\"'`" {
      QuotedExactly(b, i, j, kind);
    } else {
      OperatorExactly(b, i, j);
    }
  }

  // ----- tiling -----

  /** Gaps, one after the other. */
  ghost predicate Blanks(b: Text, i: nat, j: nat)
    decreases |b| - i
  {
    i == j || exists m: nat :: Gap(b, i, m) && Blanks(b, m, j)
  }

  /** Gaps and lexemes by turns; the last token is the empty one at the end. */
  ghost predicate Tiles(b: Text, from: nat, ts: seq<Token>)
    decreases |ts|, 1
  {
    ts != [] && from <= ts[0].start <= |b| && Blanks(b, from, ts[0].start) && Headed(b, ts)
  }

  ghost predicate Headed(b: Text, ts: seq<Token>)
    requires ts != [] && ts[0].start <= |b|
    decreases |ts|, 0
  {
    && (ts[0].line, ts[0].col) == Place(b, ts[0].start)
    && if |ts| == 1 then ts[0].start == ts[0].end == |b| && ts[0].kind == 0
       else
         && ts[0].start < ts[0].end <= |b| && Lexeme(b, ts[0].start, ts[0].end, ts[0].kind)
         && Tiles(b, ts[0].end, ts[1..])
  }

  lemma {:induction false} BlanksForward(b: Text, i: nat, j: nat)
    requires Blanks(b, i, j)
    ensures i <= j && (i == j || (i < |b| && exists m: nat :: i < m <= j && Gap(b, i, m) && Blanks(b, m, j)))
    decreases |b| - i
  {
    hide Comment, LineComment;
    if i != j {
      var m: nat :| Gap(b, i, m) && Blanks(b, m, j);
      BlanksForward(b, m, j);
    }
  }

  /** The tokens of a text are the one way to cut it into gaps and lexemes, and the lexer
      fails only where there is none. */
  lemma {:induction false} LexExactly(b: Text, i: nat, ts: seq<Token>)
    requires i <= |b|
    ensures LexFrom(b, i) == Tokens(ts) <==> Tiles(b, i, ts)
    decreases |b| - i
  {
    hide Scan, Place, Gap, Lexeme, Headed, Blanks;
    if Tiles(b, i, ts) { BlanksForward(b, i, ts[0].start); }
    if i == |b| {
      AtEnd(b, ts);
    } else {
      forall j: nat ensures Scan(b, i) == Blank(j) <==> Gap(b, i, j) { GapExactly(b, i, j); }
      forall j: nat, k: nat ensures Scan(b, i) == Cut(j, k) <==> Lexeme(b, i, j, k) { LexemeExactly(b, i, j, k); }
      match Scan(b, i)
      case Bad(_) =>
        if Tiles(b, i, ts) { StartsWithLexeme(b, i, ts); }
      case Blank(next) =>
        LexExactly(b, next, ts);
        if Tiles(b, i, ts) && ts[0].start == i { StartsWithLexeme(b, i, ts); }
        if Tiles(b, next, ts) { BlanksForward(b, next, ts[0].start); GapThen(b, i, next, ts[0].start); }
      case Cut(end, kind) =>
        if ts != [] { LexExactly(b, end, ts[1..]); CutTiles(b, i, end, kind, ts); }
    }
  }

  lemma GapThen(b: Text, i: nat, m: nat, j: nat)
    requires i < |b| && Gap(b, i, m) && Blanks(b, m, j)
    ensures Blanks(b, i, j)
  {
    hide Comment, LineComment;
  }

  lemma NoGap(b: Text, i: nat)
    ensures Blanks(b, i, i)
    ensures i >= |b| ==> forall j: nat :: !Gap(b, i, j)
  {
  }

  lemma AtEnd(b: Text, ts: seq<Token>)
    ensures LexFrom(b, |b|) == Tokens(ts) <==> Tiles(b, |b|, ts)
  {
    hide Scan, Place, Gap, Lexeme, Tiles;
    NoGap(b, |b|);
    if Tiles(b, |b|, ts) { OneEmpty(b, ts); }
    if LexFrom(b, |b|) == Tokens(ts) { OneTiles(b, ts); }
  }

  lemma OneEmpty(b: Text, ts: seq<Token>)
    requires Tiles(b, |b|, ts)
    ensures ts == [TokenAt(b, |b|, |b|, 0)]
  {
    hide Place, Lexeme, Blanks;
    assert |ts| == 1;
  }

  lemma OneTiles(b: Text, ts: seq<Token>)
    requires ts == [TokenAt(b, |b|, |b|, 0)]
    ensures Tiles(b, |b|, ts)
  {
    hide Place, Lexeme, Gap;
  }

  lemma StartsWithLexeme(b: Text, i: nat, ts: seq<Token>)
    requires i < |b| && Tiles(b, i, ts) && ts[0].start == i
    ensures |ts| > 1 && Lexeme(b, i, ts[0].end, ts[0].kind)
  {
    hide Place, Lexeme, Blanks;
  }

  lemma CutTiles(b: Text, i: nat, end: nat, kind: nat, ts: seq<Token>)
    requires i < end <= |b| && ts != [] && Lexeme(b, i, end, kind)
    requires forall j: nat :: !Gap(b, i, j)
    requires forall j: nat, k: nat :: Lexeme(b, i, j, k) ==> j == end && k == kind
    ensures Tiles(b, i, ts) <==> ts[0] == TokenAt(b, i, end, kind) && |ts| > 1 && Tiles(b, end, ts[1..])
  {
    hide Place, Lexeme, Gap;
  }

  /** Tokens are in order and do not overlap. */
  lemma {:induction false} InOrder(b: Text, from: nat, ts: seq<Token>, k: nat)
    requires Tiles(b, from, ts) && k < |ts|
    ensures from <= ts[k].start <= ts[k].end <= |b|
    ensures k + 1 < |ts| ==> ts[k].end <= ts[k + 1].start && ts[k].start < ts[k].end
    ensures (ts[k].line, ts[k].col) == Place(b, ts[k].start)
    decreases k
  {
    hide Lexeme, Place, Blanks;
    if k == 0 {
      if |ts| > 1 { assert Tiles(b, ts[0].end, ts[1..]) && ts[1..][0] == ts[1]; }
    } else {
      assert ts[1..][k - 1] == ts[k];
      if k + 1 < |ts| { assert ts[1..][k] == ts[k + 1]; }
      InOrder(b, ts[0].end, ts[1..], k - 1);
    }
  }

  function Newlines(b: Text): nat {
    if b == [] then 0 else Newlines(b[..|b| - 1]) + if b[|b| - 1] == '\n' then 1 else 0
  }

  /** The line is one more than the newlines before, the column the distance to the last. */
  lemma {:induction false} PlaceRecounts(b: Text, i: nat)
    requires i <= |b|
    ensures Place(b, i).0 == 1 + Newlines(b[..i])
    ensures 1 <= Place(b, i).1 <= i + 1
    ensures forall j :: i - Place(b, i).1 + 1 <= j < i ==> b[j] != '\n'
    ensures Place(b, i).1 <= i ==> b[i - Place(b, i).1] == '\n'
    decreases i
  {
    if i > 0 {
      PlaceRecounts(b, i - 1);
      assert b[..i][..i - 1] == b[..i - 1];
    }
  }

  // ----- longest match -----

  lemma OperatorLengths()
    ensures |OPERATORS| == 19 && |OPERATORS[0]| == 3
    ensures forall k :: 1 <= k < |OPERATORS| ==> |OPERATORS[k]| == 2
  {
  }

  /** With the longer operators in front, the first that fits is the longest. */
  lemma {:induction false} FirstIsLongest(b: Text, i: nat, ops: seq<string>, k: nat)
    requires i < |b| && k < |ops| && Starts(b, i, ops[k])
    requires forall m, n :: 0 <= m < n < |ops| ==> |ops[m]| >= |ops[n]|
    ensures |ops[k]| <= OperatorLength(b, i, ops)
    decreases k
  {
    hide Starts;
    if k > 0 && !Starts(b, i, ops[0]) {
      assert ops[1..][k - 1] == ops[k];
      FirstIsLongest(b, i, ops[1..], k - 1);
    }
  }

  lemma {:induction false} LengthOfFirst(b: Text, i: nat, ops: seq<string>)
    ensures var n := OperatorLength(b, i, ops);
            || (exists k: nat :: k < |ops| && Starts(b, i, ops[k]) && n == |ops[k]|)
            || (n == 1 && forall k: nat :: k < |ops| ==> !Starts(b, i, ops[k]))
    decreases |ops|
  {
    hide Starts;
    if ops != [] && !Starts(b, i, ops[0]) {
      LengthOfFirst(b, i, ops[1..]);
      if k: nat :| k < |ops[1..]| && Starts(b, i, ops[1..][k]) && OperatorLength(b, i, ops) == |ops[1..][k]| {
        assert Starts(b, i, ops[k + 1]);
      } else {
        forall k: nat | k < |ops| ensures !Starts(b, i, ops[k]) { if k > 0 { assert ops[1..][k - 1] == ops[k]; } }
      }
    }
  }

  /** The first operator of the list that fits is the longest that stands there. */
  lemma OperatorExactly(b: Text, i: nat, j: nat)
    requires i < |b|
    ensures j == i + OperatorLength(b, i, OPERATORS) <==> Operator(b, i, j)
  {
    hide Starts, OperatorLength, OPERATORS;
    OperatorLengths();
    LengthOfFirst(b, i, OPERATORS);
    var n := OperatorLength(b, i, OPERATORS);
    forall k: nat | Listed(b, i, k) ensures |OPERATORS[k]| <= n {
      FirstIsLongest(b, i, OPERATORS, k);
    }
    if k: nat :| k < |OPERATORS| && Starts(b, i, OPERATORS[k]) && n == |OPERATORS[k]| {
      assert Listed(b, i, k);
    }
  }

  // ----- as it runs -----

  class Lexer {
    const b: Text
    var i: nat
    var line: nat
    var col: nat

    ghost predicate Valid()
      reads this
    {
      i <= |b| && (line, col) == Place(b, i)
    }

    constructor (b: Text)
      ensures Valid() && this.b == b && i == 0
    {
      this.b, i, line, col := b, 0, 1, 1;
    }

    method Advance()
      requires Valid() && i < |b|
      modifies this
      ensures Valid() && i == old(i) + 1
    {
      if b[i] == '\n' { line, col := line + 1, 1; } else { col := col + 1; }
      i := i + 1;
    }

    method AdvanceTo(end: nat)
      requires Valid() && i <= end <= |b|
      modifies this
      ensures Valid() && i == end
    {
      while i < end
        invariant Valid() && i <= end
      {
        Advance();
      }
    }

    method SkipLine()
      requires Valid()
      modifies this
      ensures Valid() && i == LineEnd(b, old(i))
    {
      while i < |b| && b[i] != '\n'
        invariant Valid() && LineEnd(b, i) == LineEnd(b, old(i))
        decreases |b| - i
      {
        Advance();
      }
    }

    method SkipComment() returns (closed: bool)
      requires Valid() && i + 2 <= |b| && Starts(b, i, "/*")
      modifies this
      ensures Valid() && closed == CommentEnd(b, old(i) + 2, 1).Some?
      ensures closed ==> i == CommentEnd(b, old(i) + 2, 1).value
    {
      hide Starts, CommentEnd;
      var depth := 1;
      AdvanceTo(i + 2);
      while i < |b| && depth > 0
        invariant Valid() && depth >= 0 && CommentEnd(b, i, depth) == CommentEnd(b, old(i) + 2, 1)
        decreases |b| - i
      {
        CommentStep(b, i, depth);
        if Starts(b, i, "/*") {
          depth := depth + 1;
          AdvanceTo(i + 2);
        } else if Starts(b, i, "*/") {
          depth := depth - 1;
          AdvanceTo(i + 2);
        } else {
          Advance();
        }
      }
      CommentStops(b, i, depth);
      closed := depth == 0;
    }

    method Word()
      requires Valid()
      modifies this
      ensures Valid() && i == WordEnd(b, old(i))
    {
      while i < |b| && WordChar(b[i])
        invariant Valid() && WordEnd(b, i) == WordEnd(b, old(i))
        decreases |b| - i
      {
        Advance();
      }
    }

    method Digits()
      requires Valid()
      modifies this
      ensures Valid() && i == DigitsEnd(b, old(i))
    {
      while i < |b| && Digit(b[i])
        invariant Valid() && DigitsEnd(b, i) == DigitsEnd(b, old(i))
        decreases |b| - i
      {
        Advance();
      }
    }

    method Whole(radix: bool)
      requires Valid()
      modifies this
      ensures Valid() && i == IntegerEnd(b, old(i), radix)
    {
      while i < |b| && (Digit(b[i]) || b[i] == '_' || (radix && Alpha(b[i])))
        invariant Valid() && IntegerEnd(b, i, radix) == IntegerEnd(b, old(i), radix)
        decreases |b| - i
      {
        Advance();
      }
    }

    method NumberToken() returns (kind: nat, ok: bool)
      requires Valid() && i < |b| && Digit(b[i])
      modifies this
      ensures Valid() && (ok <==> Number(b, old(i)).Cut?)
      ensures ok ==> Number(b, old(i)) == Cut(i, kind)
    {
      hide IntegerEnd, DigitsEnd;
      kind, ok := 1, true;
      var radix := Radix(b, i);
      Whole(radix);
      if radix { return; }
      if i + 1 < |b| && b[i] == '.' && Digit(b[i + 1]) {
        kind := 2;
        Advance();
        Digits();
      }
      if ExponentAt(b, i) {
        kind := 2;
        Advance();
        if i < |b| && (b[i] == '+' || b[i] == '-') { Advance(); }
        if i == |b| || !Digit(b[i]) { return kind, false; }
        Digits();
      }
    }

    method QuotedToken() returns (kind: nat, problem: Option<Problem>)
      requires Valid() && i < |b| && b[i] in "\"'`"
      modifies this
      ensures Valid()
      ensures match problem case Some(why) => Quoted(b, old(i)) == Bad(why) case None => Quoted(b, old(i)) == Cut(i, kind)
    {
      var start, q := i, b[i];
      kind, problem := if q == '\'' then 4 else if q == '`' then 5 else 3, None;
      Advance();
      var closed := Quote(q);
      if !closed { return kind, Some(if q == '\'' then BadChar else Unterminated); }
      if q == '\'' && Decoded(b[start + 1..i - 1]) != 1 { problem := Some(BadChar); }
    }

    method Quote(q: char) returns (closed: bool)
      requires Valid()
      modifies this
      ensures Valid() && closed == QuoteEnd(b, old(i), q).Some?
      ensures closed ==> i == QuoteEnd(b, old(i), q).value
    {
      while i < |b|
        invariant Valid() && QuoteEnd(b, i, q) == QuoteEnd(b, old(i), q)
        decreases |b| - i
      {
        if b[i] == q {
          Advance();
          return true;
        }
        if b[i] == '\n' && q != '`' { return false; }
        if b[i] == '\\' && q != '`' {
          Advance();
          if i >= |b| { return false; }
        }
        Advance();
      }
      closed := false;
    }

    /** The whole text. Every turn of the loop moves on. */
    method Lex() returns (r: Result)
      requires Valid() && i == 0
      modifies this
      ensures r == LexFrom(b, 0)
    {
      var out: seq<Token> := [];
      while i < |b|
        invariant Valid() && Glued(out, LexFrom(b, i)) == LexFrom(b, 0)
        decreases |b| - i
      {
        var start := i;
        var l, c := line, col;
        if b[i] == ' ' || b[i] == '\t' || b[i] == '\r' {
          Advance();
          continue;
        }
        if Starts(b, i, "//") {
          SlashLine(b, i);
          SkipLine();
          continue;
        }
        if Starts(b, i, "/*") {
          var closed := SkipComment();
          if !closed { return Wrong(UnclosedComment, start); }
          continue;
        }
        var kind, problem := OneToken();
        if problem.Some? { return Wrong(problem.value, start); }
        GlueMore(out, Token(start, i, kind, l, c), LexFrom(b, i));
        out := out + [Token(start, i, kind, l, c)];
      }
      r := Tokens(out + [Token(i, i, 0, line, col)]);
    }

    method OneToken() returns (kind: nat, problem: Option<Problem>)
      requires Valid() && i < |b| && !Scan(b, i).Blank? && !Starts(b, i, "/*")
      modifies this
      ensures Valid()
      ensures match problem case Some(why) => Scan(b, old(i)) == Bad(why) case None => i > old(i) && Scan(b, old(i)) == Cut(i, kind)
    {
      kind, problem := 0, None;
      if Alpha(b[i]) || b[i] == '_' {
        Word();
      } else if Digit(b[i]) {
        var ok;
        kind, ok := NumberToken();
        if !ok { problem := Some(BadExponent); }
      } else if b[i] in "\"'`" {
        kind, problem := QuotedToken();
      } else if b[i] as int >= 128 {
        problem := Some(NotAscii);
      } else {
        OperatorFits(b, i, OPERATORS);
        AdvanceTo(i + OperatorLength(b, i, OPERATORS));
      }
    }
  }

  function Glued(out: seq<Token>, r: Result): Result { if r.Wrong? then r else Tokens(out + r.ts) }

  lemma GlueMore(out: seq<Token>, t: Token, r: Result)
    ensures Glued(out + [t], r) == Glued(out, if r.Wrong? then r else Tokens([t] + r.ts))
  {
    if r.Tokens? { assert out + [t] + r.ts == out + ([t] + r.ts); }
  }
}
