/** Types as they stand in a text: cut by the lexer's longest match (lexer.rs:9-187), then
    read (parser.rs:74-110). Longest match also joins the last `>` of a spelling with a `>`
    or `=` right behind it; only the first of these can be split again. */
module TypeText {
  import opened Wrappers
  import Lexing
  import opened TypeSpelling

  type Text = Lexing.Text

  predicate Identifier(s: string) {
    s != [] && (Lexing.Alpha(s[0]) || s[0] == '_') && forall k :: 0 <= k < |s| ==> Lexing.WordChar(s[k])
  }

  /** Every name is made of identifiers. */
  predicate Written(t: Ty) {
    match t
    case Name(path) => path != [] && forall k :: 0 <= k < |path| ==> Identifier(path[k])
    case Map(k, v) => Written(k) && Written(v)
    case Ptr(u) => Written(u)
    case Slice(u) => Written(u)
    case Vec(u) => Written(u)
  }

  /** The characters of a spelling. */
  function Chars(ss: Tokens): string { if ss == [] then [] else ss[0].s + Chars(ss[1..]) }

  // ----- tokens of a text as the parser sees them -----

  function Seen(s: string): Token { if s != [] && (Lexing.Alpha(s[0]) || s[0] == '_') then Word(s) else Sym(s) }

  predicate Inside(b: Text, ts: seq<Lexing.Token>) { forall k :: 0 <= k < |ts| ==> ts[k].start <= ts[k].end <= |b| }

  function AllSeen(b: Text, ts: seq<Lexing.Token>): Tokens
    requires Inside(b, ts)
  {
    if ts == [] then [] else [Seen(b[ts[0].start..ts[0].end])] + AllSeen(b, ts[1..])
  }

  lemma {:induction false} LexInside(b: Text, i: nat)
    requires i <= |b|
    ensures Lexing.LexFrom(b, i).Tokens? ==> Inside(b, Lexing.LexFrom(b, i).ts)
    decreases |b| - i
  {
    hide Lexing.Scan, Lexing.Place;
    if i < |b| {
      match Lexing.Scan(b, i)
      case Bad(_) =>
      case Blank(next) => LexInside(b, next);
      case Cut(end, _) => LexInside(b, end);
    }
  }

  /** The tokens from `i` on, if there is no lexical error. */
  function Words(b: Text, i: nat): Option<Tokens>
    requires i <= |b|
  {
    LexInside(b, i);
    match Lexing.LexFrom(b, i)
    case Wrong(_, _) => None
    case Tokens(ts) => Some(AllSeen(b, ts))
  }

  function Then(a: Tokens, o: Option<Tokens>): Option<Tokens> { if o.None? then None else Some(a + o.value) }

  lemma WordsStep(b: Text, i: nat, end: nat, kind: nat)
    requires i < end <= |b| && Lexing.Scan(b, i) == Lexing.Cut(end, kind)
    ensures Words(b, i) == Then([Seen(b[i..end])], Words(b, end))
  {
    hide Lexing.Scan, Lexing.Place;
    LexInside(b, i);
    LexInside(b, end);
    var r := Lexing.LexFrom(b, end);
    if r.Tokens? { assert Lexing.LexFrom(b, i).ts[1..] == r.ts; }
  }

  /** The type that stands at `i`, and the tokens behind it. */
  function ReadAt(b: Text, i: nat): Parsed
    requires i <= |b|
  {
    var ws := Words(b, i);
    if ws.None? then Fail else Typ(ws.value)
  }

  // ----- single tokens -----

  predicate Piece(a: Token) {
    match a
    case Word(s) => Identifier(s)
    case Sym(s) => |s| == 1 && s[0] in "*[]<>,."
  }

  /** Two characters that begin an operator, the first one a sign of type spellings. */
  predicate Joins(c: char, d: char) {
    || (c == '*' && d == '=') || (c == '<' && d in "=<-") || (c == '>' && (d == '=' || d == '>'))
    || (c == '.' && d == '.')
  }

  /** What stands at `j` does not make a longer token of `a`. */
  predicate Apart(a: Token, b: Text, j: nat) {
    j < |b| ==>
      match a
      case Word(_) => !Lexing.WordChar(b[j])
      case Sym(s) => s != "" && !Joins(s[0], b[j])
  }

  lemma PairsOf(k: nat)
    requires k < |Lexing.OPERATORS|
    ensures var op := Lexing.OPERATORS[k];
            |op| >= 2 && (op[0] in "*[]<>,." ==> Joins(op[0], op[1])) && (op[0] == '>' ==> |op| == 2)
  {
  }

  lemma ListedPair(b: Text, i: nat, k: nat)
    requires i < |b| && Lexing.Listed(b, i, k)
    ensures k < |Lexing.OPERATORS| && |Lexing.OPERATORS[k]| >= 2 && i + 1 < |b|
    ensures b[i] == Lexing.OPERATORS[k][0] && b[i + 1] == Lexing.OPERATORS[k][1]
  {
    hide Lexing.OPERATORS;
    PairsOf(k);
    var op := Lexing.OPERATORS[k];
    assert b[i..i + |op|][0] == b[i] && b[i..i + |op|][1] == b[i + 1];
  }

  lemma NoSlash(b: Text, i: nat)
    requires i < |b| && b[i] != '/'
    ensures !Lexing.Starts(b, i, "//") && !Lexing.Starts(b, i, "/*")
  {
    if i + 2 <= |b| { assert b[i..i + 2][0] == b[i]; }
  }

  lemma ScanPiece(a: Token, b: Text, i: nat)
    requires Piece(a) && i + |a.s| <= |b| && b[i..i + |a.s|] == a.s && Apart(a, b, i + |a.s|)
    ensures a.s != [] && Lexing.Scan(b, i) == Lexing.Cut(i + |a.s|, 0) && Seen(a.s) == a
  {
    hide Lexing.Scan;
    var j := i + |a.s|;
    assert b[i] == a.s[0];
    NoSlash(b, i);
    if a.Word? {
      forall k | i <= k < j ensures Lexing.WordChar(b[k]) { assert b[k] == a.s[k - i]; }
      Lexing.LexemeExactly(b, i, j, 0);
    } else {
      ScanSign(a, b, i);
    }
  }

  lemma ScanSign(a: Token, b: Text, i: nat)
    requires a.Sym? && Piece(a) && i < |b| && a.s == [b[i]] && Apart(a, b, i + 1)
    ensures Lexing.Scan(b, i) == Lexing.Cut(i + 1, 0)
  {
    hide Lexing.Scan, Lexing.OPERATORS, Lexing.Listed;
    NoSlash(b, i);
    forall k: nat ensures !Lexing.Listed(b, i, k) {
      if Lexing.Listed(b, i, k) {
        ListedPair(b, i, k);
        PairsOf(k);
      }
    }
    Lexing.LexemeExactly(b, i, i + 1, 0);
  }

  /** A `>` and the `>` or `=` behind it are one token. */
  lemma ScanPair(b: Text, i: nat)
    requires i + 1 < |b| && b[i] == '>' && (b[i + 1] == '>' || b[i + 1] == '=')
    ensures Lexing.Scan(b, i) == Lexing.Cut(i + 2, 0)
  {
    hide Lexing.Scan, Lexing.Listed;
    assert b[i..i + 2] == [b[i], b[i + 1]];
    NoSlash(b, i);
    var k: nat := if b[i + 1] == '>' then 9 else 5;
    assert Lexing.OPERATORS[9] == ">>" && Lexing.OPERATORS[5] == ">=";
    TwoListed(b, i, k);
    Lexing.LexemeExactly(b, i, i + 2, 0);
  }

  lemma TwoListed(b: Text, i: nat, k: nat)
    requires i + 2 <= |b| && k < |Lexing.OPERATORS| && b[i..i + 2] == Lexing.OPERATORS[k] && b[i] == '>'
    ensures Lexing.Operator(b, i, i + 2)
  {
    hide Lexing.OPERATORS;
    assert Lexing.Listed(b, i, k);
    forall n: nat | Lexing.Listed(b, i, n) ensures |Lexing.OPERATORS[n]| <= |Lexing.OPERATORS[k]| {
      ListedPair(b, i, n);
      PairsOf(n);
    }
  }

  // ----- spellings -----

  predicate Beside(a: Token, b: Token) {
    !(a.Word? && b.Word?) && !(a == Sym("<") && b == Sym("<")) && !(a == Sym(".") && b == Sym("."))
  }

  /** Pieces that stay apart when written without spaces, but for pairs of `>`. */
  predicate Fits(ss: Tokens) {
    ss == [] || (Piece(ss[0]) && (|ss| > 1 ==> Beside(ss[0], ss[1])) && Fits(ss[1..]))
  }

  predicate Pair(ss: Tokens) { Is(ss, ">") && Is(ss[1..], ">") }

  /** Nothing at `j` is joined to the last token of the lexed pieces. */
  predicate Clean(ss: Tokens, b: Text, j: nat) {
    if ss == [] then true
    else if Pair(ss) then Clean(ss[2..], b, j)
    else if |ss| == 1 then Apart(ss[0], b, j)
    else Clean(ss[1..], b, j)
  }

  lemma FirstChars(ss: Tokens, b: Text, i: nat, j: nat)
    requires ss != [] && i <= j <= |b| && b[i..j] == Chars(ss)
    ensures i + |ss[0].s| <= j && b[i..i + |ss[0].s|] == ss[0].s && b[i + |ss[0].s|..j] == Chars(ss[1..])
  {
    var e := i + |ss[0].s|;
    assert b[i..j][..e - i] == b[i..e] && b[i..j][e - i..] == b[e..j];
  }

  lemma NextApart(ss: Tokens, b: Text, e: nat, j: nat)
    requires |ss| > 1 && Fits(ss) && !Pair(ss) && e <= j <= |b| && b[e..j] == Chars(ss[1..])
    ensures Apart(ss[0], b, e)
  {
    hide Chars, Fits, Apart, Beside, Piece, Joins;
    TwoFit(ss);
    FirstChars(ss[1..], b, e, j);
    var n := ss[1];
    NamesStart(n);
    assert b[e] == n.s[0] by { assert b[e..e + |n.s|][0] == n.s[0]; }
    BesideApart(ss[0], n, b, e);
  }

  lemma TwoFit(ss: Tokens)
    requires |ss| > 1 && Fits(ss)
    ensures Piece(ss[0]) && Piece(ss[1]) && Beside(ss[0], ss[1])
  {
    assert Fits(ss[1..]);
  }

  lemma NamesStart(a: Token)
    requires Piece(a)
    ensures a.s != [] && (if a.Word? then Lexing.Alpha(a.s[0]) || a.s[0] == '_' else a == Sym([a.s[0]]))
  {
  }

  lemma BesideApart(a: Token, n: Token, b: Text, e: nat)
    requires Piece(a) && Piece(n) && Beside(a, n) && !(a == Sym(">") && n == Sym(">")) && e < |b| && b[e] == n.s[0]
    ensures Apart(a, b, e)
  {
    NamesStart(a);
    NamesStart(n);
  }

  /** Lexing pieces written one behind the other. */
  lemma {:induction false} LexPieces(ss: Tokens, b: Text, i: nat, j: nat)
    requires Fits(ss) && i <= j <= |b| && b[i..j] == Chars(ss) && Clean(ss, b, j)
    ensures Words(b, i) == Then(Lexed(ss), Words(b, j))
    decreases |ss|
  {
    hide Words, Lexing.Scan, Piece, Apart, Chars, Lexed, Then;
    if ss == [] {
      NoChars(b, ss, i, j);
      NothingThen(Words(b, j));
    } else {
      FirstChars(ss, b, i, j);
      LexedMore(ss, Words(b, j));
      if Pair(ss) {
        LexPair(ss, b, i, j);
        LexPieces(ss[2..], b, i + 2, j);
      } else {
        var e := i + |ss[0].s|;
        if |ss| > 1 { NextApart(ss, b, e, j); } else { NoChars(b, ss[1..], e, j); }
        ScanPiece(ss[0], b, i);
        WordsStep(b, i, e, 0);
        LexPieces(ss[1..], b, e, j);
      }
    }
  }

  lemma NoChars(b: Text, ss: Tokens, i: nat, j: nat)
    requires i <= j <= |b| && b[i..j] == Chars(ss) && ss == []
    ensures i == j
  {
  }

  lemma LexPair(ss: Tokens, b: Text, i: nat, j: nat)
    requires Pair(ss) && Fits(ss) && i <= j <= |b| && b[i..j] == Chars(ss)
    ensures i + 2 <= j && b[i + 2..j] == Chars(ss[2..]) && Fits(ss[2..])
    ensures Words(b, i) == Then([Sym(">>")], Words(b, i + 2))
  {
    hide Words, Lexing.Scan, Piece, Apart, Chars, Then;
    FirstChars(ss, b, i, j);
    FirstChars(ss[1..], b, i + 1, j);
    assert ss[1..][1..] == ss[2..];
    assert b[i] == b[i..i + 1][0] && b[i + 1] == b[i + 1..i + 2][0];
    assert b[i..i + 2] == ">>";
    ScanPair(b, i);
    WordsStep(b, i, i + 2, 0);
  }

  lemma NothingThen(o: Option<Tokens>)
    ensures Then(Lexed([]), o) == o
  {
    if o.Some? { assert [] + o.value == o.value; }
  }

  lemma LexedMore(ss: Tokens, o: Option<Tokens>)
    requires ss != []
    ensures Then(Lexed(ss), o) == if Pair(ss) then Then([Sym(">>")], Then(Lexed(ss[2..]), o))
                                  else Then([ss[0]], Then(Lexed(ss[1..]), o))
  {
    hide Lexed;
    LexedStep(ss);
    if o.Some? {
      if Pair(ss) {
        assert [Sym(">>")] + Lexed(ss[2..]) + o.value == [Sym(">>")] + (Lexed(ss[2..]) + o.value);
      } else {
        assert [ss[0]] + Lexed(ss[1..]) + o.value == [ss[0]] + (Lexed(ss[1..]) + o.value);
      }
    }
  }

  lemma {:induction false} FitsPlus(a: Tokens, b: Tokens)
    requires Fits(a) && Fits(b) && (a != [] && b != [] ==> Beside(a[|a| - 1], b[0]))
    ensures Fits(a + b)
    decreases |a|
  {
    hide Piece, Beside;
    if a == [] {
      assert a + b == b;
    } else {
      FitsPlus(a[1..], b);
      assert (a + b)[1..] == a[1..] + b;
      if |a| == 1 && b != [] { assert (a + b)[1] == b[0]; }
    }
  }

  lemma FitsOne(a: Token)
    requires Piece(a)
    ensures Fits([a])
  {
  }

  predicate Starter(a: Token) { a.Word? || a in {Sym("*"), Sym("[")} }

  lemma {:induction false} FitsPath(path: seq<string>)
    requires forall k :: 0 <= k < |path| ==> Identifier(path[k])
    ensures Fits(SpellPath(path)) && (path != [] ==> SpellPath(path)[0] == Sym(".") && SpellPath(path)[|SpellPath(path)| - 1].Word?)
  {
    if path != [] {
      FitsPath(path[1..]);
      FitsOne(Word(path[0]));
      assert Fits([Sym("."), Word(path[0])]) by { assert [Sym("."), Word(path[0])][1..] == [Word(path[0])]; }
      FitsPlus([Sym("."), Word(path[0])], SpellPath(path[1..]));
    }
  }

  ghost predicate FitsAs(ss: Tokens) {
    ss != [] && Fits(ss) && Starter(ss[0]) && (ss[|ss| - 1].Word? || ss[|ss| - 1] == Sym(">"))
  }

  lemma FitsFront(a: Token, c: Token, ss: Tokens)
    requires Piece(a) && Piece(c) && Beside(a, c) && FitsAs(ss) && Beside(c, ss[0])
    ensures Fits([a, c] + ss)
  {
    assert ([a, c] + ss)[1..] == [c] + ss && ([c] + ss)[1..] == ss;
  }

  lemma {:induction false} FitsSpell(t: Ty)
    requires Written(t)
    ensures FitsAs(Spell(t))
  {
    hide Fits, Piece, Identifier, Beside;
    match t
    case Name(path) => FitsName(path);
    case Ptr(u) =>
      FitsSpell(u);
      FitsStar(Spell(u));
    case Slice(u) =>
      FitsSpell(u);
      FitsBrackets(Spell(u));
    case Vec(u) =>
      FitsSpell(u);
      FitsList("Vec", Spell(u));
    case Map(k, v) =>
      FitsSpell(k);
      FitsSpell(v);
      FitsMap(Spell(k), Spell(v));
  }

  lemma FitsName(path: seq<string>)
    requires Written(Name(path))
    ensures FitsAs(Spell(Name(path)))
  {
    hide Fits, Piece, Identifier;
    FitsPath(path[1..]);
    NamePiece(path[0]);
    FitsOne(Word(path[0]));
    FitsPlus([Word(path[0])], SpellPath(path[1..]));
  }

  lemma FitsStar(ss: Tokens)
    requires FitsAs(ss)
    ensures FitsAs([Sym("*")] + ss)
  {
    hide Fits, Piece;
    Signs();
    FitsOne(Sym("*"));
    FitsPlus([Sym("*")], ss);
  }

  lemma FitsBrackets(ss: Tokens)
    requires FitsAs(ss)
    ensures FitsAs([Sym("["), Sym("]")] + ss)
  {
    hide Fits, Piece;
    Signs();
    FitsFront(Sym("["), Sym("]"), ss);
  }

  lemma FitsMap(k: Tokens, v: Tokens)
    requires FitsAs(k) && FitsAs(v)
    ensures FitsAs([Word("Map"), Sym("<")] + (k + ([Sym(",")] + (v + [Sym(">")]))))
  {
    hide Fits, Piece;
    Signs();
    FitsOne(Sym(","));
    FitsPlus([Sym(",")], v);
    FitsPlus(k, [Sym(",")] + v);
    var inner := k + ([Sym(",")] + v);
    assert inner[0] == k[0] && inner[|inner| - 1] == v[|v| - 1];
    FitsList("Map", inner);
    assert inner + [Sym(">")] == k + ([Sym(",")] + (v + [Sym(">")]));
  }

  lemma NamePiece(s: string)
    requires Identifier(s)
    ensures Piece(Word(s))
  {
  }

  lemma Signs()
    ensures Piece(Sym("*")) && Piece(Sym("[")) && Piece(Sym("]")) && Piece(Sym(",")) && Piece(Sym("<")) && Piece(Sym(">"))
    ensures Piece(Word("Vec")) && Piece(Word("Map"))
  {
  }

  lemma FitsList(name: string, inner: Tokens)
    requires FitsAs(inner) && name in {"Vec", "Map"}
    ensures FitsAs([Word(name), Sym("<")] + (inner + [Sym(">")]))
  {
    hide Fits, Piece;
    Signs();
    FitsOne(Sym(">"));
    FitsPlus(inner, [Sym(">")]);
    FitsFront(Word(name), Sym("<"), inner + [Sym(">")]);
  }

  // ----- the closing run -----

  /** How many `>` a spelling ends in. */
  function Closers(t: Ty): nat {
    match t
    case Name(_) => 0
    case Ptr(u) => Closers(u)
    case Slice(u) => Closers(u)
    case Vec(u) => Closers(u) + 1
    case Map(_, v) => Closers(v) + 1
  }

  function Rep(n: nat): Tokens { seq(n, _ => Sym(">")) }

  /** The spelling in front of its closing run. */
  function Head(t: Ty): Tokens {
    match t
    case Name(_) => Spell(t)
    case Ptr(u) => [Sym("*")] + Head(u)
    case Slice(u) => [Sym("["), Sym("]")] + Head(u)
    case Vec(u) => [Word("Vec"), Sym("<")] + Head(u)
    case Map(k, v) => [Word("Map"), Sym("<")] + (Spell(k) + ([Sym(",")] + Head(v)))
  }

  lemma RepMore(n: nat)
    ensures Rep(n) + [Sym(">")] == Rep(n + 1)
  {
  }

  lemma {:induction false} HeadAndRun(t: Ty)
    requires Written(t)
    ensures Head(t) != [] && Head(t)[|Head(t)| - 1].Word? && Spell(t) == Head(t) + Rep(Closers(t))
    ensures NameEnded(t) <==> Closers(t) == 0
  {
    hide Rep, Identifier;
    match t
    case Name(path) => NameHead(path);
    case Ptr(u) =>
      HeadAndRun(u);
      Grouped([Sym("*")], Head(u), Rep(Closers(u)));
    case Slice(u) =>
      HeadAndRun(u);
      Grouped([Sym("["), Sym("]")], Head(u), Rep(Closers(u)));
    case Vec(u) =>
      HeadAndRun(u);
      RunMore([Word("Vec"), Sym("<")], Head(u), Closers(u));
    case Map(k, v) =>
      HeadAndRun(v);
      MapRun(t);
  }

  lemma NameHead(path: seq<string>)
    requires path != []
    ensures var h := Head(Name(path)); h != [] && h[|h| - 1].Word? && Spell(Name(path)) == h + Rep(0)
  {
    PathEnds(path[1..]);
  }

  lemma MapRun(t: Ty)
    requires t.Map? && Spell(t.v) == Head(t.v) + Rep(Closers(t.v))
    ensures Spell(t) == Head(t) + Rep(Closers(t))
  {
    hide Rep;
    RepMore(Closers(t.v));
    Regroup([Word("Map"), Sym("<")], Spell(t.k), [Sym(",")], Head(t.v), Rep(Closers(t.v)), [Sym(">")]);
  }

  lemma Grouped(m: Tokens, h: Tokens, r: Tokens)
    ensures m + (h + r) == m + h + r
  {
  }

  lemma Regroup(m: Tokens, k: Tokens, c: Tokens, h: Tokens, r: Tokens, g: Tokens)
    ensures m + (k + (c + ((h + r) + g))) == m + (k + (c + h)) + (r + g)
  {
  }

  lemma RunMore(a: Tokens, h: Tokens, n: nat)
    ensures a + (h + Rep(n) + [Sym(">")]) == a + h + Rep(n + 1)
  {
  }

  lemma {:induction false} PathEnds(path: seq<string>)
    ensures path != [] ==> SpellPath(path) != [] && SpellPath(path)[|SpellPath(path)| - 1].Word?
  {
    if path != [] { PathEnds(path[1..]); }
  }

  lemma {:induction false} CleanRun(n: nat, b: Text, j: nat)
    ensures Clean(Rep(n), b, j) <==> n % 2 == 0 || Apart(Sym(">"), b, j)
    decreases n
  {
    hide Apart;
    if n >= 2 {
      assert Rep(n)[2..] == Rep(n - 2) && Pair(Rep(n));
      CleanRun(n - 2, b, j);
    }
  }

  lemma {:induction false} CleanBehind(a: Tokens, n: nat, b: Text, j: nat)
    requires a != [] && a[|a| - 1].Word?
    ensures Clean(a + Rep(n), b, j) == if n == 0 then Apart(a[|a| - 1], b, j) else Clean(Rep(n), b, j)
    decreases |a|
  {
    hide Apart;
    var ss := a + Rep(n);
    if Pair(ss) {
      assert ss[2..] == a[2..] + Rep(n);
      CleanBehind(a[2..], n, b, j);
    } else if |a| > 1 {
      assert ss[1..] == a[1..] + Rep(n);
      CleanBehind(a[1..], n, b, j);
    } else {
      assert ss[1..] == Rep(n);
    }
  }

  /** Whether the text at `j` leaves the spelling in front of it alone. */
  lemma CleanSpell(t: Ty, b: Text, j: nat)
    requires Written(t)
    ensures NameEnded(t) ==> (Clean(Spell(t), b, j) <==> j >= |b| || !Lexing.WordChar(b[j]))
    ensures !NameEnded(t) ==> (Clean(Spell(t), b, j) <==> Closers(t) % 2 == 0 || j >= |b| || (b[j] != '>' && b[j] != '='))
  {
    hide Rep, Clean;
    HeadAndRun(t);
    CleanBehind(Head(t), Closers(t), b, j);
    CleanRun(Closers(t), b, j);
    AfterCloser(b, j);
  }

  lemma AfterCloser(b: Text, j: nat)
    ensures Apart(Sym(">"), b, j) <==> j >= |b| || (b[j] != '>' && b[j] != '=')
  {
    assert ">"[0] == '>';
  }

  // ----- what may follow -----

  /** The type ends where its spelling does: a name is not made longer, by characters or by
      the next token; an odd closing run is not followed by `=`, nor by a run of `>` or `>=`
      that would be cut differently on its own. */
  predicate Follows(t: Ty, b: Text, j: nat)
    requires j <= |b|
  {
    if NameEnded(t) then
      var us := Words(b, j);
      (j < |b| ==> !Lexing.WordChar(b[j])) && us.Some? && !Is(us.value, ".") && !Is(us.value, "<")
    else
      Closers(t) % 2 == 1 && j < |b| ==>
        && b[j] != '='
        && (b[j] == '>' && j + 1 < |b| ==> b[j + 1] != '>' && b[j + 1] != '=')
  }

  /** A spelling in a text is read back as its type, with the tokens of the text behind it,
      if and only if what follows leaves it alone. */
  lemma SpellingReadBack(t: Ty, b: Text, i: nat, j: nat)
    requires Spellable(t) && Written(t) && i <= j <= |b| && b[i..j] == Chars(Spell(t)) && Words(b, j).Some?
    ensures ReadAt(b, i) == Ok(t, Words(b, j).value) <==> Follows(t, b, j)
  {
    hide Words, Typ, Lexed, Spell, Clean, Fits;
    CleanSpell(t, b, j);
    FitsSpell(t);
    if Clean(Spell(t), b, j) {
      LexPieces(Spell(t), b, i, j);
      TypeRoundTrip(t, Words(b, j).value);
    } else if NameEnded(t) {
      NameGoesOn(t, b, i, j);
    } else {
      OddRun(t, b, i, j);
      if b[j] == '>' { CloserAlone(b, j); }
    }
  }

  /** ... and some type is read there, the right one, unless an odd closing run is followed
      by `=`: then reading fails. */
  lemma ListReadBack(t: Ty, b: Text, i: nat, j: nat)
    requires Spellable(t) && Written(t) && !NameEnded(t) && i <= j <= |b| && b[i..j] == Chars(Spell(t)) && Words(b, i).Some?
    ensures if Closers(t) % 2 == 1 && j < |b| && b[j] == '=' then ReadAt(b, i) == Fail
            else ReadAt(b, i).Ok? && ReadAt(b, i).t == t
  {
    hide Words, Typ, Lexed, Spell, Clean, Fits;
    CleanSpell(t, b, j);
    FitsSpell(t);
    if Clean(Spell(t), b, j) {
      LexPieces(Spell(t), b, i, j);
      TypeRoundTrip(t, Words(b, j).value);
    } else {
      OddRun(t, b, i, j);
    }
  }

  /** A vector of `a` right before a `=`: the text lexes, and its type is not read. */
  lemma VecBeforeEquals()
    ensures Written(Vec(Name(["a"]))) && Chars(Spell(Vec(Name(["a"])))) == "Vec<a>"
    ensures Words("Vec<a>=v", 0).Some? && ReadAt("Vec<a>=v", 0) == Fail
  {
    hide Words, Typ;
    var b, t := "Vec<a>=v", Vec(Name(["a"]));
    assert Spell(Name(["a"])) == [Word("a")];
    assert Spell(t) == [Word("Vec"), Sym("<"), Word("a"), Sym(">")];
    SpelledVec();
    assert b[0..6] == "Vec<a>";
    assert Closers(t) == 1;
    assert b[7..8] == "v";
    ScanPiece(Word("v"), b, 7);
    WordsStep(b, 7, 8, 0);
    AtEnd(b);
    OddRun(t, b, 0, 6);
  }

  lemma SpelledVec()
    ensures Chars([Word("Vec"), Sym("<"), Word("a"), Sym(">")]) == "Vec<a>"
  {
    CharsOne(Word("Vec"), [Sym("<"), Word("a"), Sym(">")]);
    CharsOne(Sym("<"), [Word("a"), Sym(">")]);
    CharsOne(Word("a"), [Sym(">")]);
    CharsOne(Sym(">"), []);
    assert [Word("Vec")] + [Sym("<"), Word("a"), Sym(">")] == [Word("Vec"), Sym("<"), Word("a"), Sym(">")];
    assert [Sym("<")] + [Word("a"), Sym(">")] == [Sym("<"), Word("a"), Sym(">")];
    assert [Word("a")] + [Sym(">")] == [Word("a"), Sym(">")];
    assert [Sym(">")] + [] == [Sym(">")];
  }

  lemma AtEnd(b: Text)
    ensures Words(b, |b|).Some?
  {
  }

  /** The last `>` of an odd run and the character behind it in one token. */
  lemma OddRun(t: Ty, b: Text, i: nat, j: nat)
    requires Spellable(t) && Written(t) && !NameEnded(t) && i <= j < |b| && b[i..j] == Chars(Spell(t))
    requires Closers(t) % 2 == 1 && (b[j] == '>' || b[j] == '=')
    ensures Words(b, i).None? <==> Words(b, j + 1).None?
    ensures b[j] == '>' && Words(b, j + 1).Some? ==> ReadAt(b, i) == Ok(t, [Sym(">")] + Words(b, j + 1).value)
    ensures b[j] == '=' ==> ReadAt(b, i) == Fail
  {
    hide Words, Typ, Lexed, Spell, Closers;
    var c := OddFront(t);
    LexOdd(t, c, b, i, j);
    var pair := b[j - 1..j + 1];
    if Words(b, j + 1).Some? {
      assert Words(b, i).value == Lexed(c) + ([Seen(pair)] + Words(b, j + 1).value);
      LastJoined(t, c, pair, Words(b, j + 1).value);
    }
  }

  ghost function OddFront(t: Ty): (c: Tokens)
    requires Written(t) && Closers(t) > 0
    ensures Spell(t) == c + [Sym(">")] && c == Head(t) + Rep(Closers(t) - 1)
  {
    HeadAndRun(t);
    RepMore(Closers(t) - 1);
    Head(t) + Rep(Closers(t) - 1)
  }

  lemma LexOdd(t: Ty, c: Tokens, b: Text, i: nat, j: nat)
    requires Written(t) && !NameEnded(t) && i <= j < |b| && b[i..j] == Chars(Spell(t))
    requires Closers(t) % 2 == 1 && (b[j] == '>' || b[j] == '=') && c == OddFront(t)
    ensures i < j && b[j - 1..j + 1] == ['>', b[j]]
    ensures Words(b, i) == Then(Lexed(c), Then([Seen(b[j - 1..j + 1])], Words(b, j + 1)))
  {
    hide Words, Lexed, Spell, Rep, Clean, Fits, Apart, Head, Then, Lexing.Scan;
    HeadAndRun(t);
    FitsSpell(t);
    FitsLess(c, [Sym(">")]);
    WithoutLast(c, b, i, j);
    CloserNoWord(Head(t), b, j - 1);
    CleanBehind(Head(t), Closers(t) - 1, b, j - 1);
    CleanRun(Closers(t) - 1, b, j - 1);
    LexPieces(c, b, i, j - 1);
    ScanPair(b, j - 1);
    WordsStep(b, j - 1, j + 1, 0);
  }

  lemma CloserNoWord(h: Tokens, b: Text, j: nat)
    requires h != [] && h[|h| - 1].Word? && j < |b| && b[j] == '>'
    ensures Apart(h[|h| - 1], b, j)
  {
  }

  lemma WithoutLast(c: Tokens, b: Text, i: nat, j: nat)
    requires i <= j <= |b| && b[i..j] == Chars(c + [Sym(">")])
    ensures i < j && b[i..j - 1] == Chars(c) && b[j - 1] == '>'
  {
    CharsPlus(c, [Sym(">")]);
    assert Chars([Sym(">")]) == ">" by { assert [Sym(">")][1..] == []; }
    assert b[i..j - 1] == b[i..j][..j - 1 - i] == Chars(c);
    assert b[j - 1] == b[i..j][j - 1 - i] == '>';
  }

  lemma LastJoined(t: Ty, c: Tokens, pair: string, us: Tokens)
    requires Spellable(t) && !NameEnded(t) && Spell(t) == c + [Sym(">")] && pair in {">>", ">="}
    ensures var r := Typ(Lexed(c) + ([Seen(pair)] + us));
            if pair == ">>" then r == Ok(t, [Sym(">")] + us) else r == Fail
  {
    hide Typ, Lexed, Spell, Flat;
    if pair == ">>" {
      HalfLeft(t, c, us);
    } else {
      SpellPlain(t);
      FlatLexed(c);
      FlatPlus(Lexed(c), [Sym(">=")] + us);
      FlatPlus([Sym(">=")], us);
      FlatOne(Sym(">="));
      Unclosed(t, c, Lexed(c) + ([Sym(">=")] + us), [Sym(">=")] + Flat(us));
    }
  }

  lemma FlatOne(a: Token)
    requires a != Sym(">>")
    ensures Flat([a]) == [a]
  {
    assert [a][1..] == [] && Flat([]) == [];
  }

  /** A `>` is a token of its own unless a `>` or `=` follows. */
  lemma CloserAlone(b: Text, j: nat)
    requires j < |b| && b[j] == '>' && Words(b, j).Some?
    ensures Words(b, j + 1).Some? && Words(b, j) == Some([Sym(">")] + Words(b, j + 1).value) <==>
            j + 1 == |b| || (b[j + 1] != '>' && b[j + 1] != '=')
  {
    hide Words;
    AfterCloser(b, j + 1);
    if Apart(Sym(">"), b, j + 1) {
      ScanSign(Sym(">"), b, j);
      WordsStep(b, j, j + 1, 0);
      assert b[j..j + 1] == ">";
    } else {
      assert b[j..j + 2] == [b[j], b[j + 1]] && Seen(b[j..j + 2]) != Sym(">");
      ScanPair(b, j);
      WordsStep(b, j, j + 2, 0);
      assert Words(b, j).value[0] == Seen(b[j..j + 2]);
      if Words(b, j + 1).Some? { assert ([Sym(">")] + Words(b, j + 1).value)[0] == Sym(">"); }
    }
  }

  lemma {:induction false} CharsPlus(a: Tokens, b: Tokens)
    ensures Chars(a + b) == Chars(a) + Chars(b)
    decreases |a|
  {
    if a == [] {
      assert a + b == b;
    } else {
      CharsPlus(a[1..], b);
      assert (a + b)[1..] == a[1..] + b;
    }
  }

  lemma {:induction false} FitsLess(a: Tokens, b: Tokens)
    requires Fits(a + b)
    ensures Fits(a)
    decreases |a|
  {
    hide Piece, Beside;
    if a != [] {
      assert (a + b)[1..] == a[1..] + b;
      FitsLess(a[1..], b);
      if |a| > 1 { assert (a + b)[1] == a[1]; }
    }
  }

  // ----- names made longer -----

  /** The type with `more` at the end of its last name. */
  function Longer(t: Ty, more: string): Ty {
    match t
    case Name(path) => if path == [] then t else Name(LastLonger(path, more))
    case Ptr(u) => Ptr(Longer(u, more))
    case Slice(u) => Slice(Longer(u, more))
    case _ => t
  }

  lemma CharsOne(a: Token, ss: Tokens)
    ensures Chars([a] + ss) == a.s + Chars(ss)
  {
    assert ([a] + ss)[1..] == ss;
  }

  function LastLonger(path: seq<string>, more: string): (q: seq<string>)
    requires path != []
    ensures |q| == |path|
  {
    path[..|path| - 1] + [path[|path| - 1] + more]
  }

  lemma LastLater(path: seq<string>, more: string)
    requires |path| > 1
    ensures LastLonger(path, more)[0] == path[0] && LastLonger(path, more)[1..] == LastLonger(path[1..], more)
  {
  }

  lemma LastOnly(path: seq<string>, more: string)
    requires |path| == 1
    ensures LastLonger(path, more)[0] == path[0] + more && LastLonger(path, more)[1..] == [] == path[1..]
  {
  }

  lemma PathChars(path: seq<string>)
    requires path != []
    ensures Chars(SpellPath(path)) == "." + (path[0] + Chars(SpellPath(path[1..])))
  {
    hide Chars;
    CharsOne(Sym("."), [Word(path[0])] + SpellPath(path[1..]));
    CharsOne(Word(path[0]), SpellPath(path[1..]));
    assert [Sym("."), Word(path[0])] + SpellPath(path[1..]) == [Sym(".")] + ([Word(path[0])] + SpellPath(path[1..]));
  }

  lemma {:induction false} LongerPath(path: seq<string>, more: string)
    requires path != []
    ensures Chars(SpellPath(LastLonger(path, more))) == Chars(SpellPath(path)) + more
    decreases |path|
  {
    hide Chars, SpellPath, LastLonger;
    var q := LastLonger(path, more);
    PathChars(path);
    PathChars(q);
    var rest := Chars(SpellPath(path[1..]));
    if |path| > 1 {
      LastLater(path, more);
      LongerPath(path[1..], more);
      assert "." + (path[0] + (rest + more)) == "." + (path[0] + rest) + more;
    } else {
      LastOnly(path, more);
      EmptyChars();
      assert "." + ((path[0] + more) + []) == "." + (path[0] + []) + more;
    }
  }

  lemma EmptyChars()
    ensures Chars(SpellPath([])) == []
  {
  }

  lemma {:induction false} LongerIs(t: Ty, more: string)
    requires NameEnded(t) && Written(t) && more != [] && forall k :: 0 <= k < |more| ==> Lexing.WordChar(more[k])
    ensures var q := Longer(t, more);
            NameEnded(q) && Written(q) && Alike(t, q) && q != t && Chars(Spell(q)) == Chars(Spell(t)) + more
  {
    match t
    case Name(path) => LongerName(path, more);
    case Ptr(u) =>
      LongerIs(u, more);
      assert Spell(Longer(t, more))[1..] == Spell(Longer(u, more)) && Spell(t)[1..] == Spell(u);
    case Slice(u) =>
      LongerIs(u, more);
      TwoChars(Spell(u));
      TwoChars(Spell(Longer(u, more)));
  }

  lemma TwoChars(ss: Tokens)
    ensures Chars([Sym("["), Sym("]")] + ss) == "[]" + Chars(ss)
  {
    CharsPlus([Sym("["), Sym("]")], ss);
    assert [Sym("["), Sym("]")][1..] == [Sym("]")];
    assert [Sym("]")][1..] == [];
  }

  lemma LongerName(path: seq<string>, more: string)
    requires Written(Name(path)) && more != [] && forall k :: 0 <= k < |more| ==> Lexing.WordChar(more[k])
    ensures var q := Name(LastLonger(path, more));
            Written(q) && Alike(Name(path), q) && q != Name(path) && Chars(Spell(q)) == Chars(Spell(Name(path))) + more
  {
    LongerChars(path, more);
    var q := LastLonger(path, more);
    var n := |path| - 1;
    assert q[n] == path[n] + more && |q[n]| > |path[n]|;
    assert Identifier(q[n]);
  }

  lemma LongerChars(path: seq<string>, more: string)
    requires path != []
    ensures Chars(Spell(Name(LastLonger(path, more)))) == Chars(Spell(Name(path))) + more
  {
    hide Chars, SpellPath, LastLonger;
    var q := LastLonger(path, more);
    CharsOne(Word(path[0]), SpellPath(path[1..]));
    CharsOne(Word(q[0]), SpellPath(q[1..]));
    if |path| > 1 {
      LastLater(path, more);
      LongerPath(path[1..], more);
      assert path[0] + (Chars(SpellPath(path[1..])) + more) == path[0] + Chars(SpellPath(path[1..])) + more;
    } else {
      LastOnly(path, more);
      EmptyChars();
      assert (path[0] + more) + [] == (path[0] + []) + more;
    }
  }

  /** Made longer, the last name may turn into `owned`, which the reader skips. */
  lemma {:induction false} OwnedEaten(t: Ty, more: string, ws: Tokens)
    requires NameEnded(t) && Spellable(t) && Written(t) && more != [] && !Spellable(Longer(t, more))
    ensures Lexing.Alpha(more[0])
    ensures var r := Typ(Spell(Longer(t, more)) + ws); r.Ok? ==> |r.rest| <= |ws|
  {
    hide Typ;
    var q := Longer(t, more);
    match t
    case Name(path) =>
      assert |path| == 1 && path[0] + more == "owned";
      assert more[0] == (path[0] + more)[|path[0]|];
      assert Spell(q) == [Word("owned")] by { assert q.path[1..] == []; }
    case Ptr(u) =>
      OwnedEaten(u, more, ws);
      assert (Spell(q) + ws)[1..] == Spell(Longer(u, more)) + ws;
      PrefixedRest(Spell(q) + ws);
    case Slice(u) =>
      OwnedEaten(u, more, ws);
      assert (Spell(q) + ws)[2..] == Spell(Longer(u, more)) + ws;
      PrefixedRest(Spell(q) + ws);
  }

  lemma PrefixedRest(ts: Tokens)
    ensures Is(ts, "*") && Typ(ts).Ok? ==> Typ(ts[1..]).Ok? && Typ(ts).rest == Typ(ts[1..]).rest
    ensures Is(ts, "[") && Typ(ts).Ok? ==> |ts| >= 2 && Typ(ts[2..]).Ok? && Typ(ts).rest == Typ(ts[2..]).rest
  {
    if Is(ts, "[") && |ts| >= 2 { assert ts[1..][1..] == ts[2..]; }
  }

  /** Word characters behind a name make it another name. */
  lemma NameGoesOn(t: Ty, b: Text, i: nat, j: nat)
    requires Spellable(t) && Written(t) && NameEnded(t) && i <= j < |b| && b[i..j] == Chars(Spell(t))
    requires Lexing.WordChar(b[j]) && Words(b, j).Some?
    ensures ReadAt(b, i) != Ok(t, Words(b, j).value)
  {
    hide Words, Typ, Lexed, Spell, Clean, Fits, Longer;
    var e := Lexing.WordEnd(b, j);
    var more := b[j..e];
    Lexing.WordRuns(b, j);
    assert e > j && more[0] == b[j];
    var q := Longer(t, more);
    LongerIs(t, more);
    assert b[i..e] == b[i..j] + more;
    FitsSpell(q);
    CleanSpell(q, b, e);
    LexPieces(Spell(q), b, i, e);
    NamedPlain(q);
    if Words(b, e).Some? {
      var ws := Words(b, e).value;
      if Spellable(q) {
        ReadsOther(t, q, ws);
      } else {
        OwnedEaten(t, more, ws);
        ScanPiece(Word(more), b, j);
        WordsStep(b, j, e, 0);
      }
    }
  }
}
