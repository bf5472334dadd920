/** Reading types back (parser.rs:74-110). The lexer takes `>>` for one token, so the reader
    of a nested parameter list splits it in place: one `>` now, the other left for the
    enclosing list. */
module TypeSpelling {
  import opened Wrappers

  datatype Token = Word(s: string) | Sym(s: string)

  type Tokens = seq<Token>

  datatype Ty = Name(path: seq<string>) | Ptr(t: Ty) | Slice(t: Ty) | Vec(t: Ty) | Map(k: Ty, v: Ty)

  datatype Parsed = Fail | Ok(t: Ty, rest: Tokens)

  predicate Is(ts: Tokens, s: string) { ts != [] && ts[0] == Sym(s) }

  // ----- reading -----

  function Close(ts: Tokens): (r: Option<Tokens>)
    ensures r.Some? ==> |r.value| <= |ts|
  {
    if Is(ts, ">") then Some(ts[1..])
    else if Is(ts, ">>") then Some([Sym(">")] + ts[1..])
    else None
  }

  /** The rest of a dotted name. */
  function Dotted(path: seq<string>, ts: Tokens): (r: Option<(seq<string>, Tokens)>)
    ensures r.Some? ==> |r.value.1| <= |ts|
    decreases |ts|
  {
    if !Is(ts, ".") then Some((path, ts))
    else if |ts| < 2 || !ts[1].Word? then None
    else Dotted(path + [ts[1].s], ts[2..])
  }

  function Typ(tokens: Tokens): (r: Parsed)
    ensures r.Ok? ==> |r.rest| < |tokens|
    decreases |tokens|, 1
  {
    var ts := if tokens != [] && tokens[0] == Word("owned") then tokens[1..] else tokens;
    if Is(ts, "*") || Is(ts, "&") then
      var r := Typ(ts[1..]);
      if r.Fail? then Fail else Ok(Ptr(r.t), r.rest)
    else if Is(ts, "[") then
      if !Is(ts[1..], "]") then Fail
      else
        var r := Typ(ts[2..]);
        if r.Fail? then Fail else Ok(Slice(r.t), r.rest)
    else NamedTyp(ts)
  }

  /** A name, or a name with a parameter list; every list but that of `Vec` makes a map. */
  function NamedTyp(ts: Tokens): (r: Parsed)
    ensures r.Ok? ==> |r.rest| < |ts|
    decreases |ts|, 0
  {
    if ts == [] || !ts[0].Word? then Fail
    else
      var n := Dotted([ts[0].s], ts[1..]);
      if n.None? then Fail
      else if !Is(n.value.1, "<") then Ok(Name(n.value.0), n.value.1)
      else
        var t := Typ(n.value.1[1..]);
        if t.Fail? then Fail
        else if n.value.0 == ["Vec"] then Closing(Vec(t.t), t.rest)
        else if !Is(t.rest, ",") then Fail
        else
          var v := Typ(t.rest[1..]);
          if v.Fail? then Fail else Closing(Map(t.t, v.t), v.rest)
  }

  function Closing(t: Ty, ts: Tokens): (r: Parsed)
    ensures r.Ok? ==> |r.rest| <= |ts|
  {
    var c := Close(ts);
    if c.None? then Fail else Ok(t, c.value)
  }

  /** `&` stands for `*`, an `owned` in front says nothing, and every parameter list but that
      of `Vec` is read as that of `Map`. */
  lemma ReadAlike(ts: Tokens, name: string)
    ensures Typ([Sym("&")] + ts) == Typ([Sym("*")] + ts)
    ensures !(ts != [] && ts[0] == Word("owned")) ==> Typ([Word("owned")] + ts) == Typ(ts)
    ensures Is(ts, "<") && name != "Vec" && name != "owned" ==> Typ([Word(name)] + ts) == Typ([Word("Map")] + ts)
  {
    hide Typ, NamedTyp;
    PointerRead("&", ts);
    PointerRead("*", ts);
    OwnedRead(ts);
    if Is(ts, "<") && name != "owned" {
      NameRead(name, ts);
      NameRead("Map", ts);
      if name != "Vec" { ListRead(name, "Map", ts); }
    }
  }

  lemma PointerRead(sign: string, ts: Tokens)
    requires sign == "*" || sign == "&"
    ensures Typ([Sym(sign)] + ts) == var r := Typ(ts); if r.Fail? then Fail else Ok(Ptr(r.t), r.rest)
  {
    assert ([Sym(sign)] + ts)[1..] == ts;
    hide NamedTyp;
  }

  lemma OwnedRead(ts: Tokens)
    ensures !(ts != [] && ts[0] == Word("owned")) ==> Typ([Word("owned")] + ts) == Typ(ts)
  {
    assert ([Word("owned")] + ts)[1..] == ts;
    hide NamedTyp;
  }

  lemma NameRead(name: string, ts: Tokens)
    requires name != "owned"
    ensures Typ([Word(name)] + ts) == NamedTyp([Word(name)] + ts)
  {
    hide NamedTyp;
  }

  lemma ListRead(a: string, b: string, ts: Tokens)
    requires Is(ts, "<") && a != "Vec" && b != "Vec"
    ensures NamedTyp([Word(a)] + ts) == NamedTyp([Word(b)] + ts)
  {
    hide Typ;
    assert ([Word(a)] + ts)[1..] == ts == ([Word(b)] + ts)[1..];
    assert Dotted([a], ts) == Some(([a], ts)) && Dotted([b], ts) == Some(([b], ts));
    assert [a][0] != "Vec" && [b][0] != "Vec" && ["Vec"][0] == "Vec";
  }

  // ----- spelling -----

  function SpellPath(path: seq<string>): Tokens {
    if path == [] then [] else [Sym("."), Word(path[0])] + SpellPath(path[1..])
  }

  function Spell(t: Ty): Tokens {
    match t
    case Name(path) => if path == [] then [] else [Word(path[0])] + SpellPath(path[1..])
    case Ptr(u) => [Sym("*")] + Spell(u)
    case Slice(u) => [Sym("["), Sym("]")] + Spell(u)
    case Vec(u) => [Word("Vec"), Sym("<")] + (Spell(u) + [Sym(">")])
    case Map(k, v) => [Word("Map"), Sym("<")] + (Spell(k) + ([Sym(",")] + (Spell(v) + [Sym(">")])))
  }

  /** A type name is not empty, and `owned` in front of a type is no part of it. */
  predicate Spellable(t: Ty) {
    match t
    case Name(path) => path != [] && path[0] != "owned"
    case Map(k, v) => Spellable(k) && Spellable(v)
    case Ptr(u) => Spellable(u)
    case Slice(u) => Spellable(u)
    case Vec(u) => Spellable(u)
  }

  /** Types whose spelling ends in a name; the others end in a `>`. */
  predicate NameEnded(t: Ty) {
    match t
    case Name(_) => true
    case Ptr(u) => NameEnded(u)
    case Slice(u) => NameEnded(u)
    case _ => false
  }

  /** Longest match inside a spelling: two adjacent `>` are lexed as one token. */
  function Lexed(ts: Tokens): Tokens {
    if ts == [] then []
    else if Is(ts, ">") && Is(ts[1..], ">") then [Sym(">>")] + Lexed(ts[2..])
    else [ts[0]] + Lexed(ts[1..])
  }

  /** The tokens with every `>>` taken apart. */
  function Flat(ts: Tokens): Tokens {
    if ts == [] then []
    else (if ts[0] == Sym(">>") then [Sym(">"), Sym(">")] else [ts[0]]) + Flat(ts[1..])
  }

  predicate Plain(ts: Tokens) { Sym(">>") !in ts }

  lemma LexedStep(ts: Tokens)
    requires ts != []
    ensures if Is(ts, ">") && Is(ts[1..], ">") then ts == [Sym(">"), Sym(">")] + ts[2..] && Lexed(ts) == [Sym(">>")] + Lexed(ts[2..])
            else Lexed(ts) == [ts[0]] + Lexed(ts[1..])
  {
  }

  lemma FlatStep(a: Token, ts: Tokens)
    ensures Flat([a] + ts) == (if a == Sym(">>") then [Sym(">"), Sym(">")] else [a]) + Flat(ts)
  {
    assert ([a] + ts)[1..] == ts;
  }

  lemma {:induction false} FlatLexed(ts: Tokens)
    requires Plain(ts)
    ensures Flat(Lexed(ts)) == ts
    decreases |ts|
  {
    if ts != [] {
      hide Lexed, Flat;
      LexedStep(ts);
      if Is(ts, ">") && Is(ts[1..], ">") {
        FlatLexed(ts[2..]);
        FlatStep(Sym(">>"), Lexed(ts[2..]));
      } else {
        FlatLexed(ts[1..]);
        FlatStep(ts[0], Lexed(ts[1..]));
        assert ts[0] in ts;
      }
    }
  }

  lemma SpellPlain(t: Ty)
    ensures Plain(Spell(t))
  {
    if t.Name? && t.path != [] { PathPlain(t.path[1..]); }
  }

  lemma PathPlain(path: seq<string>)
    ensures Plain(SpellPath(path))
  {
  }

  /** A token other than `>` at the front is there in both views. */
  lemma Peel(ts: Tokens)
    requires Flat(ts) != [] && Flat(ts)[0] != Sym(">")
    ensures ts != [] && ts[0] == Flat(ts)[0] && Flat(ts[1..]) == Flat(ts)[1..]
  {
  }

  /** Closing takes one `>` off the front, out of a `>>` if need be. */
  lemma Closes(ts: Tokens)
    requires Flat(ts) != [] && Flat(ts)[0] == Sym(">")
    ensures Close(ts).Some? && Flat(Close(ts).value) == Flat(ts)[1..]
  {
    if Is(ts, ">>") {
      var rest := [Sym(">")] + ts[1..];
      assert rest[1..] == ts[1..];
    }
  }

  lemma DottedStep(path: seq<string>, ts: Tokens)
    ensures !Is(ts, ".") ==> Dotted(path, ts) == Some((path, ts))
    ensures Is(ts, ".") && |ts| >= 2 && ts[1].Word? ==> Dotted(path, ts) == Dotted(path + [ts[1].s], ts[2..])
  {
  }

  lemma DottedReads(path: seq<string>, more: seq<string>, ts: Tokens, rest: Tokens)
    requires Flat(ts) == SpellPath(more) + rest && !Is(rest, ".")
    ensures var r := Dotted(path, ts); r.Some? && r.value.0 == path + more && Flat(r.value.1) == rest
    decreases |more|
  {
    hide Flat, Dotted;
    if more == [] {
      assert path + more == path;
      DottedStep(path, ts);
      if Is(ts, ".") { Peel2(ts); }
    } else {
      Peel(ts);
      Peel(ts[1..]);
      assert ts[1..][1..] == ts[2..];
      assert Flat(ts)[1..][1..] == SpellPath(more[1..]) + rest;
      DottedStep(path, ts);
      DottedReads(path + [more[0]], more[1..], ts[2..], rest);
      assert path + [more[0]] + more[1..] == path + more;
    }
  }

  lemma Peel2(ts: Tokens)
    requires ts != [] && ts[0] != Sym(">>")
    ensures Flat(ts) != [] && Flat(ts)[0] == ts[0]
  {
  }

  /** However the `>` are grouped, the type is read and exactly its tokens are used up. */
  lemma Reads(t: Ty, ts: Tokens, rest: Tokens)
    requires Spellable(t) && Flat(ts) == Spell(t) + rest && (NameEnded(t) ==> !Is(rest, ".") && !Is(rest, "<"))
    ensures var r := Typ(ts); r.Ok? && r.t == t && Flat(r.rest) == rest
    decreases t
  {
    hide Flat, Dotted;
    match t
    case Name(path) => ReadsName(path, ts, rest);
    case Ptr(u) =>
      Peel(ts);
      assert Flat(ts)[1..] == Spell(u) + rest;
      Reads(u, ts[1..], rest);
    case Slice(u) =>
      Peel(ts);
      Peel(ts[1..]);
      assert ts[1..][1..] == ts[2..] && Flat(ts)[1..][1..] == Spell(u) + rest;
      Reads(u, ts[2..], rest);
    case Vec(u) => ReadsVec(t, ts, rest);
    case Map(k, v) => ReadsMap(t, ts, rest);
  }

  lemma ReadsName(path: seq<string>, ts: Tokens, rest: Tokens)
    requires path != [] && path[0] != "owned"
    requires Flat(ts) == Spell(Name(path)) + rest && !Is(rest, ".") && !Is(rest, "<")
    ensures var r := Typ(ts); r.Ok? && r.t == Name(path) && Flat(r.rest) == rest
  {
    hide Flat, Dotted;
    Peel(ts);
    assert Flat(ts)[1..] == SpellPath(path[1..]) + rest;
    DottedReads([path[0]], path[1..], ts[1..], rest);
    assert [path[0]] + path[1..] == path;
    var after := Dotted([ts[0].s], ts[1..]).value.1;
    if Is(after, "<") { Peel2Flat(after); }
  }

  lemma Peel2Flat(ts: Tokens)
    requires Is(ts, "<")
    ensures Is(Flat(ts), "<")
  {
    Peel2(ts);
  }

  /** A parameterized name up to its `<`. */
  lemma Opens(name: string, ts: Tokens, rest: Tokens)
    requires Flat(ts) == [Word(name), Sym("<")] + rest
    ensures |ts| >= 2 && ts[0] == Word(name) && Is(ts[1..], "<") && Flat(ts[2..]) == rest
    ensures Dotted([name], ts[1..]) == Some(([name], ts[1..]))
  {
    hide Flat;
    Peel(ts);
    Peel(ts[1..]);
    assert ts[1..][1..] == ts[2..] && Flat(ts)[1..][1..] == rest;
  }

  lemma ReadsVec(t: Ty, ts: Tokens, rest: Tokens)
    requires t.Vec? && Spellable(t) && Flat(ts) == Spell(t) + rest
    ensures var r := Typ(ts); r.Ok? && r.t == t && Flat(r.rest) == rest
    decreases t, 0
  {
    hide Flat, Dotted, Close;
    var inner := Spell(t.t) + ([Sym(">")] + rest);
    assert Spell(t) + rest == [Word("Vec"), Sym("<")] + inner;
    Opens("Vec", ts, inner);
    Reads(t.t, ts[2..], [Sym(">")] + rest);
    assert ts[1..][1..] == ts[2..];
    Closes(Typ(ts[2..]).rest);
    assert ([Sym(">")] + rest)[1..] == rest;
  }

  lemma ReadsMap(t: Ty, ts: Tokens, rest: Tokens)
    requires t.Map? && Spellable(t) && Flat(ts) == Spell(t) + rest
    ensures var r := Typ(ts); r.Ok? && r.t == t && Flat(r.rest) == rest
    decreases t, 0
  {
    hide Flat, Dotted, Close;
    var tail := Spell(t.v) + ([Sym(">")] + rest);
    var inner := Spell(t.k) + ([Sym(",")] + tail);
    assert Spell(t) + rest == [Word("Map"), Sym("<")] + inner;
    Opens("Map", ts, inner);
    Reads(t.k, ts[2..], [Sym(",")] + tail);
    assert ts[1..][1..] == ts[2..];
    var k := Typ(ts[2..]);
    Peel(k.rest);
    assert ([Sym(",")] + tail)[1..] == tail;
    Reads(t.v, k.rest[1..], [Sym(">")] + rest);
    Closes(Typ(k.rest[1..]).rest);
    assert ([Sym(">")] + rest)[1..] == rest;
  }

  // ----- what is left over -----

  ghost predicate TailAt(r: Tokens, ts: Tokens, k: nat) {
    k <= |ts| && (r == ts[k..] || (k < |ts| && ts[k] == Sym(">>") && r == [Sym(">")] + ts[k + 1..]))
  }

  /** What is left is a tail of the tokens, its first possibly half of a `>>`. */
  ghost predicate Tail(r: Tokens, ts: Tokens) { exists k: nat :: TailAt(r, ts, k) }

  lemma TailThen(a: Tokens, b: Tokens, c: Tokens)
    requires Tail(a, b) && Tail(b, c)
    ensures Tail(a, c)
  {
    var k: nat :| TailAt(b, c, k);
    var j: nat :| TailAt(a, b, j);
    if b == c[k..] {
      TailShift(a, b, c, j, k);
    } else if j == 0 {
      assert a == b;
    } else {
      HalfShift(a, b, c, j, k);
    }
  }

  lemma TailShift(a: Tokens, b: Tokens, c: Tokens, j: nat, k: nat)
    requires TailAt(a, b, j) && k <= |c| && b == c[k..]
    ensures TailAt(a, c, k + j)
  {
    assert b[j..] == c[k + j..];
    if j < |b| { assert b[j + 1..] == c[k + j + 1..] && b[j] == c[k + j]; }
  }

  lemma HalfShift(a: Tokens, b: Tokens, c: Tokens, j: nat, k: nat)
    requires TailAt(a, b, j) && j > 0 && k < |c| && b == [Sym(">")] + c[k + 1..]
    ensures TailAt(a, c, k + j)
  {
    assert b[j..] == c[k + j..];
    if j < |b| { assert b[j + 1..] == c[k + j + 1..] && b[j] == c[k + j]; }
  }

  lemma TailDrop(ts: Tokens, k: nat)
    requires k <= |ts|
    ensures Tail(ts[k..], ts)
  {
    assert TailAt(ts[k..], ts, k);
  }

  lemma {:induction false} DottedTail(path: seq<string>, ts: Tokens)
    ensures var r := Dotted(path, ts); r.Some? ==> Tail(r.value.1, ts)
    decreases |ts|
  {
    hide Tail;
    TailDrop(ts, 0);
    if Is(ts, ".") && |ts| >= 2 && ts[1].Word? {
      DottedTail(path + [ts[1].s], ts[2..]);
      TailDrop(ts, 2);
      var r := Dotted(path + [ts[1].s], ts[2..]);
      if r.Some? { TailThen(r.value.1, ts[2..], ts); }
    }
  }

  lemma CloseTail(ts: Tokens)
    ensures Close(ts).Some? ==> Tail(Close(ts).value, ts)
  {
    if Is(ts, ">") { TailDrop(ts, 1); }
    if Is(ts, ">>") { assert TailAt([Sym(">")] + ts[1..], ts, 0); }
  }

  lemma TypTail(tokens: Tokens)
    ensures var r := Typ(tokens); r.Ok? ==> Tail(r.rest, tokens)
    decreases |tokens|, 0
  {
    hide Tail, Dotted, Close;
    var ts := if tokens != [] && tokens[0] == Word("owned") then tokens[1..] else tokens;
    TailDrop(tokens, 0);
    if tokens != [] { TailDrop(tokens, 1); }
    if Is(ts, "*") || Is(ts, "&") {
      InnerTail(ts, 1, ts[1..], tokens);
    } else if Is(ts, "[") {
      if Is(ts[1..], "]") { InnerTail(ts, 2, ts[2..], tokens); }
    } else if ts != [] && ts[0].Word? {
      var n := Dotted([ts[0].s], ts[1..]);
      if n.Some? {
        DottedTail([ts[0].s], ts[1..]);
        TailDrop(ts, 1);
        TailThen(n.value.1, ts[1..], ts);
        TailThen(n.value.1, ts, tokens);
        if Is(n.value.1, "<") { ListTail(n.value.0, n.value.1, tokens); }
      }
    }
  }

  lemma InnerTail(ts: Tokens, k: nat, inner: Tokens, tokens: Tokens)
    requires 0 < k <= |ts| <= |tokens| && inner == ts[k..] && Tail(ts, tokens)
    ensures Typ(inner).Ok? ==> Tail(Typ(inner).rest, tokens)
    decreases |inner|, 1
  {
    hide Tail, Typ;
    TypTail(inner);
    TailDrop(ts, k);
    if Typ(inner).Ok? {
      TailThen(Typ(inner).rest, inner, ts);
      TailThen(Typ(inner).rest, ts, tokens);
    }
  }

  /** The parameter list behind a `<`. */
  lemma ListTail(name: seq<string>, ts: Tokens, tokens: Tokens)
    requires Is(ts, "<") && Tail(ts, tokens) && |ts| <= |tokens|
    ensures var t := Typ(ts[1..]);
            t.Ok? ==>
              && (Close(t.rest).Some? ==> Tail(Close(t.rest).value, tokens))
              && (Is(t.rest, ",") ==>
                    var v := Typ(t.rest[1..]);
                    v.Ok? && Close(v.rest).Some? ==> Tail(Close(v.rest).value, tokens))
    decreases |ts|, 0
  {
    hide Tail, Typ, Close;
    InnerTail(ts, 1, ts[1..], tokens);
    var t := Typ(ts[1..]);
    if t.Ok? {
      CloseTail(t.rest);
      if Close(t.rest).Some? { TailThen(Close(t.rest).value, t.rest, tokens); }
      if Is(t.rest, ",") {
        InnerTail(t.rest, 1, t.rest[1..], tokens);
        var v := Typ(t.rest[1..]);
        if v.Ok? {
          CloseTail(v.rest);
          if Close(v.rest).Some? { TailThen(Close(v.rest).value, v.rest, tokens); }
        }
      }
    }
  }

  lemma {:induction false} FlatLength(ts: Tokens, k: nat)
    requires k <= |ts|
    ensures |Flat(ts[k..])| <= |Flat(ts)| && (k > 0 ==> |Flat(ts[k..])| < |Flat(ts)|)
    decreases k
  {
    if k > 0 {
      FlatLength(ts[1..], k - 1);
      assert ts[1..][k - 1..] == ts[k..];
    } else {
      assert ts[0..] == ts;
    }
  }

  lemma {:induction false} FlatPlus(a: Tokens, b: Tokens)
    ensures Flat(a + b) == Flat(a) + Flat(b)
    decreases |a|
  {
    if a == [] {
      assert a + b == b;
    } else {
      hide Flat;
      FlatPlus(a[1..], b);
      FlatStep(a[0], a[1..]);
      FlatStep(a[0], a[1..] + b);
      assert a == [a[0]] + a[1..] && a + b == [a[0]] + (a[1..] + b);
    }
  }

  lemma HalfFlat(ts: Tokens, k: nat)
    requires k < |ts| && ts[k] == Sym(">>")
    ensures Flat([Sym(">")] + ts[k + 1..]) == [Sym(">")] + Flat(ts[k + 1..])
    ensures |Flat(ts[k..])| == 2 + |Flat(ts[k + 1..])|
  {
    assert ([Sym(">")] + ts[k + 1..])[1..] == ts[k + 1..] && ts[k..][1..] == ts[k + 1..];
  }

  lemma LongTail(r: Tokens, ts: Tokens, k: nat, m: nat)
    requires TailAt(r, ts, k) && k < m <= |ts|
    ensures |Flat(r)| > |Flat(ts[m..])|
  {
    hide Flat;
    if r == ts[k..] {
      assert ts[k..][m - k..] == ts[m..];
      FlatLength(ts[k..], m - k);
    } else {
      HalfFlat(ts, k);
      assert ts[k + 1..][m - k - 1..] == ts[m..];
      FlatLength(ts[k + 1..], m - k - 1);
    }
  }

  lemma ShortTail(r: Tokens, ts: Tokens, k: nat, m: nat)
    requires TailAt(r, ts, k) && m <= k
    ensures |Flat(r)| <= |Flat(ts[m..])| && (m < k ==> |Flat(r)| < |Flat(ts[m..])|)
    ensures |Flat(r)| == |Flat(ts[m..])| ==> r == ts[m..]
  {
    hide Flat;
    assert ts[m..][k - m..] == ts[k..];
    FlatLength(ts[m..], k - m);
    if r != ts[k..] { HalfFlat(ts, k); }
  }

  /** What `a` was read from `a + b` leaves `b`. */
  lemma TailByFlat(r: Tokens, a: Tokens, b: Tokens)
    requires Tail(r, a + b) && Flat(r) == Flat(b)
    ensures r == b
  {
    hide Flat;
    var ts := a + b;
    var k: nat :| TailAt(r, ts, k);
    assert ts[|a|..] == b;
    if k < |a| { LongTail(r, ts, k, |a|); } else { ShortTail(r, ts, k, |a|); }
  }

  /** ... or half of the `>>` in front of `b`. */
  lemma HalfByFlat(r: Tokens, a: Tokens, b: Tokens)
    requires Tail(r, a + ([Sym(">>")] + b)) && Flat(r) == [Sym(">")] + Flat(b)
    ensures r == [Sym(">")] + b
  {
    hide Flat;
    var ts := a + ([Sym(">>")] + b);
    var k: nat :| TailAt(r, ts, k);
    assert ts[|a| + 1..] == b;
    HalfFlat(ts, |a|);
    if k < |a| { LongTail(r, ts, k, |a|); }
    if k > |a| { ShortTail(r, ts, k, |a| + 1); }
  }

  /** Reading a spelled type gives the type and leaves exactly the tokens behind it, however
      deep the lists are nested and whatever follows them; behind a name no `.` and no `<`
      may follow. */
  lemma TypeRoundTrip(t: Ty, us: Tokens)
    requires Spellable(t)
    ensures Typ(Lexed(Spell(t)) + us) == Ok(t, us) <==> (NameEnded(t) ==> !Is(us, ".") && !Is(us, "<"))
  {
    hide Typ, Lexed, Flat, Tail;
    var ts := Lexed(Spell(t)) + us;
    SpellPlain(t);
    FlatLexed(Spell(t));
    FlatPlus(Lexed(Spell(t)), us);
    if NameEnded(t) && (Is(us, ".") || Is(us, "<")) {
      NamedPlain(t);
      ReadsMore(t, us);
    } else {
      FlatHead(us);
      Reads(t, ts, Flat(us));
      TypTail(ts);
      TailByFlat(Typ(ts).rest, Lexed(Spell(t)), us);
    }
  }

  lemma FlatHead(us: Tokens)
    ensures Is(us, ".") <==> Is(Flat(us), ".")
    ensures Is(us, "<") <==> Is(Flat(us), "<")
  {
  }

  /** The same with the last `>` of the spelling and one more in a single token. */
  lemma HalfLeft(t: Ty, c: Tokens, us: Tokens)
    requires Spellable(t) && !NameEnded(t) && Spell(t) == c + [Sym(">")]
    ensures Typ(Lexed(c) + ([Sym(">>")] + us)) == Ok(t, [Sym(">")] + us)
  {
    hide Typ, Lexed, Flat, Tail, Spell;
    var ts := Lexed(c) + ([Sym(">>")] + us);
    SpellPlain(t);
    FlatLexed(c);
    FlatPlus(Lexed(c), [Sym(">>")] + us);
    FlatPair(us);
    assert Flat(ts) == Spell(t) + ([Sym(">")] + Flat(us));
    Reads(t, ts, [Sym(">")] + Flat(us));
    TypTail(ts);
    HalfByFlat(Typ(ts).rest, Lexed(c), us);
  }

  lemma FlatPair(us: Tokens)
    ensures Flat([Sym(">>")] + us) == [Sym(">"), Sym(">")] + Flat(us)
  {
    assert ([Sym(">>")] + us)[1..] == us;
  }

  /** Any other token in the place of the last `>` is an error. */
  lemma Unclosed(t: Ty, c: Tokens, ts: Tokens, rest: Tokens)
    requires Spellable(t) && !NameEnded(t) && Spell(t) == c + [Sym(">")]
    requires Flat(ts) == c + rest && rest != [] && rest[0] !in {Sym(">"), Sym("."), Sym("<")}
    ensures Typ(ts) == Fail
    decreases t
  {
    hide Flat, Dotted, Close;
    match t
    case Ptr(u) =>
      Shorter(t, c, 1);
      Peel(ts);
      assert Flat(ts)[1..] == c[1..] + rest;
      Unclosed(u, c[1..], ts[1..], rest);
    case Slice(u) =>
      Shorter(t, c, 2);
      Peel(ts);
      Peel(ts[1..]);
      assert ts[1..][1..] == ts[2..] && Flat(ts)[1..][1..] == c[2..] + rest;
      Unclosed(u, c[2..], ts[2..], rest);
    case Vec(_) => UnclosedVec(t, c, ts, rest);
    case Map(_, _) => UnclosedMap(t, c, ts, rest);
  }

  lemma UnclosedVec(t: Ty, c: Tokens, ts: Tokens, rest: Tokens)
    requires Spellable(t) && t.Vec? && Spell(t) == c + [Sym(">")]
    requires Flat(ts) == c + rest && rest != [] && rest[0] !in {Sym(">"), Sym("."), Sym("<")}
    ensures Typ(ts) == Fail
  {
    hide Flat, Dotted, Close;
    assert Spell(t)[..|c|] == [Word("Vec"), Sym("<")] + Spell(t.t);
    assert Flat(ts) == [Word("Vec"), Sym("<")] + (Spell(t.t) + rest);
    Opens("Vec", ts, Spell(t.t) + rest);
    Reads(t.t, ts[2..], rest);
    assert ts[1..][1..] == ts[2..];
    NotClosed(Typ(ts[2..]).rest);
  }

  lemma UnclosedMap(t: Ty, c: Tokens, ts: Tokens, rest: Tokens)
    requires Spellable(t) && t.Map? && Spell(t) == c + [Sym(">")]
    requires Flat(ts) == c + rest && rest != [] && rest[0] !in {Sym(">"), Sym("."), Sym("<")}
    ensures Typ(ts) == Fail
  {
    hide Flat, Dotted, Close;
    var tail := Spell(t.v) + rest;
    assert Spell(t)[..|c|] == [Word("Map"), Sym("<")] + (Spell(t.k) + ([Sym(",")] + Spell(t.v)));
    assert Flat(ts) == [Word("Map"), Sym("<")] + (Spell(t.k) + ([Sym(",")] + tail));
    Opens("Map", ts, Spell(t.k) + ([Sym(",")] + tail));
    Reads(t.k, ts[2..], [Sym(",")] + tail);
    assert ts[1..][1..] == ts[2..];
    var r := Typ(ts[2..]);
    Peel(r.rest);
    assert ([Sym(",")] + tail)[1..] == tail;
    Reads(t.v, r.rest[1..], rest);
    NotClosed(Typ(r.rest[1..]).rest);
  }

  /** A pointer or slice in front of the spelling without its last `>`. */
  lemma Shorter(t: Ty, c: Tokens, n: nat)
    requires Spellable(t) && ((t.Ptr? && n == 1) || (t.Slice? && n == 2))
    requires !NameEnded(t) && Spell(t) == c + [Sym(">")]
    ensures |c| >= n && Spell(t.t) == c[n..] + [Sym(">")] && c[..n] == Spell(t)[..n]
  {
    SpellSome(t.t);
    assert Spell(t)[n..] == Spell(t.t);
  }

  lemma SpellSome(t: Ty)
    requires Spellable(t)
    ensures Spell(t) != []
  {
  }

  lemma NotClosed(ts: Tokens)
    requires Flat(ts) != [] && Flat(ts)[0] != Sym(">")
    ensures Close(ts) == None
  {
  }

  // ----- names read on -----

  lemma {:induction false} NamedPlain(t: Ty)
    requires NameEnded(t)
    ensures Lexed(Spell(t)) == Spell(t)
  {
    match t
    case Name(path) => if path != [] { PathAlone(path[1..]); }
    case Ptr(u) => NamedPlain(u);
    case Slice(u) =>
      NamedPlain(u);
      assert Spell(t)[1..][1..] == Spell(u) && Spell(t)[1..] == [Sym("]")] + Spell(u);
  }

  lemma {:induction false} PathAlone(path: seq<string>)
    ensures Lexed(SpellPath(path)) == SpellPath(path)
  {
    if path != [] {
      PathAlone(path[1..]);
      assert SpellPath(path)[1..][1..] == SpellPath(path[1..]);
    }
  }

  lemma {:induction false} DottedMore(path: seq<string>, more: seq<string>, us: Tokens)
    ensures Dotted(path, SpellPath(more) + us) == Dotted(path + more, us)
    decreases |more|
  {
    hide Dotted;
    if more == [] {
      assert path + more == path && SpellPath(more) + us == us;
    } else {
      var ts := SpellPath(more) + us;
      assert ts[2..] == SpellPath(more[1..]) + us;
      DottedStep(path, ts);
      DottedMore(path + [more[0]], more[1..], us);
      assert path + [more[0]] + more[1..] == path + more;
    }
  }

  lemma {:induction false} DottedLonger(path: seq<string>, us: Tokens)
    ensures var r := Dotted(path, us);
            r.Some? ==> |r.value.0| >= |path| && r.value.0[..|path|] == path && (Is(us, ".") ==> |r.value.0| > |path|)
    decreases |us|
  {
    if Is(us, ".") && |us| >= 2 && us[1].Word? {
      DottedLonger(path + [us[1].s], us[2..]);
      var r := Dotted(path + [us[1].s], us[2..]);
      if r.Some? { assert r.value.0[..|path|] == r.value.0[..|path| + 1][..|path|] == path; }
    }
  }

  /** A name is read together with what continues it. */
  lemma NameMore(q: seq<string>, us: Tokens)
    requires q != [] && q[0] != "owned"
    ensures var r := Typ(Spell(Name(q)) + us);
            r.Ok? && r.t.Name? ==> |r.t.path| >= |q| && r.t.path[..|q|] == q && (Is(us, ".") ==> |r.t.path| > |q|)
    ensures var r := Typ(Spell(Name(q)) + us); r.Ok? && Is(us, "<") ==> r.t.Vec? || r.t.Map?
    ensures var r := Typ(Spell(Name(q)) + us); r.Ok? ==> !r.t.Ptr? && !r.t.Slice?
  {
    hide Dotted, Typ;
    var ts := Spell(Name(q)) + us;
    assert ts[0] == Word(q[0]) && ts[1..] == SpellPath(q[1..]) + us;
    NamedOnly(ts);
    DottedMore([q[0]], q[1..], us);
    assert [q[0]] + q[1..] == q;
    DottedLonger(q, us);
    DottedStep(q, us);
  }

  lemma NamedOnly(ts: Tokens)
    requires ts != [] && ts[0].Word? && ts[0].s != "owned"
    ensures Typ(ts) == NamedTyp(ts)
  {
    hide NamedTyp;
  }

  /** Two types with the same pointers and slices in front of names as long as each other. */
  predicate Alike(t: Ty, q: Ty) {
    match (t, q)
    case (Name(p), Name(o)) => |p| == |o|
    case (Ptr(u), Ptr(v)) => Alike(u, v)
    case (Slice(u), Slice(v)) => Alike(u, v)
    case _ => false
  }

  /** Neither another name nor a name that goes on is read as the type. */
  lemma {:induction false} ReadsOther(t: Ty, q: Ty, us: Tokens)
    requires NameEnded(q) && Spellable(q) && Alike(t, q)
    requires t != q || Is(us, ".") || Is(us, "<")
    ensures var r := Typ(Spell(q) + us); r.Ok? ==> r.t != t
  {
    hide Typ, Dotted;
    match q
    case Name(o) =>
      NameOther(t.path, o, us);
    case Ptr(v) =>
      hide Spell;
      ReadsOther(t.t, v, us);
      SpellPtr(v, us);
      Prefixed(Spell(q) + us);
    case Slice(v) =>
      hide Spell;
      ReadsOther(t.t, v, us);
      SpellSlice(v, us);
      Prefixed(Spell(q) + us);
  }

  lemma NameOther(p: seq<string>, o: seq<string>, us: Tokens)
    requires o != [] && o[0] != "owned" && |p| == |o|
    requires p != o || Is(us, ".") || Is(us, "<")
    ensures var r := Typ(Spell(Name(o)) + us); r.Ok? ==> r.t != Name(p)
  {
    hide Typ, Dotted, Spell;
    NameMore(o, us);
    assert p[..|o|] == p;
  }

  lemma SpellPtr(v: Ty, us: Tokens)
    ensures Is(Spell(Ptr(v)) + us, "*") && (Spell(Ptr(v)) + us)[1..] == Spell(v) + us
  {
  }

  lemma SpellSlice(v: Ty, us: Tokens)
    ensures Is(Spell(Slice(v)) + us, "[") && (Spell(Slice(v)) + us)[2..] == Spell(v) + us
  {
  }

  lemma Prefixed(ts: Tokens)
    ensures Is(ts, "*") && Typ(ts).Ok? ==> Typ(ts[1..]).Ok? && Typ(ts).t == Ptr(Typ(ts[1..]).t)
    ensures Is(ts, "[") && Typ(ts).Ok? ==> |ts| >= 2 && Typ(ts[2..]).Ok? && Typ(ts).t == Slice(Typ(ts[2..]).t)
  {
    if Is(ts, "[") && |ts| >= 2 { assert ts[1..][1..] == ts[2..]; }
  }

  lemma {:induction false} ReadsMore(t: Ty, us: Tokens)
    requires NameEnded(t) && Spellable(t) && (Is(us, ".") || Is(us, "<"))
    ensures Typ(Spell(t) + us) != Ok(t, us)
  {
    hide Typ;
    AlikeItself(t);
    ReadsOther(t, t, us);
  }

  lemma AlikeItself(t: Ty)
    requires NameEnded(t)
    ensures Alike(t, t)
  {
  }

  // ----- as it runs -----

  /** The type part of the parser: it rewrites a `>>` in its own token array. */
  class TypeReader {
    const tokens: array<Token>
    var pos: nat

    ghost predicate Valid()
      reads this
    {
      pos <= tokens.Length
    }

    ghost function Rest(): Tokens
      requires Valid()
      reads this, tokens
    {
      tokens[pos..]
    }

    constructor (tokens: array<Token>)
      ensures Valid() && this.tokens == tokens && pos == 0
    {
      this.tokens, pos := tokens, 0;
    }

    method Take(s: string) returns (taken: bool)
      requires Valid()
      modifies this`pos
      ensures Valid() && taken == old(Is(Rest(), s)) && pos == if taken then old(pos) + 1 else old(pos)
      ensures Rest() == if taken then old(Rest())[1..] else old(Rest())
    {
      taken := pos < tokens.Length && tokens[pos] == Sym(s);
      if taken { pos := pos + 1; }
    }

    method Gt() returns (ok: bool)
      requires Valid()
      modifies this`pos, tokens
      ensures Valid() && pos >= old(pos)
      ensures match Close(old(Rest())) case None => !ok case Some(rest) => ok && Rest() == rest
    {
      var one := Take(">");
      if one { return true; }
      ok := pos < tokens.Length && tokens[pos] == Sym(">>");
      if ok { tokens[pos] := Sym(">"); }
    }

    method ReadType() returns (r: Option<Ty>)
      requires Valid()
      modifies this`pos, tokens
      ensures Valid() && pos >= old(pos)
      ensures match Typ(old(Rest())) case Fail => r.None? case Ok(t, rest) => r == Some(t) && Rest() == rest && pos > old(pos)
      decreases tokens.Length - pos, 1
    {
      hide NamedTyp;
      if pos < tokens.Length && tokens[pos] == Word("owned") { pos := pos + 1; }
      ghost var ts := Rest();
      var star := Take("*");
      if !star { star := Take("&"); }
      if star {
        r := ReadType();
        if r.Some? { r := Some(Ptr(r.value)); }
        return;
      }
      var bracket := Take("[");
      if bracket {
        var closed := Take("]");
        if !closed { return None; }
        assert ts[1..][1..] == ts[2..];
        r := ReadType();
        if r.Some? { r := Some(Slice(r.value)); }
        return;
      }
      r := ReadNamed();
    }

    method Dots(first: seq<string>) returns (path: Option<seq<string>>)
      requires Valid()
      modifies this`pos
      ensures Valid() && pos >= old(pos)
      ensures match Dotted(first, old(Rest())) case None => path.None? case Some(p) => path == Some(p.0) && Rest() == p.1
    {
      var n := first;
      while true
        invariant Valid() && pos >= old(pos)
        invariant Dotted(n, Rest()) == Dotted(first, old(Rest()))
        decreases tokens.Length - pos
      {
        ghost var here := Rest();
        var dot := Take(".");
        if !dot { return Some(n); }
        if pos == tokens.Length || !tokens[pos].Word? { return None; }
        n := n + [tokens[pos].s];
        pos := pos + 1;
        assert Rest() == here[2..];
      }
    }

    method ReadNamed() returns (r: Option<Ty>)
      requires Valid()
      modifies this`pos, tokens
      ensures Valid() && pos >= old(pos)
      ensures match NamedTyp(old(Rest())) case Fail => r.None? case Ok(t, rest) => r == Some(t) && Rest() == rest && pos > old(pos)
      decreases tokens.Length - pos, 0
    {
      hide Typ, Dotted, Close;
      if pos == tokens.Length || !tokens[pos].Word? { return None; }
      pos := pos + 1;
      var n := Dots([tokens[pos - 1].s]);
      if n.None? { return None; }
      var list := Take("<");
      if !list { return Some(Name(n.value)); }
      var t := ReadType();
      if t.None? { return None; }
      if n.value == ["Vec"] {
        var closed := Gt();
        return if closed then Some(Vec(t.value)) else None;
      }
      var comma := Take(",");
      if !comma { return None; }
      var v := ReadType();
      if v.None? { return None; }
      var closed := Gt();
      r := if closed then Some(Map(t.value, v.value)) else None;
    }
  }
}
