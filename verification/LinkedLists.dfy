/** The intrusive doubly linked lists of the runtime. Headers are threaded on three kinds
    of list with the same two moves, push at the front and unlink (yc_runtime.c:242-270,
    328-383): all allocations, the allocations of one frame, the children of one owner.
    Address 0 is the null pointer. */
module LinkedLists {

  datatype Link = Link(prev: nat, next: nat)

  type Links = map<nat, Link>

  ghost predicate Unique(s: seq<nat>) { forall i, j :: 0 <= i < j < |s| ==> s[i] != s[j] }

  /** The links the i-th member of a list must carry. */
  function LinkAt(s: seq<nat>, i: nat): Link
    requires i < |s|
  {
    Link(if i == 0 then 0 else s[i - 1], if i + 1 < |s| then s[i + 1] else 0)
  }

  /** `head` starts a list whose members, in order, are `s`. */
  ghost predicate IsList(links: Links, head: nat, s: seq<nat>) {
    && head == (if s == [] then 0 else s[0])
    && Unique(s) && 0 !in s
    && forall i :: 0 <= i < |s| ==> s[i] in links && links[s[i]] == LinkAt(s, i)
  }

  function SetPrev(links: Links, at: nat, p: nat): Links {
    if at != 0 && at in links then links[at := links[at].(prev := p)] else links
  }

  function SetNext(links: Links, at: nat, n: nat): Links {
    if at != 0 && at in links then links[at := links[at].(next := n)] else links
  }

  /** Push `x` at the front: its own links first, then the old head's back link. */
  function Pushed(links: Links, head: nat, x: nat): Links {
    SetPrev(links[x := Link(0, head)], head, x)
  }

  /** Take `x` out: both neighbours are joined and its own links cleared. */
  function Unlinked(links: Links, x: nat): Links
    requires x in links
  {
    var l := links[x];
    SetPrev(SetNext(links, l.prev, l.next), l.next, l.prev)[x := Link(0, 0)]
  }

  function HeadAfter(links: Links, head: nat, x: nat): nat
    requires x in links
  {
    if links[x].prev == 0 && head == x then links[x].next else head
  }

  function Cut(s: seq<nat>, i: nat): seq<nat>
    requires i < |s|
  {
    s[..i] + s[i + 1..]
  }

  lemma PushIsList(links: Links, head: nat, s: seq<nat>, x: nat)
    requires IsList(links, head, s) && x != 0 && x !in s
    ensures IsList(Pushed(links, head, x), x, [x] + s)
  {
    var links' := Pushed(links, head, x);
    var s' := [x] + s;
    forall i | 0 <= i < |s'|
      ensures s'[i] in links' && links'[s'[i]] == LinkAt(s', i)
    {
      if i > 0 {
        assert s'[i] == s[i - 1] && s[i - 1] in links;
        assert links[s[i - 1]] == LinkAt(s, i - 1);
      }
    }
  }

  /** What unlinking `x` leaves in the links of another header. */
  lemma UnlinkedElsewhere(links: Links, x: nat, y: nat)
    requires x in links && y in links && y != x && y != 0
    ensures y in Unlinked(links, x)
    ensures Unlinked(links, x)[y]
         == Link(if y == links[x].next then links[x].prev else links[y].prev,
                 if y == links[x].prev then links[x].next else links[y].next)
  {
  }

  lemma CutUnique(s: seq<nat>, k: nat)
    requires k < |s| && Unique(s)
    ensures Unique(Cut(s, k)) && s[k] !in Cut(s, k)
  {
  }

  lemma UnlinkIsList(links: Links, head: nat, s: seq<nat>, k: nat)
    requires IsList(links, head, s) && k < |s|
    ensures IsList(Unlinked(links, s[k]), HeadAfter(links, head, s[k]), Cut(s, k))
    ensures s[k] in Unlinked(links, s[k]) && Unlinked(links, s[k])[s[k]] == Link(0, 0)
  {
    var x := s[k];
    var links' := Unlinked(links, x);
    var s' := Cut(s, k);
    assert links[x] == LinkAt(s, k);
    CutUnique(s, k);
    forall i | 0 <= i < |s'|
      ensures s'[i] in links' && links'[s'[i]] == LinkAt(s', i)
    {
      UnlinkedMember(links, head, s, k, i);
    }
  }

  lemma UnlinkedMember(links: Links, head: nat, s: seq<nat>, k: nat, i: nat)
    requires IsList(links, head, s) && k < |s| && i < |s| - 1
    ensures var s', links' := Cut(s, k), Unlinked(links, s[k]);
            s'[i] in links' && links'[s'[i]] == LinkAt(s', i)
  {
    var j := if i < k then i else i + 1;
    assert links[s[k]] == LinkAt(s, k) && links[s[j]] == LinkAt(s, j);
    assert Cut(s, k)[i] == s[j] && s[j] != s[k] && s[j] != 0;
    UnlinkedElsewhere(links, s[k], s[j]);
    assert s[j] == links[s[k]].next <==> j == k + 1;
    assert s[j] == links[s[k]].prev <==> j + 1 == k;
  }

  /** A list only depends on the links of its members. */
  lemma ListFrame(links: Links, links': Links, head: nat, s: seq<nat>)
    requires IsList(links, head, s)
    requires forall x <- s :: x in links' && links'[x] == links[x]
    ensures IsList(links', head, s)
  {
  }

  lemma NextOnList(links: Links, head: nat, s: seq<nat>, i: nat)
    requires IsList(links, head, s)
    ensures head == if |s| > 0 then s[0] else 0
    ensures i < |s| ==>
              s[i] != 0 && s[i] in links && links[s[i]].next == (if i + 1 < |s| then s[i + 1] else 0)
  {
    assert i < |s| ==> s[i] in s;
  }

  // ----- families of lists -----

  /** One list per key; a header is on the list of its key and on no other. */
  ghost predicate Family(links: Links, heads: map<nat, nat>, lists: map<nat, seq<nat>>, key: map<nat, nat>) {
    && lists.Keys == heads.Keys
    && (forall k <- heads :: IsList(links, heads[k], lists[k]))
    && (forall k, x | k in lists :: x in lists[k] <==> x in key && key[x] == k)
  }

  lemma FamilyPush(links: Links, heads: map<nat, nat>, lists: map<nat, seq<nat>>, key: map<nat, nat>, k: nat, x: nat)
    requires Family(links, heads, lists, key)
    requires k in heads && x != 0 && (x in key ==> key[x] !in heads)
    ensures Family(Pushed(links, heads[k], x), heads[k := x], lists[k := [x] + lists[k]], key[x := k])
  {
    hide Pushed, IsList;
    forall j <- heads
      ensures if j == k then IsList(Pushed(links, heads[k], x), x, [x] + lists[k])
              else IsList(Pushed(links, heads[k], x), heads[j], lists[j])
    {
      PushOne(links, heads, lists, key, k, x, j);
    }
  }

  /** What a push does to one list. */
  lemma PushOne(links: Links, heads: map<nat, nat>, lists: map<nat, seq<nat>>, key: map<nat, nat>, k: nat, x: nat, j: nat)
    requires Family(links, heads, lists, key)
    requires k in heads && x != 0 && (x in key ==> key[x] !in heads) && j in heads
    ensures if j == k then IsList(Pushed(links, heads[k], x), x, [x] + lists[k])
            else IsList(Pushed(links, heads[k], x), heads[j], lists[j])
  {
    hide Pushed, IsList;
    if j == k {
      assert x !in lists[k];
      PushIsList(links, heads[k], lists[k], x);
    } else {
      HeadIsMember(links, heads[k], lists[k]);
      forall y <- lists[j]
        ensures y in links && y in Pushed(links, heads[k], x) && Pushed(links, heads[k], x)[y] == links[y]
      {
        assert y in key && key[y] == j && y != x;
        assert y !in lists[k];
        NeighboursAreMembers(links, heads[j], lists[j], y);
        PushedElsewhere(links, heads[k], x, y);
      }
      ListFrame(links, Pushed(links, heads[k], x), heads[j], lists[j]);
    }
  }

  /** A push touches the new header and the old head only. */
  lemma PushedElsewhere(links: Links, head: nat, x: nat, y: nat)
    requires y in links && y != x && y != head
    ensures y in Pushed(links, head, x) && Pushed(links, head, x)[y] == links[y]
  {
  }

  lemma HeadIsMember(links: Links, head: nat, s: seq<nat>)
    requires IsList(links, head, s)
    ensures head == 0 <==> s == []
    ensures head != 0 ==> head in s
  {
  }

  lemma NeighboursAreMembers(links: Links, head: nat, s: seq<nat>, x: nat)
    requires IsList(links, head, s) && x in s
    ensures x in links && x != 0
    ensures links[x].prev != 0 ==> links[x].prev in s
    ensures links[x].next != 0 ==> links[x].next in s
  {
    var i :| 0 <= i < |s| && s[i] == x;
    assert links[s[i]] == LinkAt(s, i);
  }

  /** The key of `x` changed, or `x` lost its key; nothing else did. */
  ghost predicate SameKeysBut(key: map<nat, nat>, key': map<nat, nat>, x: nat) {
    forall y :: y != x ==> (y in key' <==> y in key) && (y in key ==> key'[y] == key[y])
  }

  lemma FamilyUnlink(links: Links, heads: map<nat, nat>, lists: map<nat, seq<nat>>, key: map<nat, nat>, x: nat, key': map<nat, nat>)
    returns (k: nat, i: nat)
    requires Family(links, heads, lists, key)
    requires x in key && key[x] in heads
    requires SameKeysBut(key, key', x) && (x in key' ==> key'[x] !in heads)
    ensures k == key[x] && i < |lists[k]| && lists[k][i] == x && x in links
    ensures Family(Unlinked(links, x), heads[k := HeadAfter(links, heads[k], x)], lists[k := Cut(lists[k], i)], key')
  {
    hide Unlinked, IsList, Cut, HeadAfter;
    k := key[x];
    var s := lists[k];
    i :| 0 <= i < |s| && s[i] == x;
    NeighboursAreMembers(links, heads[k], s, x);
    CutMembers(links, heads[k], s, i);
    forall j <- heads
      ensures IsList(Unlinked(links, x), heads[k := HeadAfter(links, heads[k], x)][j], lists[k := Cut(s, i)][j])
    {
      UnlinkOne(links, heads, lists, key, x, i, j);
    }
  }

  lemma UnlinkOne(links: Links, heads: map<nat, nat>, lists: map<nat, seq<nat>>, key: map<nat, nat>, x: nat, i: nat, j: nat)
    requires Family(links, heads, lists, key)
    requires x in key && key[x] in heads && i < |lists[key[x]]| && lists[key[x]][i] == x
    requires j in heads
    ensures x in links
    ensures if j == key[x] then IsList(Unlinked(links, x), HeadAfter(links, heads[j], x), Cut(lists[j], i))
            else IsList(Unlinked(links, x), heads[j], lists[j])
  {
    hide Unlinked, IsList, Cut, HeadAfter;
    var k := key[x];
    NeighboursAreMembers(links, heads[k], lists[k], x);
    if j == k {
      UnlinkIsList(links, heads[k], lists[k], i);
    } else {
      forall y <- lists[j]
        ensures y in links && y in Unlinked(links, x) && Unlinked(links, x)[y] == links[y]
      {
        assert y in key && key[y] == j;
        assert y !in lists[k];
        NeighboursAreMembers(links, heads[j], lists[j], y);
        UnlinkedElsewhere(links, x, y);
      }
      ListFrame(links, Unlinked(links, x), heads[j], lists[j]);
    }
  }

  lemma CutMembers(links: Links, head: nat, s: seq<nat>, i: nat)
    requires IsList(links, head, s) && i < |s|
    ensures forall y :: y in Cut(s, i) <==> y in s && y != s[i]
  {
    forall y
      ensures y in Cut(s, i) <==> y in s && y != s[i]
    {
      if y in s && y != s[i] {
        var j :| 0 <= j < |s| && s[j] == y;
        assert y in s[..i] || y in s[i + 1..] by {
          if j < i { assert s[..i][j] == y; } else { assert s[i + 1..][j - i - 1] == y; }
        }
      }
    }
  }

  /** A key with an empty list, whose header is on no list itself, can go. */
  lemma FamilyDrop(links: Links, heads: map<nat, nat>, lists: map<nat, seq<nat>>, key: map<nat, nat>, k: nat)
    requires Family(links, heads, lists, key)
    requires k in heads && heads[k] == 0 && (k in key ==> key[k] !in heads)
    ensures Family(links, heads - {k}, lists - {k}, key - {k})
  {
    hide IsList;
    HeadIsMember(links, heads[k], lists[k]);
  }

  /** A new key starts with an empty list. */
  lemma FamilyAdd(links: Links, heads: map<nat, nat>, lists: map<nat, seq<nat>>, key: map<nat, nat>, k: nat, v: nat)
    requires Family(links, heads, lists, key)
    requires k !in heads && k !in key && (forall x <- key :: key[x] != k)
    requires v != k && v !in heads
    ensures Family(links, heads[k := 0], lists[k := []], key[k := v])
  {
    assert IsList(links, 0, []);
  }

  lemma NotListed(links: Links, heads: map<nat, nat>, lists: map<nat, seq<nat>>, key: map<nat, nat>, x: nat, j: nat)
    requires Family(links, heads, lists, key) && (x in key ==> key[x] !in heads) && j in heads
    ensures j in lists && x !in lists[j]
  {
    hide IsList;
  }

  lemma OneListFrame(links: Links, head: nat, s: seq<nat>, x: nat, l: Link)
    requires IsList(links, head, s) && x !in s
    ensures IsList(links[x := l], head, s)
  {
    ListFrame(links, links[x := l], head, s);
  }

  /** Giving links to a header that is on no list disturbs none. */
  lemma FamilyFrame(links: Links, heads: map<nat, nat>, lists: map<nat, seq<nat>>, key: map<nat, nat>, x: nat, l: Link)
    requires Family(links, heads, lists, key) && (x in key ==> key[x] !in heads)
    ensures Family(links[x := l], heads, lists, key)
  {
    hide IsList;
    forall j <- heads
      ensures IsList(links[x := l], heads[j], lists[j])
    {
      NotListed(links, heads, lists, key, x, j);
      OneListFrame(links, heads[j], lists[j], x, l);
    }
  }

  lemma {:induction false} UniqueCount(s: seq<nat>, members: set<nat>)
    requires Unique(s) && forall x :: x in s <==> x in members
    ensures |s| == |members|
  {
    if s != [] {
      var n := |s| - 1;
      assert s == s[..n] + [s[n]];
      UniqueCount(s[..n], members - {s[n]});
    }
  }

  // ----- taking many out -----

  /** The members that are left, in their order. */
  function Minus(s: seq<nat>, dead: set<nat>): seq<nat> {
    if s == [] then [] else (if s[0] in dead then [] else [s[0]]) + Minus(s[1..], dead)
  }

  lemma {:induction false} MinusTwice(s: seq<nat>, a: set<nat>, b: set<nat>)
    ensures Minus(Minus(s, a), b) == Minus(s, a + b)
    decreases |s|
  {
    if s != [] {
      MinusTwice(s[1..], a, b);
      if s[0] in a {
        assert Minus(s, a) == Minus(s[1..], a);
      } else {
        assert Minus(s, a)[1..] == Minus(s[1..], a);
      }
    }
  }

  lemma {:induction false} MinusNone(s: seq<nat>, dead: set<nat>)
    requires forall x <- s :: x !in dead
    ensures Minus(s, dead) == s
    decreases |s|
  {
    if s != [] {
      assert s[0] in s;
      MinusNone(s[1..], dead);
    }
  }

  lemma {:induction false} MinusAll(s: seq<nat>, dead: set<nat>)
    requires forall x <- s :: x in dead
    ensures Minus(s, dead) == []
    decreases |s|
  {
    if s != [] {
      assert s[0] in s;
      MinusAll(s[1..], dead);
    }
  }

  /** Without one member, a list is cut at its place. */
  lemma {:induction false} MinusOne(s: seq<nat>, i: nat)
    requires Unique(s) && i < |s|
    ensures Minus(s, {s[i]}) == Cut(s, i)
    decreases |s|
  {
    assert forall j :: 0 < j < |s| ==> s[1..][j - 1] == s[j];
    if i == 0 {
      MinusNone(s[1..], {s[0]});
    } else {
      MinusOne(s[1..], i - 1);
    }
  }

  /** The same for every list of a family. */
  function MinusEach(lists: map<nat, seq<nat>>, dead: set<nat>): map<nat, seq<nat>> {
    map k | k in lists :: Minus(lists[k], dead)
  }

  lemma MinusEachTwice(lists: map<nat, seq<nat>>, a: set<nat>, b: set<nat>)
    ensures MinusEach(MinusEach(lists, a), b) == MinusEach(lists, a + b)
  {
    forall k <- lists
      ensures Minus(Minus(lists[k], a), b) == Minus(lists[k], a + b)
    {
      MinusTwice(lists[k], a, b);
    }
  }

  /** A header is on the list of its key alone, once. */
  lemma FamilyCut(links: Links, heads: map<nat, nat>, lists: map<nat, seq<nat>>, key: map<nat, nat>, x: nat)
    requires Family(links, heads, lists, key)
    ensures !(x in key && key[x] in heads) ==> MinusEach(lists, {x}) == lists
    ensures x in key && key[x] in heads ==> key[x] in lists
    ensures forall i: nat :: x in key && key[x] in heads && i < |lists[key[x]]| && lists[key[x]][i] == x ==>
              MinusEach(lists, {x}) == lists[key[x] := Cut(lists[key[x]], i)]
  {
    forall k <- lists | x !in lists[k]
      ensures Minus(lists[k], {x}) == lists[k]
    {
      MinusNone(lists[k], {x});
    }
    forall i: nat | x in key && key[x] in heads && i < |lists[key[x]]| && lists[key[x]][i] == x
      ensures MinusEach(lists, {x}) == lists[key[x] := Cut(lists[key[x]], i)]
    {
      MinusOne(lists[key[x]], i);
    }
  }

  lemma CutIsMinus(links: Links, head: nat, s: seq<nat>, i: nat)
    requires IsList(links, head, s) && i < |s|
    ensures Cut(s, i) == Minus(s, {s[i]})
  {
    MinusOne(s, i);
  }
}
