/** The ownership forest over live headers: each header has one owner, or 0 for a root
    (yc_runtime.c:32-35, 312-356). Everything the runtime frees or moves is a whole
    subtree of it. */
module Ownership {

  type Owners = map<nat, nat>

  /** Owners are live and 0 is no header. */
  ghost predicate Closed(owner: Owners) {
    0 !in owner && forall c <- owner :: owner[c] != 0 ==> owner[c] in owner
  }

  /** A rank that grows from owner to child rules out cycles. */
  ghost predicate Ranked(owner: Owners, rank: map<nat, nat>) {
    && owner.Keys <= rank.Keys
    && forall c <- owner :: owner[c] in owner ==> rank[owner[c]] < rank[c]
  }

  ghost predicate Acyclic(owner: Owners) { exists rank :: Ranked(owner, rank) }

  ghost predicate Forest(owner: Owners) { Closed(owner) && Acyclic(owner) }

  /** The k-th owner above `x`; 0 past a root. */
  function Up(owner: Owners, x: nat, k: nat): nat
    decreases k
  {
    if k == 0 then x else if x in owner then Up(owner, owner[x], k - 1) else 0
  }

  /** `a` is `x` itself or one of its owners, at any height. */
  ghost predicate Under(owner: Owners, x: nat, a: nat) {
    a != 0 && exists k :: Up(owner, x, k) == a
  }

  /** A header with everything it owns, directly or not. */
  ghost function Sub(owner: Owners, h: nat): set<nat> {
    set x | x in owner && Under(owner, x, h)
  }

  // ----- walking up -----

  lemma UnderSelf(owner: Owners, x: nat)
    requires x != 0
    ensures Under(owner, x, x)
  {
    assert Up(owner, x, 0) == x;
  }

  lemma UnderOwner(owner: Owners, x: nat)
    requires x in owner && owner[x] != 0
    ensures Under(owner, x, owner[x])
  {
    assert Up(owner, x, 1) == Up(owner, owner[x], 0);
  }

  lemma UnderStep(owner: Owners, x: nat, a: nat)
    requires x in owner && x != a
    ensures Under(owner, x, a) <==> Under(owner, owner[x], a)
  {
    if Under(owner, x, a) {
      var k: nat :| Up(owner, x, k) == a;
      assert Up(owner, owner[x], k - 1) == a;
    }
    if Under(owner, owner[x], a) {
      var k: nat :| Up(owner, owner[x], k) == a;
      assert Up(owner, x, k + 1) == a;
    }
  }

  /** Nothing is under 0, and a header that is not live is only under itself. */
  lemma UnderOutside(owner: Owners, x: nat, a: nat)
    requires x !in owner && x != a
    ensures !Under(owner, x, a)
  {
    forall k: nat
      ensures a != 0 ==> Up(owner, x, k) != a
    {
    }
  }

  lemma {:induction false} UpRanked(owner: Owners, rank: map<nat, nat>, x: nat, k: nat)
    requires Closed(owner) && Ranked(owner, rank) && x in owner
    ensures Up(owner, x, k) == 0 || (Up(owner, x, k) in owner && (if k == 0 then Up(owner, x, k) == x else rank[Up(owner, x, k)] < rank[x]))
    decreases k
  {
    if k > 0 {
      if owner[x] != 0 {
        UpRanked(owner, rank, owner[x], k - 1);
      } else {
        UpZero(owner, k - 1);
      }
    }
  }

  lemma UpZero(owner: Owners, k: nat)
    requires 0 !in owner
    ensures Up(owner, 0, k) == 0
  {
  }

  /** No header is among its own owners. */
  lemma NoCycle(owner: Owners, x: nat, k: nat)
    requires Forest(owner) && x in owner && k > 0
    ensures Up(owner, x, k) != x
  {
    var rank :| Ranked(owner, rank);
    UpRanked(owner, rank, x, k);
  }

  lemma RankOf(owner: Owners) returns (rank: map<nat, nat>)
    requires Acyclic(owner)
    ensures Ranked(owner, rank)
  {
    rank :| Ranked(owner, rank);
  }

  lemma UnderRank(owner: Owners, rank: map<nat, nat>, x: nat, a: nat)
    requires Closed(owner) && Ranked(owner, rank) && x in owner && Under(owner, x, a)
    ensures a in owner && (a == x || rank[a] < rank[x])
  {
    var k: nat :| Up(owner, x, k) == a;
    UpRanked(owner, rank, x, k);
  }

  lemma UnderLive(owner: Owners, x: nat, a: nat)
    requires Forest(owner) && x in owner && Under(owner, x, a)
    ensures a in owner
  {
    var rank :| Ranked(owner, rank);
    UnderRank(owner, rank, x, a);
  }

  lemma {:induction false} UpPlus(owner: Owners, x: nat, j: nat, k: nat)
    requires 0 !in owner
    ensures Up(owner, Up(owner, x, j), k) == Up(owner, x, j + k)
    decreases j
  {
    if j > 0 {
      if x in owner { UpPlus(owner, owner[x], j - 1, k); } else { UpZero(owner, k); }
    }
  }

  lemma UnderTransitive(owner: Owners, x: nat, y: nat, z: nat)
    requires 0 !in owner && Under(owner, x, y) && Under(owner, y, z)
    ensures Under(owner, x, z)
  {
    var j: nat :| Up(owner, x, j) == y;
    var k: nat :| Up(owner, y, k) == z;
    UpPlus(owner, x, j, k);
  }

  /** Two headers above the same one are themselves one above the other. */
  lemma UnderLinear(owner: Owners, x: nat, y: nat, z: nat)
    requires 0 !in owner && Under(owner, x, y) && Under(owner, x, z)
    ensures Under(owner, y, z) || Under(owner, z, y)
  {
    var j: nat :| Up(owner, x, j) == y;
    var k: nat :| Up(owner, x, k) == z;
    if j <= k {
      UpPlus(owner, x, j, k - j);
      assert Up(owner, y, k - j) == z;
    } else {
      UpPlus(owner, x, k, j - k);
      assert Up(owner, z, j - k) == y;
    }
  }

  // ----- walking down -----

  /** What lies strictly below `h` lies in the subtree of one of its children. */
  lemma {:induction false} BelowViaChild(owner: Owners, x: nat, h: nat) returns (c: nat)
    requires Closed(owner) && x in Sub(owner, h) && x != h
    ensures c in owner && owner[c] == h && x in Sub(owner, c) && c != 0
  {
    var k: nat :| Up(owner, x, k) == h;
    c := BelowViaChildAt(owner, x, h, k);
  }

  lemma {:induction false} BelowViaChildAt(owner: Owners, x: nat, h: nat, k: nat) returns (c: nat)
    requires Closed(owner) && x in owner && x != h && h != 0 && Up(owner, x, k) == h
    ensures c in owner && owner[c] == h && x in Sub(owner, c) && c != 0
    decreases k
  {
    if owner[x] == h {
      c := x;
      UnderSelf(owner, x);
    } else {
      UpZero(owner, k - 1);
      c := BelowViaChildAt(owner, owner[x], h, k - 1);
      if x != c { UnderStep(owner, x, c); } else { UnderSelf(owner, x); }
    }
  }

  lemma OwnerNotBelow(owner: Owners, h: nat, c: nat)
    requires Forest(owner) && c in owner && owner[c] == h
    ensures !Under(owner, h, c)
  {
    var rank :| Ranked(owner, rank);
    forall k: nat
      ensures Up(owner, h, k) != c
    {
      if h in owner { UpRanked(owner, rank, h, k); } else { UpZero(owner, k); }
    }
  }

  lemma ChildSub(owner: Owners, h: nat, c: nat)
    requires Forest(owner) && h != 0 && c in owner && owner[c] == h
    ensures Sub(owner, c) <= Sub(owner, h) && h !in Sub(owner, c)
    ensures c in Sub(owner, c) && h in Sub(owner, h) && c in Sub(owner, h)
    ensures Sub(owner, c) < Sub(owner, h)
  {
    UnderSelf(owner, h);
    UnderSelf(owner, c);
    assert Under(owner, c, h) by { assert Up(owner, c, 1) == Up(owner, h, 0); }
    forall x <- Sub(owner, c)
      ensures x in Sub(owner, h)
    {
      UnderTransitive(owner, x, c, h);
    }
    OwnerNotBelow(owner, h, c);
  }

  /** A set that contains, with a header, everything below it. */
  ghost predicate DownClosed(owner: Owners, dead: set<nat>) {
    forall c <- owner :: owner[c] in dead ==> c in dead
  }

  lemma {:induction false} DownClosedUp(owner: Owners, dead: set<nat>, x: nat, k: nat)
    requires Closed(owner) && DownClosed(owner, dead) && x in owner
    requires Up(owner, x, k) in dead && 0 !in dead
    ensures x in dead
    decreases k
  {
    if k > 0 {
      UpZero(owner, k - 1);
      DownClosedUp(owner, dead, owner[x], k - 1);
    }
  }

  lemma SubDownClosed(owner: Owners, h: nat)
    requires Closed(owner)
    ensures DownClosed(owner, Sub(owner, h))
  {
    forall c <- owner | owner[c] in Sub(owner, h)
      ensures c in Sub(owner, h)
    {
      if c == h { UnderSelf(owner, c); } else { UnderStep(owner, c, h); }
    }
  }

  // ----- how edits change the subtrees -----

  /** Below `c`, the owner of `c` itself does not matter. */
  lemma SubRelinked(owner: Owners, c: nat, p: nat)
    requires c in owner && c != 0
    ensures Sub(owner[c := p], c) == Sub(owner, c)
  {
    var owner' := owner[c := p];
    forall x <- owner
      ensures Under(owner', x, c) <==> Under(owner, x, c)
    {
      if Under(owner, x, c) {
        var k: nat :| Up(owner, x, k) == c;
        RelinkedUp(owner, owner', x, c, k);
      }
      if Under(owner', x, c) {
        var k: nat :| Up(owner', x, k) == c;
        RelinkedUp(owner', owner, x, c, k);
      }
    }
  }

  lemma {:induction false} RelinkedUp(owner: Owners, owner': Owners, x: nat, c: nat, k: nat)
    requires owner.Keys == owner'.Keys && c != 0
    requires forall y <- owner :: y != c ==> owner'[y] == owner[y]
    requires Up(owner, x, k) == c
    ensures Under(owner', x, c)
    decreases k
  {
    if x == c {
      UnderSelf(owner', c);
    } else {
      RelinkedUp(owner, owner', owner[x], c, k - 1);
      UnderStep(owner', x, c);
    }
  }

  /** Freeing a down-closed set takes exactly it out of every other subtree. */
  lemma SubRestricted(owner: Owners, dead: set<nat>, h: nat)
    requires Closed(owner) && DownClosed(owner, dead) && 0 !in dead && h !in dead
    ensures Sub(owner - dead, h) == Sub(owner, h) - dead
  {
    var owner' := owner - dead;
    forall x <- owner'
      ensures Under(owner', x, h) <==> Under(owner, x, h)
    {
      if Under(owner, x, h) {
        var k: nat :| Up(owner, x, k) == h;
        RestrictedUp(owner, dead, x, k);
      }
      if Under(owner', x, h) {
        var k: nat :| Up(owner', x, k) == h;
        RestrictedUp(owner, dead, x, k);
      }
    }
  }

  lemma {:induction false} RestrictedUp(owner: Owners, dead: set<nat>, x: nat, k: nat)
    requires Closed(owner) && DownClosed(owner, dead) && 0 !in dead && x !in dead
    ensures Up(owner - dead, x, k) == Up(owner, x, k)
    decreases k
  {
    if k > 0 && x in owner {
      if owner[x] in owner { assert owner[x] !in dead; }
      RestrictedUp(owner, dead, owner[x], k - 1);
    }
  }

  // ----- how edits keep the forest -----

  lemma ForestAdd(owner: Owners, h: nat)
    requires Forest(owner) && h != 0 && h !in owner
    ensures Forest(owner[h := 0])
  {
    var rank :| Ranked(owner, rank);
    assert Ranked(owner[h := 0], rank[h := 0]);
  }

  lemma ForestDetach(owner: Owners, h: nat)
    requires Forest(owner) && h in owner
    ensures Forest(owner[h := 0])
  {
    var rank :| Ranked(owner, rank);
    assert Ranked(owner[h := 0], rank);
  }

  lemma ForestFree(owner: Owners, dead: set<nat>)
    requires Forest(owner) && DownClosed(owner, dead)
    ensures Forest(owner - dead)
  {
    var rank :| Ranked(owner, rank);
    assert Ranked(owner - dead, rank);
  }

  /** Linking a root below a header outside its own subtree closes no cycle. */
  lemma ForestLink(owner: Owners, p: nat, c: nat)
    requires Forest(owner) && p in owner && c in owner && !Under(owner, p, c)
    ensures Forest(owner[c := p])
  {
    var rank :| Ranked(owner, rank);
    var below := Sub(owner, c);
    var rank' := map x | x in owner :: if x in below then rank[x] + rank[p] + 1 else rank[x];
    var owner' := owner[c := p];
    SubDownClosed(owner, c);
    forall x <- owner' | owner'[x] in owner'
      ensures rank'[owner'[x]] < rank'[x]
    {
      if x == c {
        UnderSelf(owner, c);
      } else if x in below {
        UnderStep(owner, x, c);
      }
    }
    assert Ranked(owner', rank');
  }

  // ----- roots -----

  ghost predicate IsRootOf(owner: Owners, x: nat, r: nat) {
    r in owner && owner[r] == 0 && Under(owner, x, r)
  }

  lemma RootUnique(owner: Owners, x: nat, r: nat, r': nat)
    requires Closed(owner) && IsRootOf(owner, x, r) && IsRootOf(owner, x, r')
    ensures r == r'
  {
    UnderLinear(owner, x, r, r');
    if r != r' {
      UnderStep(owner, r, r');
      UnderStep(owner, r', r);
      UnderOutside(owner, 0, r);
      UnderOutside(owner, 0, r');
      assert false;
    }
  }

  lemma {:induction false} RootExists(owner: Owners, rank: map<nat, nat>, x: nat) returns (r: nat)
    requires Closed(owner) && Ranked(owner, rank) && x in owner
    ensures IsRootOf(owner, x, r)
    decreases rank[x]
  {
    if owner[x] == 0 {
      r := x;
      UnderSelf(owner, x);
    } else {
      r := RootExists(owner, rank, owner[x]);
      if x != r { UnderStep(owner, x, r); }
    }
  }

  ghost function Root(owner: Owners, x: nat): (r: nat)
    requires Forest(owner) && x in owner
    ensures IsRootOf(owner, x, r)
  {
    var rank :| Ranked(owner, rank);
    assert exists r :: IsRootOf(owner, x, r) by { var r := RootExists(owner, rank, x); }
    var r :| IsRootOf(owner, x, r);
    r
  }
}
