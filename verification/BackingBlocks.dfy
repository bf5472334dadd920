/** What a growing collection does to the allocations: its backing block belongs to the
    collection's header and owns nothing, so exchanging it frees that one block alone
    (collections.rs:107-140; yc_runtime.c:385-399, 527-554). */
module BackingBlocks {
  import opened PointerHash
  import opened Ownership
  import opened RuntimeSpec

  ghost predicate Leaf(owner: Owners, d: nat) { forall x <- owner :: owner[x] != d }

  /** Block `d` holds the elements of the collection with header `a`. */
  ghost predicate Backed(s: State, a: nat, d: nat) {
    a in s.owner && d in s.owner && s.owner[d] == a && Leaf(s.owner, d)
  }

  lemma {:induction false} UpFromTop(owner: Owners, x: nat, k: nat)
    requires 0 !in owner && k > 0
    ensures var y := Up(owner, x, k - 1); Up(owner, x, k) == if y in owner then owner[y] else 0
    decreases k
  {
    if k > 1 {
      if x in owner { UpFromTop(owner, owner[x], k - 1); } else { UpZero(owner, k - 2); }
    }
  }

  /** A leaf's subtree is the leaf itself. */
  lemma LeafAlone(owner: Owners, d: nat)
    requires Closed(owner) && Leaf(owner, d) && d in owner
    ensures Sub(owner, d) == {d}
  {
    UnderSelf(owner, d);
    forall x <- owner | Under(owner, x, d)
      ensures x == d
    {
      var k: nat :| Up(owner, x, k) == d;
      if k > 0 { UpFromTop(owner, x, k); }
    }
  }

  // ----- exchanging the block -----

  /** The new block, the swap and the release of the old one, in the source's order. */
  ghost function Exchange(s: State, a: nat, d: nat, h: nat, n: nat): State {
    Release(Replace(Alloc(s, h, n), a + HEADER, d + HEADER, h + HEADER), d + HEADER)
  }

  /** Hanging a fresh leaf touches nothing but the leaf. */
  lemma HangLeaf(s: State, a: nat, h: nat)
    requires Inv(s) && a in s.owner && h in s.owner && a != h && s.owner[h] == 0 && Leaf(s.owner, h)
    ensures AttachHeaders(s, a, h) == State(s.cur, s.frame[h := s.frame[a]], s.owner[h := a], s.size)
  {
    hide Laid;
    LeafAlone(s.owner, h);
    assert a !in Sub(s.owner, h);
    assert Relabel(s.frame, {h}, s.frame[a]) == s.frame[h := s.frame[a]];
  }

  /** A released leaf takes nothing with it. */
  lemma ReleaseLeaf(s: State, d: nat)
    requires Inv(s) && d in s.owner && Leaf(s.owner, d)
    ensures Release(s, d + HEADER) == Free(s, {d}) && Inv(Free(s, {d}))
  {
    hide Laid, Free;
    LeafAlone(s.owner, d);
    ReleaseKeeps(s, d);
  }

  lemma SwapChild(s: State, a: nat, d: nat, h: nat, n: nat)
    requires Inv(s) && Backed(s, a, d) && Fits(s, h, n) && h != 0 && n <= SIZE_MAX - HEADER
    ensures var s1 := Alloc(s, h, n);
            var s2 := Replace(s1, a + HEADER, d + HEADER, h + HEADER);
            && s2 == State(s.cur, s1.frame[h := s.frame[a]], s1.owner[d := 0][h := a], s1.size)
            && Inv(s2)
  {
    hide Inv, AttachHeaders;
    var s1 := Alloc(s, h, n);
    AllocKeeps(s, h, n);
    NewBlock(s, h, n);
    OwnFacts(s, a, d);
    var freed := s1.(owner := s1.owner[d := 0]);
    assert HeaderOf(s1, a + HEADER) == a && HeaderOf(s1, d + HEADER) == d && HeaderOf(s1, h + HEADER) == h;
    DetachKeeps(s1, d);
    HangLeaf(freed, a, h);
    AttachKeeps(freed, a, h);
  }

  lemma NewBlock(s: State, h: nat, n: nat)
    requires Inv(s) && Fits(s, h, n) && h != 0 && n <= SIZE_MAX - HEADER
    ensures 1 < h && h !in s.owner && Leaf(s.owner, h)
    ensures forall x <- s.owner :: 1 < x
  {
  }

  /** Of everything alive, growing frees the old block and nothing else. */
  lemma GrowFreesOnlyOld(s: State, a: nat, d: nat, h: nat, n: nat)
    requires Inv(s) && Backed(s, a, d) && Fits(s, h, n) && h != 0 && n <= SIZE_MAX - HEADER
    ensures var s' := Exchange(s, a, d, h, n);
            && Inv(s') && Backed(s', a, h)
            && s' == State(s.cur, (s.frame - {d})[h := s.frame[a]], (s.owner - {d})[h := a], (s.size - {d})[h := n])
  {
    hide Replace, Inv, Release;
    var s1 := Alloc(s, h, n);
    var s2 := Replace(s1, a + HEADER, d + HEADER, h + HEADER);
    SwapChild(s, a, d, h, n);
    NewBlock(s, h, n);
    OwnFacts(s, a, d);
    assert Leaf(s2.owner, d) by {
      forall x <- s2.owner
        ensures s2.owner[x] != d
      {
        assert x != h && x != d ==> s2.owner[x] == s.owner[x];
      }
    }
    ReleaseLeaf(s2, d);
    Swapped(s.frame, d, h, s.cur, s.frame[d], s.frame[a]);
    Swapped(s.owner, d, h, 0, 0, a);
    Swapped(s.size, d, h, n, s.size[d], n);
    assert s1.frame[d := s.frame[d]] == s1.frame && s1.size[d := s.size[d]][h := n] == s1.size;
  }

  lemma Swapped(m: map<nat, nat>, d: nat, h: nat, x: nat, y: nat, z: nat)
    requires d != h
    ensures m[h := x][d := y][h := z] - {d} == (m - {d})[h := z]
  {
  }

  lemma OwnFacts(s: State, a: nat, d: nat)
    requires Inv(s) && Backed(s, a, d)
    ensures a != d && a != 0 && d != 0 && s.frame.Keys == s.owner.Keys == s.size.Keys
  {
    NoCycle(s.owner, d, 1);
    assert Up(s.owner, d, 1) == Up(s.owner, a, 0);
  }

  // ----- attaching elements -----

  /** The block stays a leaf as elements are attached to the header; an element that is the
      address of the block itself has its owner already. */
  lemma ElementAttached(s: State, a: nat, d: nat, p: nat)
    requires Inv(s) && Backed(s, a, d)
    ensures var s' := Attach(s, a + HEADER, p);
            Inv(s') && Backed(s', a, d) && s'.size == s.size && s'.owner.Keys == s.owner.Keys
  {
    hide Laid, Forest, OneFrame;
    OwnFacts(s, a, d);
    if HeaderOf(s, p) == d {
      assert s.owner[d] == a;
    } else {
      AttachKeeps(s, a, HeaderOf(s, p));
      HungLeaf(s, a, HeaderOf(s, p), d);
    }
  }

  lemma HungLeaf(s: State, a: nat, c: nat, d: nat)
    requires Inv(s) && Backed(s, a, d) && c != d && a != d
    ensures var s' := AttachHeaders(s, a, c);
            Backed(s', a, d) && s'.size == s.size && s'.owner.Keys == s.owner.Keys
  {
    hide Laid, Forest, OneFrame, Under, Sub;
  }

  // ----- any other call -----

  /** A call that does not name the block as a parent or take it from its owner. */
  predicate Respects(c: Call, d: nat) {
    match c
    case CAttach(p, _) => p != d + HEADER
    case CReplace(p, o, _) => p != d + HEADER && o != d + HEADER
    case _ => true
  }

  /** Neither a root nor an owner. */
  ghost predicate Backing(s: State, d: nat) { d in s.owner && s.owner[d] != 0 && Leaf(s.owner, d) }

  lemma HangBacking(s: State, p: nat, c: nat, d: nat)
    requires Inv(s) && Backing(s, d) && p != d
    ensures Backing(AttachHeaders(s, p, c), d)
  {
  }

  lemma FreeBacking(s: State, dead: set<nat>, d: nat)
    requires Inv(s) && Backing(s, d) && d !in dead
    ensures Backing(Free(s, dead), d)
  {
  }

  /** Whatever the program does besides, the block remains a leaf for as long as it lives:
      field stores attach to the root of an ownership tree, and the block is never a root. */
  lemma BackingStays(s: State, c: Call, d: nat)
    requires Inv(s) && Legal(s, c) && Backing(s, d) && Respects(c, d)
    ensures d in Step(s, c).owner ==> Backing(Step(s, c), d)
  {
    hide Laid, AttachHeaders, Fits, ContainingOf;
    match c
    case CAlloc(h, n) => AllocBacking(s, h, n, d);
    case CRealloc(ptr, h, n) => ReallocBacking(s, ptr, h, n, d);
    case CRelease(ptr) => ReleaseBacking(s, HeaderOf(s, ptr), d);
    case CAttach(p, ch) => HangBacking(s, HeaderOf(s, p), HeaderOf(s, ch), d);
    case CAttachToOwner(p, ch) =>
      var h := ContainingOf(s, p);
      if h in s.owner { HangBacking(s, Root(s.owner, h), HeaderOf(s, ch), d); }
    case CReplace(p, o, n) => ReplaceBacking(s, p, o, n, d);
    case CPop => if s.cur != 0 && d !in InFrame(s, s.cur) { FreeBacking(s, InFrame(s, s.cur), d); }
    case _ =>
  }

  lemma AllocBacking(s: State, h: nat, n: nat, d: nat)
    requires Inv(s) && Fits(s, h, n) && Backing(s, d)
    ensures Backing(Alloc(s, h, n), d)
  {
  }

  lemma ReleaseBacking(s: State, h: nat, d: nat)
    requires Inv(s) && Backing(s, d)
    ensures d in ReleaseHeader(s, h).owner ==> Backing(ReleaseHeader(s, h), d)
  {
    if h in s.owner && d !in Sub(s.owner, h) { FreeBacking(s, Sub(s.owner, h), d); }
  }

  lemma ReallocBacking(s: State, ptr: nat, h: nat, n: nat, d: nat)
    requires Inv(s) && Fits(s, h, n) && Backing(s, d)
    ensures d in Realloc(s, ptr, h, n).owner ==> Backing(Realloc(s, ptr, h, n), d)
  {
    AllocKeeps(s, h, n);
    AllocBacking(s, h, n, d);
    ReleaseBacking(Alloc(s, h, n), HeaderOf(Alloc(s, h, n), ptr), d);
  }

  lemma ReplaceBacking(s: State, p: nat, o: nat, n: nat, d: nat)
    requires Inv(s) && Backing(s, d) && p != d + HEADER && o != d + HEADER
    ensures Backing(Replace(s, p, o, n), d)
  {
    hide Laid, AttachHeaders;
    var oh := HeaderOf(s, o);
    HangBacking(s, HeaderOf(s, p), HeaderOf(s, n), d);
    if oh in s.owner {
      DetachKeeps(s, oh);
      HangBacking(s.(owner := s.owner[oh := 0]), HeaderOf(s, p), HeaderOf(s, n), d);
    }
  }

  /** What exactly spares the block. Nothing live is hung below it, unless it is itself below
      that; and a replacement does not take it from its owner, unless to give it back. */
  ghost predicate Spares(s: State, c: Call, d: nat) {
    match c
    case CAttach(p, ch) => HeaderOf(s, p) == d ==> HeaderOf(s, ch) == 0 || Under(s.owner, d, HeaderOf(s, ch))
    case CReplace(p, o, n) =>
      var parent, was, now := HeaderOf(s, p), HeaderOf(s, o), HeaderOf(s, n);
      parent != 0 && now != 0 && p != n ==>
        && (parent == d ==> Under(s.owner, d, now))
        && (was == d && d in s.owner && s.owner[d] == parent ==> now == d)
    case _ => true
  }

  /** Below a leaf nothing is hung exactly when there is nothing to hang, or it would close
      a cycle. */
  lemma HangsBelow(s: State, d: nat, c: nat)
    requires Inv(s) && Backing(s, d)
    ensures AttachHeaders(s, d, c) == s <==> c !in s.owner || Under(s.owner, d, c)
  {
    hide Laid;
    UnderSelf(s.owner, d);
    var s' := AttachHeaders(s, d, c);
    if c in s.owner && !Under(s.owner, d, c) { assert s'.owner[c] == d; }
  }

  lemma AttachSpares(s: State, p: nat, c: nat, d: nat)
    requires Inv(s) && Backing(s, d)
    ensures Backing(AttachHeaders(s, p, c), d) <==> (p == d ==> AttachHeaders(s, p, c) == s)
  {
    hide Inv, Sub;
    if p != d {
      HangBacking(s, p, c, d);
    } else if AttachHeaders(s, p, c) != s {
      assert AttachHeaders(s, p, c).owner[c] == d;
    }
  }

  lemma ReplaceSpares(s: State, p: nat, o: nat, n: nat, d: nat)
    requires Inv(s) && Backing(s, d)
    ensures Backing(Replace(s, p, o, n), d) <==> Spares(s, CReplace(p, o, n), d)
  {
    hide Laid, AttachHeaders, Under;
    var parent, was, now := HeaderOf(s, p), HeaderOf(s, o), HeaderOf(s, n);
    if parent != 0 && now != 0 && p != n {
      if was != 0 && s.owner[was] == parent {
        var s' := s.(owner := s.owner[was := 0]);
        DetachKeeps(s, was);
        if was == d { GivenBack(s, s', parent, now, d); } else { AttachSpares(s', parent, now, d); }
      } else {
        AttachSpares(s, parent, now, d);
        HeaderLives(s, n);
        if parent == d { HangsBelow(s, d, now); }
      }
    }
  }

  lemma BackingIs(s: State, d: nat)
    requires Backing(s, d)
    ensures d in s.owner && s.owner[d] != 0 && Leaf(s.owner, d)
  {
  }

  lemma OwnerChanges(s: State, p: nat, c: nat, d: nat)
    requires p in s.owner && p in s.frame && d in s.owner && s.owner[d] == 0 && p != 0 && p != d && Leaf(s.owner, d)
    requires p !in Sub(s.owner, d)
    ensures Backing(AttachHeaders(s, p, c), d) <==> c == d
  {
    hide Relabel;
  }

  lemma GivenBack(s: State, s': State, p: nat, c: nat, d: nat)
    requires Inv(s) && Backing(s, d) && s.owner[d] == p && p in s.owner && s' == s.(owner := s.owner[d := 0])
    ensures Backing(AttachHeaders(s', p, c), d) <==> c == d
  {
    hide Laid, OneFrame, AttachHeaders, Sub, Backing;
    assert d in s.owner && s.owner[d] != 0 && Leaf(s.owner, d) by { BackingIs(s, d); }
    NoCycle(s.owner, d, 1);
    assert Up(s.owner, d, 1) == Up(s.owner, p, 0);
    DetachKeeps(s, d);
    LeafAlone(s'.owner, d);
    OwnerChanges(s', p, c, d);
  }

  /** A call leaves the block a leaf with an owner if and only if it spares it. A pointer to
      the first element is the address of the block, so a program can name it. */
  lemma BackingExactly(s: State, c: Call, d: nat)
    requires Inv(s) && Legal(s, c) && Backing(s, d) && d in Step(s, c).owner
    ensures Backing(Step(s, c), d) <==> Spares(s, c, d)
  {
    hide Laid, AttachHeaders, Fits, ContainingOf, Backing, Under;
    match c
    case CAttach(p, ch) =>
      AttachSpares(s, HeaderOf(s, p), HeaderOf(s, ch), d);
      HeaderLives(s, ch);
      if HeaderOf(s, p) == d { HangsBelow(s, d, HeaderOf(s, ch)); }
    case CReplace(p, o, n) => ReplaceSpares(s, p, o, n, d);
    case _ => BackingStays(s, c, d);
  }

  lemma HeaderLives(s: State, p: nat)
    requires Inv(s)
    ensures HeaderOf(s, p) == 0 <==> HeaderOf(s, p) !in s.owner
  {
    hide Laid;
  }

  /** The first element's address is stored in the vector and then overwritten by another
      pointer: the block is no longer below its header, though the vector still uses it. */
  lemma OwnAddressReplaced(s: State, a: nat, d: nat, n: nat)
    requires Inv(s) && Backed(s, a, d) && HeaderOf(s, n) !in {0, d} && n != a + HEADER
    ensures var c := CReplace(a + HEADER, d + HEADER, n);
            !Spares(s, c, d) && d in Step(s, c).owner && Step(s, c).owner[d] == 0
  {
    hide Laid;
    OwnFacts(s, a, d);
    assert HeaderOf(s, a + HEADER) == a && HeaderOf(s, d + HEADER) == d;
  }

  predicate Reuses(c: Call, d: nat) { (c.CAlloc? || c.CRealloc?) && c.h == d }

  lemma GoneAfter(s: State, c: Call, d: nat)
    requires d !in s.owner && !Reuses(c, d)
    ensures d !in Step(s, c).owner
  {
    hide Under, Sub, Forest, ContainingOf;
  }

  /** The same over a whole run in which malloc does not hand the block's address out again. */
  lemma {:induction false} BackingStaysInRun(s: State, cs: seq<Call>, d: nat)
    requires Inv(s) && LegalRun(s, cs) && (d in s.owner ==> Backing(s, d))
    requires forall c <- cs :: Respects(c, d) && !Reuses(c, d)
    ensures d in Run(s, cs).owner ==> Backing(Run(s, cs), d)
    decreases |cs|
  {
    hide Inv, Legal, Step, Backing, Respects, Reuses;
    if cs != [] {
      assert cs[0] in cs;
      StepKeeps(s, cs[0]);
      if d in s.owner { BackingStays(s, cs[0], d); } else { GoneAfter(s, cs[0], d); }
      BackingStaysInRun(Step(s, cs[0]), cs[1..], d);
    }
  }

  /** After every call of the run the block is gone, or a leaf with an owner. */
  ghost predicate BackingThroughout(s: State, cs: seq<Call>, d: nat)
    decreases |cs|
  {
    (d in s.owner ==> Backing(s, d)) && (cs != [] ==> BackingThroughout(Step(s, cs[0]), cs[1..], d))
  }

  /** Every call of the run spares the block while it is there. */
  ghost predicate SparedThroughout(s: State, cs: seq<Call>, d: nat)
    decreases |cs|
  {
    cs != [] ==> (d in s.owner ==> Spares(s, cs[0], d)) && SparedThroughout(Step(s, cs[0]), cs[1..], d)
  }

  /** Over any run in which malloc does not hand the address out again, the block remains a
      leaf for as long as it lives if and only if every call spares it. */
  lemma {:induction false} BackingThroughoutExactly(s: State, cs: seq<Call>, d: nat)
    requires Inv(s) && LegalRun(s, cs) && (d in s.owner ==> Backing(s, d)) && forall c <- cs :: !Reuses(c, d)
    ensures BackingThroughout(s, cs, d) <==> SparedThroughout(s, cs, d)
    decreases |cs|
  {
    hide Inv, Legal, Step, Backing, Spares, Reuses;
    if cs != [] {
      assert cs[0] in cs;
      var s' := Step(s, cs[0]);
      StepKeeps(s, cs[0]);
      if d in s.owner {
        if d in s'.owner { BackingExactly(s, cs[0], d); } else { GoneSpares(s, cs[0], d); }
      } else {
        GoneAfter(s, cs[0], d);
      }
      if d in s'.owner && !Backing(s', d) {
        assert !BackingThroughout(s', cs[1..], d);
      } else {
        BackingThroughoutExactly(s', cs[1..], d);
      }
    }
  }

  /** A call that frees the block does nothing else to it. */
  lemma GoneSpares(s: State, c: Call, d: nat)
    requires Inv(s) && d in s.owner && d !in Step(s, c).owner
    ensures Spares(s, c, d)
  {
    hide Laid, Under, Sub, ContainingOf;
  }

  // ----- clearing -----

  /** The elements are released one after the other. */
  ghost function ReleaseEach(s: State, ptrs: seq<nat>): State
    decreases |ptrs|
  {
    if ptrs == [] then s else ReleaseEach(Release(s, ptrs[0]), ptrs[1..])
  }

  ghost predicate Owns(s: State, p: nat, x: nat) { HeaderOf(s, p) != 0 && Under(s.owner, x, HeaderOf(s, p)) }

  /** A live block survives the release of all elements exactly when none of them owns it. */
  lemma {:induction false} SurvivesClear(s: State, ptrs: seq<nat>, x: nat)
    requires Inv(s) && x in s.owner
    ensures Inv(ReleaseEach(s, ptrs))
    ensures x in ReleaseEach(s, ptrs).owner <==> forall p <- ptrs :: !Owns(s, p, x)
    decreases |ptrs|
  {
    hide Laid;
    if ptrs != [] {
      var h := HeaderOf(s, ptrs[0]);
      var s' := Release(s, ptrs[0]);
      ReleaseKeeps(s, h);
      if x in s'.owner {
        SurvivesClear(s', ptrs[1..], x);
        forall p <- ptrs[1..]
          ensures Owns(s', p, x) <==> Owns(s, p, x)
        {
          OwnsAfter(s, h, p, x);
        }
        assert !Owns(s, ptrs[0], x);
        assert forall p <- ptrs :: p == ptrs[0] || p in ptrs[1..];
      } else {
        assert Owns(s, ptrs[0], x);
        GoneStays(s', ptrs[1..], x);
      }
    }
  }

  lemma OwnsAfter(s: State, h: nat, p: nat, x: nat)
    requires Inv(s) && x in ReleaseHeader(s, h).owner
    ensures Owns(ReleaseHeader(s, h), p, x) <==> Owns(s, p, x)
  {
    hide Laid;
    if h in s.owner {
      var dead := Sub(s.owner, h);
      SubDownClosed(s.owner, h);
      var g := HeaderOf(s, p);
      if g in dead {
        if Under(s.owner, x, g) { UnderTransitive(s.owner, x, g, h); }
      } else {
        SubRestricted(s.owner, dead, g);
        assert x in Sub(s.owner - dead, g) <==> x in Sub(s.owner, g) - dead;
      }
    }
  }

  lemma {:induction false} GoneStays(s: State, ptrs: seq<nat>, x: nat)
    requires Inv(s) && x !in s.owner
    ensures Inv(ReleaseEach(s, ptrs)) && x !in ReleaseEach(s, ptrs).owner
    decreases |ptrs|
  {
    if ptrs != [] {
      ReleaseKeeps(s, HeaderOf(s, ptrs[0]));
      GoneStays(Release(s, ptrs[0]), ptrs[1..], x);
    }
  }

  /** What is left is untouched. */
  lemma {:induction false} ClearLeaves(s: State, ptrs: seq<nat>)
    requires Inv(s)
    ensures var s' := ReleaseEach(s, ptrs);
            && s'.cur == s.cur && s'.owner.Keys <= s.owner.Keys && s'.owner.Keys == s'.size.Keys == s'.frame.Keys
            && (forall x <- s'.owner :: s'.owner[x] == s.owner[x] && x in s.size && s'.size[x] == s.size[x])
            && (forall x <- s'.owner :: x in s.frame && s'.frame[x] == s.frame[x])
    decreases |ptrs|
  {
    hide Laid;
    if ptrs != [] {
      ReleaseKeeps(s, HeaderOf(s, ptrs[0]));
      ClearLeaves(Release(s, ptrs[0]), ptrs[1..]);
    }
  }

  lemma {:induction false} ReleaseEachMore(s: State, ptrs: seq<nat>, p: nat)
    ensures ReleaseEach(s, ptrs + [p]) == Release(ReleaseEach(s, ptrs), p)
    decreases |ptrs|
  {
    if ptrs == [] {
      assert [] + [p] == [p];
    } else {
      assert (ptrs + [p])[1..] == ptrs[1..] + [p];
      ReleaseEachMore(Release(s, ptrs[0]), ptrs[1..], p);
    }
  }

  /** Clearing leaves the collection its header and block when no element owns them. */
  lemma BackedAfterClear(s: State, a: nat, d: nat, ptrs: seq<nat>)
    requires Inv(s) && Backed(s, a, d)
    requires forall p <- ptrs :: !Owns(s, p, a) && HeaderOf(s, p) != d
    ensures var s' := ReleaseEach(s, ptrs);
            Inv(s') && Backed(s', a, d) && a in s'.size && s'.size[a] == s.size[a] && s'.size[d] == s.size[d]
  {
    hide Laid, ReleaseEach;
    forall p <- ptrs
      ensures !Owns(s, p, d)
    {
      OwnFacts(s, a, d);
      UnderStep(s.owner, d, HeaderOf(s, p));
    }
    SurvivesClear(s, ptrs, a);
    SurvivesClear(s, ptrs, d);
    ClearLeaves(s, ptrs);
  }
}
