/** What each runtime call does, header by header: which headers are live afterwards, and
    which frame, owner and size each of them has (yc_runtime.c:401-607). A tree is named by
    its root `r`: `Under(owner, x, r)` says that `x` is `r` or owned by it, however far down. */
module RuntimeLaws {
  import opened PointerHash
  import opened Ownership
  import opened Treap
  import opened RuntimeSpec

  // ----- which header an address means -----

  /** The address is in the payload of the live block, or its start. */
  ghost predicate Inside(s: State, h: nat, ptr: nat) {
    h in s.owner && h in s.size && (ptr == h + HEADER || h + HEADER <= ptr < h + HEADER + s.size[h])
  }

  /** Any address inside a block means that block. */
  lemma InsideMeans(s: State, h: nat, ptr: nat)
    requires Inv(s) && Inside(s, h, ptr)
    ensures ContainingOf(s, ptr) == h
  {
    if ptr != h + HEADER { assert Around(s, h, ptr); }
  }

  /** An address in no block means none. */
  lemma OutsideMeans(s: State, ptr: nat)
    requires Inv(s) && forall h: nat :: !Inside(s, h, ptr)
    ensures ContainingOf(s, ptr) == 0 && HeaderOf(s, ptr) == 0
  {
    if HeaderOf(s, ptr) != 0 { assert Inside(s, HeaderOf(s, ptr), ptr); }
    if h: nat :| Around(s, h, ptr) { assert Inside(s, h, ptr); }
  }

  /** A payload start means its header; any other address is no block to the calls that take
      one. */
  lemma StartMeans(s: State, h: nat, ptr: nat)
    requires Inv(s)
    ensures h in s.owner ==> HeaderOf(s, h + HEADER) == h
    ensures (forall x <- s.owner :: ptr != x + HEADER) ==> HeaderOf(s, ptr) == 0
    ensures 0 !in s.owner
  {
  }

  ghost predicate Rooted(s: State, h: nat, r: nat) { h in s.owner && r in s.owner && Under(s.owner, h, r) && s.owner[r] == 0 }

  lemma RootedIs(s: State, h: nat, r: nat)
    requires Inv(s) && Rooted(s, h, r)
    ensures Root(s.owner, h) == r
  {
    RootUnique(s.owner, h, r, Root(s.owner, h));
  }

  // ----- allocation -----

  /** One more root in the current frame, or null and no change. */
  lemma AllocLaw(s: State, h: nat, n: nat)
    requires Inv(s) && Fits(s, h, n)
    ensures var s' := Step(s, CAlloc(h, n));
            if h == 0 || HEADER + n > 0xffff_ffff_ffff_ffff then s' == s
            else
              && s'.cur == s.cur && s'.owner.Keys == s.owner.Keys + {h} && h !in s.owner
              && s'.owner[h] == 0 && s'.frame[h] == s.cur && s'.size[h] == n
              && forall x <- s.owner :: s'.owner[x] == s.owner[x] && s'.frame[x] == s.frame[x] && s'.size[x] == s.size[x]
  {
  }

  /** The headers a call leaves as they were. */
  ghost predicate Untouched(s: State, s': State, x: nat)
    requires Inv(s)
  {
    x in s.owner && x in s'.owner && x in s'.frame && x in s'.size
    && s'.owner[x] == s.owner[x] && s'.frame[x] == s.frame[x] && s'.size[x] == s.size[x]
  }

  /** A released block goes with everything below it, and nothing else does. */
  lemma ReleaseLaw(s: State, h: nat)
    requires Inv(s) && h in s.owner
    ensures var s' := Step(s, CRelease(h + HEADER));
            && s'.cur == s.cur && (forall x :: x in s'.owner <==> x in s.owner && !Under(s.owner, x, h))
            && forall x <- s'.owner :: Untouched(s, s', x)
  {
    StartMeans(s, h, h + HEADER);
  }

  lemma ReleaseNothing(s: State, ptr: nat)
    requires Inv(s) && forall x <- s.owner :: ptr != x + HEADER
    ensures Step(s, CRelease(ptr)) == s
  {
    StartMeans(s, 0, ptr);
  }

  /** On success the live headers are the old ones, less the old block and everything below
      it, and the new one, which is a root of the size asked for in the current frame. On
      failure nothing changes. */
  lemma ReallocLaw(s: State, o: nat, h: nat, n: nat)
    requires Inv(s) && o in s.owner && Fits(s, h, n)
    ensures var s' := Step(s, CRealloc(o + HEADER, h, n));
            if h == 0 || HEADER + n > 0xffff_ffff_ffff_ffff then s' == s
            else
              && s'.cur == s.cur && h !in s.owner
              && (forall x :: x in s'.owner <==> x == h || (x in s.owner && !Under(s.owner, x, o)))
              && (forall x <- s'.owner | x != h :: Untouched(s, s', x))
              && h in s'.frame && h in s'.size && s'.owner[h] == 0 && s'.frame[h] == s.cur && s'.size[h] == n
  {
    hide Inv, Fits, Alloc, Realloc, Release, ReleaseHeader, Under;
    ReallocIs(s, o, h, n);
    AllocLaw(s, h, n);
    if !(h == 0 || HEADER + n > 0xffff_ffff_ffff_ffff) {
      var s1 := Alloc(s, h, n);
      AllocKeeps(s, h, n);
      ReleaseLaw(s1, o);
      var s' := Step(s1, CRelease(o + HEADER));
      FitsNew(s, h, n);
      forall x: nat ensures x in s1.owner && !Under(s1.owner, x, o) <==> x == h || (x in s.owner && !Under(s.owner, x, o)) {
        if x == h || x in s.owner { NewOutside(s, h, o, x); }
      }
    }
  }

  lemma FitsNew(s: State, h: nat, n: nat)
    requires Inv(s) && Fits(s, h, n) && h != 0 && HEADER + n <= 0xffff_ffff_ffff_ffff
    ensures h !in s.owner && Alloc(s, h, n).owner == s.owner[h := 0]
  {
  }

  lemma ReallocIs(s: State, o: nat, h: nat, n: nat)
    requires Inv(s) && o in s.owner && Fits(s, h, n)
    ensures Step(s, CRealloc(o + HEADER, h, n)) ==
            if h == 0 || HEADER + n > 0xffff_ffff_ffff_ffff then s else Step(Alloc(s, h, n), CRelease(o + HEADER))
  {
    hide Under, Sub, ReleaseHeader;
    StartMeans(s, o, o + HEADER);
  }

  /** A new root is below nothing and has nothing below it. */
  lemma NewOutside(s: State, h: nat, o: nat, x: nat)
    requires Inv(s) && h !in s.owner && h != 0 && o in s.owner
    ensures x in s.owner[h := 0] && Under(s.owner[h := 0], x, o) <==> x in s.owner && Under(s.owner, x, o)
  {
    var owner' := s.owner[h := 0];
    ForestAdd(s.owner, h);
    UnderStep(owner', h, o);
    UnderOutside(owner', 0, o);
    if x in s.owner {
      if k: nat :| Up(s.owner, x, k) == o { SameUp(s.owner, h, x, k); }
      if k: nat :| Up(owner', x, k) == o { SameUp(s.owner, h, x, k); }
    }
  }

  lemma {:induction false} SameUp(owner: Owners, h: nat, x: nat, k: nat)
    requires Closed(owner) && h !in owner && h != 0 && (x in owner || x == 0)
    ensures Up(owner[h := 0], x, k) == Up(owner, x, k)
    decreases k
  {
    if k > 0 && x in owner { SameUp(owner, h, owner[x], k - 1); }
  }

  /** Of a null pointer: an allocation. Of anything else that is no block: nothing. */
  lemma ReallocOther(s: State, ptr: nat, h: nat, n: nat)
    requires Inv(s) && Fits(s, h, n) && forall x <- s.owner :: ptr != x + HEADER
    ensures Step(s, CRealloc(ptr, h, n)) == if ptr == 0 then Step(s, CAlloc(h, n)) else s
  {
    StartMeans(s, 0, ptr);
  }

  // ----- owners -----

  /** After the call `c` is below `p`, with its whole subtree in the frame of `p`; nothing
      else has changed. */
  ghost predicate Hung(s: State, s': State, p: nat, c: nat)
    requires Inv(s) && p in s.owner && c in s.owner
  {
    && s'.cur == s.cur && s'.size == s.size && s'.owner.Keys == s.owner.Keys && s'.frame.Keys == s.frame.Keys
    && s'.owner[c] == p && (forall x <- s.owner | x != c :: s'.owner[x] == s.owner[x])
    && forall x <- s.frame :: s'.frame[x] == if Under(s.owner, x, c) then s.frame[p] else s.frame[x]
  }

  lemma HungLaw(s: State, p: nat, c: nat)
    requires Inv(s) && p in s.owner && c in s.owner
    ensures var s' := AttachHeaders(s, p, c);
            if Under(s.owner, p, c) then s' == s else Hung(s, s', p, c)
  {
    UnderSelf(s.owner, c);
    if s.owner[c] == p && !Under(s.owner, p, c) {
      forall x <- s.frame | Under(s.owner, x, c) ensures s.frame[x] == s.frame[p] { TreeFrame(s, x, c); }
    }
  }

  /** The child goes below the parent unless it is the parent or above it. */
  lemma AttachLaw(s: State, p: nat, c: nat)
    requires Inv(s) && p in s.owner && c in s.owner
    ensures var s' := Step(s, CAttach(p + HEADER, c + HEADER));
            if Under(s.owner, p, c) then s' == s else Hung(s, s', p, c)
  {
    StartMeans(s, p, 0);
    StartMeans(s, c, 0);
    HungLaw(s, p, c);
  }

  /** One of the two is no block, or they are the same. */
  lemma AttachNothing(s: State, parent: nat, oldChild: nat, child: nat)
    requires Inv(s)
    requires (forall x <- s.owner :: parent != x + HEADER) || (forall x <- s.owner :: child != x + HEADER) || parent == child
    ensures Step(s, CAttach(parent, child)) == s == Step(s, CReplace(parent, oldChild, child))
  {
    if forall x <- s.owner :: parent != x + HEADER {
      StartMeans(s, 0, parent);
    } else if forall x <- s.owner :: child != x + HEADER {
      StartMeans(s, 0, child);
    }
  }

  /** For an address anywhere inside a live block `h`: the child goes below the root of the
      tree around it, unless it is that root. */
  lemma AttachToOwnerLaw(s: State, h: nat, ptr: nat, r: nat, c: nat)
    requires Inv(s) && Rooted(s, h, r) && c in s.owner
    requires Inside(s, h, ptr)
    ensures var s' := Step(s, CAttachToOwner(ptr, c + HEADER));
            if c == r then s' == s else Hung(s, s', r, c)
    ensures !Under(s.owner, h, c) ==> c != r
  {
    InsideMeans(s, h, ptr);
    RootedIs(s, h, r);
    StartMeans(s, c, 0);
    HungLaw(s, r, c);
    if c != r {
      UnderStep(s.owner, r, c);
      UnderOutside(s.owner, 0, c);
    } else {
      UnderSelf(s.owner, r);
    }
  }

  lemma AttachToOwnerNothing(s: State, ptr: nat, child: nat)
    requires Inv(s)
    requires || (forall x <- s.owner :: child != x + HEADER)
             || (forall h: nat :: !Inside(s, h, ptr))
    ensures Step(s, CAttachToOwner(ptr, child)) == s
  {
    if forall x <- s.owner :: child != x + HEADER { StartMeans(s, 0, child); } else {
      OutsideMeans(s, ptr);
      StartMeans(s, 0, 0);
    }
  }

  ghost predicate Freed(s: State, p: nat, oldChild: nat, o: nat) { o in s.owner && oldChild == o + HEADER && s.owner[o] == p }

  /** The old child, if it belongs to the parent, becomes a root with its frame; then the new
      one goes below the parent unless it is above it. */
  lemma ReplaceLaw(s: State, p: nat, oldChild: nat, n: nat)
    requires Inv(s) && p in s.owner && n in s.owner && p != n
    ensures var s' := Step(s, CReplace(p + HEADER, oldChild, n + HEADER));
            && s'.cur == s.cur && s'.size == s.size && s'.owner.Keys == s.owner.Keys && s'.frame.Keys == s.frame.Keys
            && (forall x <- s.owner ::
                  s'.owner[x] == if x == n && !Under(s.owner, p, n) then p else if Freed(s, p, oldChild, x) then 0 else s.owner[x])
            && forall x <- s.frame ::
                 s'.frame[x] == if !Under(s.owner, p, n) && Under(s.owner, x, n) then s.frame[p] else s.frame[x]
  {
    hide Under, Inv, AttachHeaders, Replace;
    if o: nat :| Freed(s, p, oldChild, o) {
      var s1 := s.(owner := s.owner[o := 0]);
      ReplaceIs(s, p, o, n);
      DetachKeeps(s, o);
      if !Under(s.owner, p, n) { DetachedBelow(s, o, p, n); }
      DetachedParent(s, o, p, n);
      HungLaw(s1, p, n);
      SameKeys(s);
    } else {
      ReplaceOther(s, p, oldChild, n);
      HungLaw(s, p, n);
      SameKeys(s);
    }
  }

  lemma SameKeys(s: State)
    requires Inv(s)
    ensures s.frame.Keys == s.owner.Keys == s.size.Keys
  {
  }

  lemma ReplaceIs(s: State, p: nat, o: nat, n: nat)
    requires Inv(s) && p in s.owner && n in s.owner && p != n && o in s.owner && s.owner[o] == p
    ensures Step(s, CReplace(p + HEADER, o + HEADER, n + HEADER)) == AttachHeaders(s.(owner := s.owner[o := 0]), p, n)
  {
    hide Under, AttachHeaders;
    StartMeans(s, p, 0);
    StartMeans(s, n, 0);
    StartMeans(s, o, 0);
  }

  lemma ReplaceOther(s: State, p: nat, oldChild: nat, n: nat)
    requires Inv(s) && p in s.owner && n in s.owner && p != n && forall o: nat :: !Freed(s, p, oldChild, o)
    ensures Step(s, CReplace(p + HEADER, oldChild, n + HEADER)) == AttachHeaders(s, p, n)
  {
    hide Under, AttachHeaders;
    StartMeans(s, p, 0);
    StartMeans(s, n, 0);
    var o := HeaderOf(s, oldChild);
    assert !Freed(s, p, oldChild, o);
  }

  lemma DetachedBelow(s: State, o: nat, p: nat, n: nat)
    requires Inv(s) && o in s.owner && s.owner[o] == p && p in s.owner && !Under(s.owner, p, n) && n in s.owner
    ensures forall x <- s.owner :: Under(s.owner[o := 0], x, n) <==> Under(s.owner, x, n)
  {
    forall x <- s.owner ensures Under(s.owner[o := 0], x, n) <==> Under(s.owner, x, n) { DetachedUnder(s, o, p, n, x); }
  }

  /** Taking `o` from its owner `p` changes nothing below a header that is not above `p`. */
  lemma DetachedUnder(s: State, o: nat, p: nat, n: nat, x: nat)
    requires Inv(s) && o in s.owner && s.owner[o] == p && p in s.owner && !Under(s.owner, p, n) && x in s.owner && n in s.owner
    ensures Under(s.owner[o := 0], x, n) <==> Under(s.owner, x, n)
  {
    var owner' := s.owner[o := 0];
    var rank := RankOf(s.owner);
    DetachedUnderRanked(s.owner, owner', rank, o, p, n, x);
  }

  lemma {:induction false} DetachedUnderRanked(owner: Owners, owner': Owners, rank: map<nat, nat>, o: nat, p: nat, n: nat, x: nat)
    requires Closed(owner) && Ranked(owner, rank) && o in owner && owner[o] == p && p in owner && owner' == owner[o := 0]
    requires !Under(owner, p, n) && x in owner && n in owner
    ensures Under(owner', x, n) <==> Under(owner, x, n)
    decreases rank[x]
  {
    if x == n {
      UnderSelf(owner, x);
      UnderSelf(owner', x);
    } else {
      UnderStep(owner, x, n);
      UnderStep(owner', x, n);
      UnderOutside(owner, 0, n);
      UnderOutside(owner', 0, n);
      if x != o && owner[x] != 0 { DetachedUnderRanked(owner, owner', rank, o, p, n, owner[x]); }
    }
  }

  lemma DetachedParent(s: State, o: nat, p: nat, n: nat)
    requires Inv(s) && o in s.owner && s.owner[o] == p && p in s.owner && n in s.owner
    ensures Under(s.owner[o := 0], p, n) <==> Under(s.owner, p, n)
  {
    var owner' := s.owner[o := 0];
    OwnerNotBelow(s.owner, p, o);
    var rank := RankOf(s.owner);
    DetachedAbove(s.owner, owner', rank, o, n, p);
  }

  lemma {:induction false} DetachedAbove(owner: Owners, owner': Owners, rank: map<nat, nat>, o: nat, n: nat, x: nat)
    requires Closed(owner) && Ranked(owner, rank) && o in owner && owner' == owner[o := 0] && x in owner && !Under(owner, x, o)
    ensures Under(owner', x, n) <==> Under(owner, x, n)
    decreases rank[x]
  {
    if n == 0 {
    } else if x == n {
      UnderSelf(owner, x);
      UnderSelf(owner', x);
    } else {
      UnderSelf(owner, o);
      UnderStep(owner, x, n);
      UnderStep(owner', x, n);
      UnderStep(owner, x, o);
      UnderOutside(owner, 0, n);
      UnderOutside(owner', 0, n);
      if owner[x] != 0 { DetachedAbove(owner, owner', rank, o, n, owner[x]); }
    }
  }

  // ----- frames -----

  function Min(a: nat, b: nat): nat { if a < b then a else b }

  /** The whole tree around the address goes to the frame, or stays where it is older. */
  ghost predicate Lowered(s: State, s': State, r: nat, target: nat)
    requires Inv(s)
  {
    && s'.cur == s.cur && s'.owner == s.owner && s'.size == s.size && s'.frame.Keys == s.frame.Keys
    && forall x <- s.frame :: s'.frame[x] == if Under(s.owner, x, r) then Min(s.frame[x], target) else s.frame[x]
  }

  lemma LoweredLaw(s: State, h: nat, ptr: nat, r: nat, target: nat)
    requires Inv(s) && Rooted(s, h, r)
    requires Inside(s, h, ptr)
    ensures Lowered(s, MoveTree(s, ptr, target), r, target)
  {
    InsideMeans(s, h, ptr);
    RootedIs(s, h, r);
    forall x <- s.frame | Under(s.owner, x, r) ensures s.frame[x] == s.frame[r] { TreeFrame(s, x, r); }
  }

  /** That many frames out from the current one, frame 0 at the outermost. */
  lemma MoveToAncestorLaw(s: State, h: nat, ptr: nat, r: nat, levels: nat)
    requires Inv(s) && Rooted(s, h, r)
    requires Inside(s, h, ptr)
    ensures var s' := Step(s, CMoveToAncestor(ptr, levels));
            if levels == 0 || s.cur == 0 then s' == s
            else Lowered(s, s', r, if levels < s.cur then s.cur - levels else 0)
  {
    LoweredLaw(s, h, ptr, r, if levels >= s.cur then 0 else s.cur - levels);
  }

  /** To frame 1, the outermost that a program pushes. */
  lemma MoveToRootLaw(s: State, h: nat, ptr: nat, r: nat)
    requires Inv(s) && Rooted(s, h, r)
    requires Inside(s, h, ptr)
    ensures Lowered(s, Step(s, CMoveToRoot(ptr)), r, 1)
  {
    LoweredLaw(s, h, ptr, r, 1);
  }

  lemma MoveNothing(s: State, ptr: nat, levels: nat)
    requires Inv(s) && forall h: nat :: !Inside(s, h, ptr)
    ensures Step(s, CMoveToAncestor(ptr, levels)) == s == Step(s, CMoveToRoot(ptr))
  {
    OutsideMeans(s, ptr);
    StartMeans(s, 0, 0);
  }

  /** A block that is allocated and sent to frame 1 at once, as every string the runtime
      makes: a root there, or in frame 0 if that is the current one. */
  lemma KeptLaw(s: State, h: nat, n: nat)
    requires Inv(s) && Fits(s, h, n) && h != 0 && HEADER + n <= 0xffff_ffff_ffff_ffff
    ensures Step(Step(s, CAlloc(h, n)), CMoveToRoot(h + HEADER)) ==
            s.(owner := s.owner[h := 0], frame := s.frame[h := Min(s.cur, 1)], size := s.size[h := n])
  {
    hide Inv, Under, MoveTree, Fits, Alloc, Lowered;
    var s1 := Alloc(s, h, n);
    AllocKeeps(s, h, n);
    FitsNew(s, h, n);
    UnderSelf(s1.owner, h);
    MoveToRootLaw(s1, h, h + HEADER, h);
    OnlyItself(s, h);
    SameKeys(s);
    KeptAlone(s, s1, Step(s1, CMoveToRoot(h + HEADER)), h, n);
  }

  lemma KeptAlone(s: State, s1: State, s2: State, h: nat, n: nat)
    requires Inv(s1) && s1 == Alloc(s, h, n) && h != 0 && HEADER + n <= 0xffff_ffff_ffff_ffff && h !in s.frame
    requires Lowered(s1, s2, h, 1) && s.frame.Keys == s.owner.Keys
    requires (forall x <- s.owner :: !Under(s1.owner, x, h)) && Under(s1.owner, h, h)
    ensures s2 == s.(owner := s.owner[h := 0], frame := s.frame[h := Min(s.cur, 1)], size := s.size[h := n])
  {
    hide Inv, Under;
    assert s2.frame.Keys == s.frame[h := Min(s.cur, 1)].Keys;
    forall x <- s2.frame ensures s2.frame[x] == s.frame[h := Min(s.cur, 1)][x] { }
  }

  lemma OnlyItself(s: State, h: nat)
    requires Inv(s) && h !in s.owner && h != 0
    ensures forall x <- s.owner :: !Under(s.owner[h := 0], x, h)
  {
    forall x <- s.owner ensures !Under(s.owner[h := 0], x, h) {
      var owner' := s.owner[h := 0];
      if k: nat :| Up(owner', x, k) == h { SameUp(s.owner, h, x, k); UpLive(s.owner, x, k); }
    }
  }

  lemma UpLive(owner: Owners, x: nat, k: nat)
    requires Forest(owner) && x in owner
    ensures Up(owner, x, k) == 0 || Up(owner, x, k) in owner
  {
    var rank := RankOf(owner);
    UpRanked(owner, rank, x, k);
  }

  /** What is in the current frame goes one frame out, and nothing else moves. */
  lemma MoveFrameLaw(s: State)
    requires Inv(s)
    ensures var s' := Step(s, CMoveFrame);
            && s'.cur == s.cur && s'.owner == s.owner && s'.size == s.size && s'.frame.Keys == s.frame.Keys
            && forall x <- s.frame ::
                 s'.frame[x] == if s.cur > 0 && s.frame[x] == s.cur then s.cur - 1 else s.frame[x]
  {
  }

  /** The 32-bit counter goes up by one, around at its end. */
  lemma PushLaw(s: State)
    requires s.cur <= 0xffff_ffff
    ensures var s' := Step(s, CPush);
            s'.cur == (if s.cur == 0xffff_ffff then 0 else s.cur + 1) && s'.frame == s.frame && s'.owner == s.owner && s'.size == s.size
  {
  }

  /** Exactly what is in the current frame is freed, and the counter goes down by one; in
      frame 0 nothing happens. */
  lemma PopLaw(s: State)
    requires Inv(s)
    ensures var s' := Step(s, CPop);
            if s.cur == 0 then s' == s
            else
              && s'.cur == s.cur - 1 && (forall x :: x in s'.owner <==> x in s.owner && s.frame[x] != s.cur)
              && forall x <- s'.owner :: Untouched(s, s', x)
  {
  }

  /** A reset of the counter, and the end of everything. */
  lemma InitShutdownLaw(s: State)
    ensures Step(s, CInit) == s.(cur := 0)
    ensures var s' := Step(s, CShutdown); s'.cur == 0 && s'.owner == map[] && s'.frame == map[] && s'.size == map[]
  {
  }
}
