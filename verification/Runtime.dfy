/** The managed runtime itself (yc_runtime.c:21-611): its static variables, and the words
    of the live headers as one finite map per header field, indexed by address. Every
    call is proved against the function of the same purpose in RuntimeSpec while the three
    kinds of list, the registry and the range treap stay in agreement. */
module Runtime {
  import opened PointerHash
  import opened LinkedLists
  import opened Ownership
  import opened RuntimeSpec
  import RuntimeLaws
  import opened Treap
  import Registry
  import RangeIndex

  /** The table of frame list heads, keyed by frame number. */
  function HeadMap(heads: seq<nat>): map<nat, nat> { map f: nat | f < |heads| :: heads[f] }

  /** Every frame list, and every header on the list of its frame. */
  ghost predicate FrameLists(flinks: Links, heads: seq<nat>, frames: map<nat, seq<nat>>, frame: map<nat, nat>) {
    && Family(flinks, HeadMap(heads), frames, frame)
    && forall h <- frame :: frame[h] < |heads|
  }

  ghost predicate AllList(links: Links, head: nat, all: seq<nat>, live: set<nat>) {
    IsList(links, head, all) && forall x :: x in all <==> x in live
  }

  /** The child lists spell out the forest. */
  ghost predicate ChildLists(slinks: Links, firstChild: map<nat, nat>, kids: map<nat, seq<nat>>, owner: Owners) {
    && Family(slinks, firstChild, kids, owner) && Forest(owner)
    && firstChild.Keys == kids.Keys == owner.Keys
  }

  /** Blocks handed out less blocks freed are the live headers. */
  ghost predicate Balanced(live: set<nat>, mallocs: nat, frees: nat) { mallocs == frees + |live| }

  /** Every live header has its words, and no other address has. */
  ghost predicate SameKeys(frame: map<nat, nat>, owner: Owners, size: map<nat, nat>, live: set<nat>) {
    frame.Keys == owner.Keys == size.Keys == live
  }

  /** The members of all lists, in order. */
  datatype Lists = Lists(all: seq<nat>, frames: map<nat, seq<nat>>, kids: map<nat, seq<nat>>)

  /** Every list without the freed headers, otherwise as it was. */
  function Swept(v: Lists, dead: set<nat>): Lists {
    Lists(Minus(v.all, dead), MinusEach(v.frames, dead), MinusEach(v.kids - dead, dead))
  }

  lemma SweptTwice(v: Lists, a: set<nat>, b: set<nat>)
    ensures Swept(Swept(v, a), b) == Swept(v, a + b)
  {
    hide Minus, MinusEach;
    MinusTwice(v.all, a, b);
    MinusEachTwice(v.frames, a, b);
    MinusEachTwice(v.kids - (a + b), a, b);
    MinusEachLess(v.kids - a, a, b);
    assert (v.kids - a) - b == v.kids - (a + b);
  }

  lemma MinusEachLess(lists: map<nat, seq<nat>>, a: set<nat>, b: set<nat>)
    ensures MinusEach(lists, a) - b == MinusEach(lists - b, a)
  {
    hide Minus;
  }

  lemma SweptNone(v: Lists)
    ensures Swept(v, {}) == v
  {
    MinusNone(v.all, {});
    assert v.kids - {} == v.kids;
    forall f <- v.frames
      ensures Minus(v.frames[f], {}) == v.frames[f]
    {
      MinusNone(v.frames[f], {});
    }
    forall x <- v.kids
      ensures Minus(v.kids[x], {}) == v.kids[x]
    {
      MinusNone(v.kids[x], {});
    }
  }

  /** Taking the subtree's top out first makes no difference to the lists in the end. */
  lemma SweptAfterDetach(v: Lists, h: nat, dead: set<nat>)
    requires h in dead
    ensures Swept(v.(kids := MinusEach(v.kids, {h})), dead) == Swept(v, dead)
  {
    hide Minus, MinusEach;
    MinusEachLess(v.kids, {h}, dead);
    MinusEachTwice(v.kids - dead, {h}, dead);
    assert {h} + dead == dead;
  }

  function Without<V>(m: map<nat, V>, h: nat): map<nat, V> { m - {h} }

  function Less(live: set<nat>, h: nat): set<nat> { live - {h} }

  lemma OneFewer(live: set<nat>, h: nat, mallocs: nat, frees: nat)
    requires h in live && Balanced(live, mallocs, frees)
    ensures Balanced(Less(live, h), mallocs, frees + 1)
  {
  }

  lemma OneMore(live: set<nat>, h: nat, mallocs: nat, frees: nat)
    requires h !in live && Balanced(live, mallocs, frees)
    ensures Balanced(live + {h}, mallocs + 1, frees)
  {
  }

  lemma RelabelTwice(frame: map<nat, nat>, a: set<nat>, b: set<nat>, f: nat)
    ensures Relabel(Relabel(frame, a, f), b, f) == Relabel(frame, a + b, f)
  {
  }

  function ListOf(frames: map<nat, seq<nat>>, f: nat): seq<nat> { if f in frames then frames[f] else [] }

  /** The lists of a table of that many heads: the old ones, and empty ones. */
  function Padded(frames: map<nat, seq<nat>>, count: nat): map<nat, seq<nat>> {
    map f: nat | f < count :: ListOf(frames, f)
  }

  lemma PaddedKeeps(frames: map<nat, seq<nat>>, count: nat, f: nat)
    ensures f < count ==> ListOf(Padded(frames, count), f) == ListOf(frames, f)
    ensures (forall g <- frames :: g < count) ==>
              forall g <- frames :: g in Padded(frames, count) && Padded(frames, count)[g] == frames[g]
  {
  }

  /** Doubling until there is room. */
  function Doubled(cap: nat, need: nat): (r: nat)
    requires cap > 0
    ensures r >= need && r >= cap && (r > cap ==> r < 2 * need)
    decreases need - cap
  {
    if cap >= need then cap else Doubled(cap * 2, need)
  }

  /** Growing the table adds empty lists only. */
  lemma GrownHeads(flinks: Links, heads: seq<nat>, frames: map<nat, seq<nat>>, frame: map<nat, nat>, n: nat)
    returns (frames': map<nat, seq<nat>>)
    requires FrameLists(flinks, heads, frames, frame)
    ensures FrameLists(flinks, heads + seq(n, _ => 0), frames', frame) && frames' == Padded(frames, |heads| + n)
  {
    hide IsList;
    var heads' := heads + seq(n, _ => 0);
    frames' := Padded(frames, |heads'|);
    forall f: nat | f < |heads'|
      ensures IsList(flinks, heads'[f], frames'[f])
    {
      if f < |heads| {
        assert f in HeadMap(heads);
      } else {
        EmptyList(flinks);
      }
    }
  }

  lemma EmptyList(links: Links)
    ensures IsList(links, 0, [])
  {
  }

  lemma EmptyStructures()
    ensures AllList(map[], 0, [], {}) && FrameLists(map[], [], map[], map[])
    ensures ChildLists(map[], map[], map[], map[]) && Inv(EmptyState())
    ensures Laid(map[]) && OneFrame(map[], map[])
  {
    EmptyInv();
  }

  class Runtime {
    var head: nat
    var currentFrame: nat
    var frameHeads: seq<nat>
    const registry: Registry.Registry
    const ranges: RangeIndex.Index

    // the words of the live headers
    var size: map<nat, nat>
    var frame: map<nat, nat>
    var links: Links          // prev, next
    var flinks: Links         // frame_prev, frame_next
    var owner: Owners
    var firstChild: map<nat, nat>
    var slinks: Links         // sibling_prev, sibling_next

    ghost var live: set<nat>
    ghost var all: seq<nat>
    ghost var frames: map<nat, seq<nat>>
    ghost var kids: map<nat, seq<nat>>
    /** How many blocks malloc handed out and how many went back to free. */
    ghost var mallocs: nat
    ghost var frees: nat

    ghost function View(): Lists
      reads this
    {
      Lists(all, frames, kids)
    }

    ghost function Abs(): State
      reads this
    {
      State(currentFrame, frame, owner, size)
    }

    /** Registry and treap both hold `live`. */
    ghost predicate Indexed(members: set<nat>)
      reads registry, registry.slots, ranges
    {
      && registry.Valid() && registry.live == members
      && ranges.Valid() && Elems(ranges.tree) == members
    }

    /** The five structures describe one set of headers. */
    ghost predicate Core()
      reads this, registry, registry.slots, ranges
    {
      && SameKeys(frame, owner, size, live)
      && AllList(links, head, all, live)
      && FrameLists(flinks, frameHeads, frames, frame)
      && ChildLists(slinks, firstChild, kids, owner) && Laid(size)
      && Indexed(live)
      && Balanced(live, mallocs, frees)
    }

    ghost predicate Valid()
      reads this, registry, registry.slots, ranges
    {
      Core() && OneFrame(owner, frame)
    }

    constructor ()
      ensures Valid() && Abs() == EmptyState()
      ensures fresh(registry) && fresh(registry.slots) && fresh(ranges)
    {
      hide Hash, IsList, Family, Forest, Good, Laid;
      head, currentFrame, frameHeads := 0, 0, [];
      size, frame, owner, firstChild := map[], map[], map[], map[];
      links, flinks, slinks := map[], map[], map[];
      live, all, frames, kids, mallocs, frees := {}, [], map[], map[], 0, 0;
      registry := new Registry.Registry();
      ranges := new RangeIndex.Index();
      new;
      EmptyStructures();
    }

    // ----- frame lists -----

    /** Room for the list head of `f`: the table starts at 64 entries and doubles
        (yc_runtime.c:219-240). */
    method FrameHeadsEnsure(f: nat)
      requires FrameLists(flinks, frameHeads, frames, frame)
      modifies this`frameHeads, this`frames
      ensures FrameLists(flinks, frameHeads, frames, frame)
      ensures |frameHeads| == if f < old(|frameHeads|) then old(|frameHeads|)
                              else Doubled(if old(|frameHeads|) == 0 then 64 else old(|frameHeads|), f + 1)
      ensures f < |frameHeads| && frames == if f < old(|frameHeads|) then old(frames) else Padded(old(frames), |frameHeads|)
      ensures forall g <- old(frames) :: g < |frameHeads|
    {
      hide IsList, Family;
      FramesBelow();
      var need := f + 1;
      if need <= |frameHeads| { return; }
      var nextCap := if |frameHeads| == 0 then 64 else |frameHeads|;
      while nextCap < need
        invariant nextCap > 0 && nextCap >= |frameHeads|
        invariant Doubled(nextCap, need) == Doubled(if |frameHeads| == 0 then 64 else |frameHeads|, need)
      {
        nextCap := nextCap * 2;
      }
      ghost var before := frameHeads;
      frames := GrownHeads(flinks, frameHeads, frames, frame, nextCap - |frameHeads|);
      frameHeads := frameHeads + seq(nextCap - |frameHeads|, _ => 0);
    }

    lemma FramesBelow()
      requires FrameLists(flinks, frameHeads, frames, frame)
      ensures forall g <- frames :: g < |frameHeads|
    {
      assert forall g <- frames :: g in HeadMap(frameHeads);
    }

    /** yc_frame_link: `h`, on no frame list, becomes the head of the list of `f`. */
    method FrameLink(h: nat, f: nat)
      requires h != 0 && h !in frame && FrameLists(flinks, frameHeads, frames, frame)
      modifies this`frameHeads, this`frames, this`flinks, this`frame
      ensures FrameLists(flinks, frameHeads, frames, frame)
      ensures frame == old(frame)[h := f]
      ensures f in frames && frames[f] == [h] + ListOf(old(frames), f)
      ensures forall g <- old(frames) :: g != f ==> g in frames && frames[g] == old(frames)[g]
    {
      hide FrameLists, Padded, ListOf;
      FrameHeadsEnsure(f);
      HeadsListed(f);
      PaddedKeeps(old(frames), |frameHeads|, f);
      PushFrame(h, f);
    }

    lemma HeadsListed(f: nat)
      requires FrameLists(flinks, frameHeads, frames, frame) && f < |frameHeads|
      ensures f in frames && frames[f] == ListOf(frames, f)
    {
      assert f in HeadMap(frameHeads);
    }

    /** The stores of yc_frame_link, once there is room (yc_runtime.c:246-252). */
    method PushFrame(h: nat, f: nat)
      requires h != 0 && h !in frame && FrameLists(flinks, frameHeads, frames, frame)
      requires f < |frameHeads| && f in frames
      modifies this`frameHeads, this`frames, this`flinks, this`frame
      ensures FrameLists(flinks, frameHeads, frames, frame)
      ensures frame == old(frame)[h := f] && frames == old(frames)[f := [h] + old(frames)[f]]
    {
      hide IsList, Pushed;
      ghost var heads := HeadMap(frameHeads);
      FamilyPush(flinks, heads, frames, frame, f, h);
      frames := frames[f := [h] + frames[f]];
      frame := frame[h := f];
      flinks := Pushed(flinks, frameHeads[f], h);
      frameHeads := frameHeads[f := h];
      assert HeadMap(frameHeads) == heads[f := h];
    }

    /** yc_frame_unlink: `h` leaves the list of its frame. Its frame word is stale until
        it is linked again, so the lists are those of the other headers. */
    method FrameUnlink(h: nat)
      requires h in frame && FrameLists(flinks, frameHeads, frames, frame)
      modifies this`frameHeads, this`frames, this`flinks, this`frame
      ensures FrameLists(flinks, frameHeads, frames, frame)
      ensures frame == old(frame) - {h} && frames == MinusEach(old(frames), {h})
    {
      hide IsList, Unlinked, HeadAfter, Cut, MinusEach, Family;
      if frame[h] >= |frameHeads| { return; }
      ghost var heads := HeadMap(frameHeads);
      FamilyCut(flinks, heads, frames, frame, h);
      var f := frame[h];
      ghost var k, i := FamilyUnlink(flinks, heads, frames, frame, h, frame - {h});
      frameHeads := frameHeads[f := HeadAfter(flinks, frameHeads[f], h)];
      flinks := Unlinked(flinks, h);
      frames := frames[k := Cut(frames[k], i)];
      frame := frame - {h};
      assert HeadMap(frameHeads) == heads[k := frameHeads[f]];
    }

    /** One header changes frame (yc_runtime.c:276-279). */
    method MoveOne(h: nat, f: nat)
      requires h in frame && h != 0 && FrameLists(flinks, frameHeads, frames, frame)
      modifies this`frameHeads, this`frames, this`flinks, this`frame
      ensures FrameLists(flinks, frameHeads, frames, frame)
      ensures frame == Relabel(old(frame), {h}, f)
    {
      hide FrameLists;
      if frame[h] != f {
        FrameUnlink(h);
        FrameLink(h, f);
      }
    }

    /** yc_move_graph_to_frame: `h` and everything it owns, depth first along the child
        lists. */
    method MoveGraph(h: nat, f: nat)
      requires h in owner && ChildLists(slinks, firstChild, kids, owner) && frame.Keys == owner.Keys
      requires FrameLists(flinks, frameHeads, frames, frame)
      modifies this`frameHeads, this`frames, this`flinks, this`frame
      ensures FrameLists(flinks, frameHeads, frames, frame)
      ensures frame == Relabel(old(frame), Sub(owner, h), f)
      decreases Sub(owner, h)
    {
      hide FrameLists, ChildLists, Relabel, Sub;
      ChildAt(h, 0);
      MoveOne(h, f);
      ghost var moved, i := {h}, 0;
      var child := firstChild[h];
      while child != 0
        invariant 0 <= i <= |kids[h]| && child == (if i < |kids[h]| then kids[h][i] else 0)
        invariant frame == Relabel(old(frame), moved, f) && FrameLists(flinks, frameHeads, frames, frame)
        invariant moved <= Sub(owner, h)
        invariant h in moved && forall j :: 0 <= j < i ==> Sub(owner, kids[h][j]) <= moved
        decreases |kids[h]| - i
      {
        ChildAt(h, i);
        MoveGraph(child, f);
        RelabelTwice(old(frame), moved, Sub(owner, child), f);
        moved, i := moved + Sub(owner, child), i + 1;
        child := slinks[child].next;
      }
      ChildAt(h, i);
      AllChildrenMoved(h, moved);
      assert moved == Sub(owner, h);
    }

    /** The i-th child of `h` is a live header with a smaller subtree, and its sibling link
        leads to the next. */
    lemma ChildAt(h: nat, i: nat)
      requires h in owner && ChildLists(slinks, firstChild, kids, owner)
      ensures h != 0 && h in kids && h in firstChild && h in Sub(owner, h)
      ensures firstChild[h] == if |kids[h]| > 0 then kids[h][0] else 0
      ensures i < |kids[h]| ==>
                var c := kids[h][i];
                && c != 0 && c in owner && owner[c] == h && c in slinks
                && slinks[c].next == (if i + 1 < |kids[h]| then kids[h][i + 1] else 0)
                && Sub(owner, c) < Sub(owner, h)
    {
      hide IsList, Acyclic, Under;
      UnderSelf(owner, h);
      NextOnList(slinks, firstChild[h], kids[h], i);
      if i < |kids[h]| {
        var c := kids[h][i];
        assert c in kids[h];
        ChildSub(owner, h, c);
      }
    }

    lemma AllChildrenMoved(h: nat, moved: set<nat>)
      requires h in owner && ChildLists(slinks, firstChild, kids, owner)
      requires h in moved && forall j :: 0 <= j < |kids[h]| ==> Sub(owner, kids[h][j]) <= moved
      ensures Sub(owner, h) <= moved
    {
      forall x <- Sub(owner, h)
        ensures x in moved
      {
        if x != h {
          var c := BelowViaChild(owner, x, h);
          assert c in kids[h];
        }
      }
    }

    // ----- looking headers up -----

    /** yc_header_from_ptr: the header whose payload starts at `ptr`. */
    method HeaderFromPtr(ptr: nat) returns (h: nat)
      requires Core()
      ensures h == HeaderOf(Abs(), ptr)
    {
      h := registry.Lookup(ptr);
    }

    /** yc_header_containing_ptr: payload start first, then the range treap. */
    method HeaderContaining(ptr: nat) returns (h: nat)
      requires Core()
      ensures h == ContainingOf(Abs(), ptr)
      ensures h != 0 ==> h in owner
    {
      hide Hash, FrameLists, AllList, ChildLists, Registry.Registry.Valid, RangeIndex.Index.Valid;
      h := HeaderFromPtr(ptr);
      if h == 0 {
        h := ranges.Lookup(size, ptr);
        OnlyAround(h, ptr);
      }
    }

    lemma OnlyAround(h: nat, ptr: nat)
      requires owner.Keys == size.Keys && HeaderOf(Abs(), ptr) == 0
      requires if h != 0 then
                 && h in owner && Contains(h, size[h], ptr)
                 && (forall x <- owner :: Contains(x, size[x], ptr) ==> x == h)
               else forall x <- owner :: !Contains(x, size[x], ptr)
      ensures h == ContainingOf(Abs(), ptr)
    {
      assert h != 0 ==> Around(Abs(), h, ptr);
    }

    /** yc_owner_root: follow owners to the top. */
    method OwnerRoot(h: nat) returns (r: nat)
      requires Forest(owner) && (h != 0 ==> h in owner)
      ensures if h == 0 then r == 0 else r == Root(owner, h)
    {
      hide Acyclic;
      r := h;
      if h == 0 { return; }
      ghost var rank := RankOf(owner);
      UnderSelf(owner, h);
      while r != 0 && owner[r] != 0
        invariant r in owner && Under(owner, h, r)
        decreases rank[r]
      {
        UnderOwner(owner, r);
        UnderTransitive(owner, h, r, owner[r]);
        r := owner[r];
      }
      RootUnique(owner, h, r, Root(owner, h));
    }

    /** yc_is_owner_ancestor. */
    method IsOwnerAncestor(ancestor: nat, h: nat) returns (found: bool)
      requires Forest(owner) && ancestor != 0 && (h != 0 ==> h in owner)
      ensures found <==> Under(owner, h, ancestor)
    {
      hide Acyclic;
      var current := h;
      ghost var rank := RankOf(owner);
      UnderOutside(owner, 0, ancestor);
      while current != 0
        invariant current != 0 ==> current in owner
        invariant Under(owner, h, ancestor) <==> Under(owner, current, ancestor)
        decreases if current != 0 then rank[current] + 1 else 0
      {
        if current == ancestor {
          UnderSelf(owner, current);
          return true;
        }
        UnderStep(owner, current, ancestor);
        current := owner[current];
      }
      return false;
    }

    // ----- owner links -----

    /** yc_detach_owner: leave the child list; the header becomes a root. */
    method DetachOwner(h: nat)
      requires ChildLists(slinks, firstChild, kids, owner) && h in owner
      modifies this`owner, this`firstChild, this`slinks, this`kids
      ensures ChildLists(slinks, firstChild, kids, owner) && owner == old(owner)[h := 0]
      ensures owner.Keys == old(owner).Keys && kids == MinusEach(old(kids), {h})
    {
      hide IsList, Unlinked, HeadAfter, Cut, Acyclic, MinusEach;
      FamilyCut(slinks, firstChild, kids, owner, h);
      if owner[h] == 0 {
        assert owner[h := 0] == owner;
        return;
      }
      var o := owner[h];
      ghost var k, i := FamilyUnlink(slinks, firstChild, kids, owner, h, owner[h := 0]);
      ForestDetach(owner, h);
      firstChild := firstChild[o := HeadAfter(slinks, firstChild[o], h)];
      slinks := Unlinked(slinks, h);
      owner := owner[h := 0];
      kids := kids[k := Cut(kids[k], i)];
    }

    /** The store sequence of yc_link_owner before its move (yc_runtime.c:347-354). */
    method PushChild(p: nat, c: nat)
      requires ChildLists(slinks, firstChild, kids, owner) && p in owner && c in owner && !Under(owner, p, c)
      modifies this`owner, this`firstChild, this`slinks, this`kids
      ensures ChildLists(slinks, firstChild, kids, owner) && owner == old(owner)[c := p]
      ensures owner.Keys == old(owner).Keys
      ensures Sub(owner, c) == old(Sub(owner, c))
    {
      hide IsList, Pushed, Forest, Under, Sub, Family;
      ghost var before := owner;
      DetachOwner(c);
      LinkKeepsForest(before, p, c);
      FamilyPush(slinks, firstChild, kids, owner, p, c);
      kids := kids[p := [c] + kids[p]];
      slinks := Pushed(slinks, firstChild[p], c);
      owner := owner[c := p];
      firstChild := firstChild[p := c];
      assert owner == before[c := p];
    }

    /** yc_link_owner: detach, push on the owner's child list, then move the whole subtree
        to the owner's frame, older or younger. */
    method LinkOwner(p: nat, c: nat)
      requires ChildLists(slinks, firstChild, kids, owner)
      requires FrameLists(flinks, frameHeads, frames, frame) && frame.Keys == owner.Keys
      requires p in owner && c in owner && !Under(owner, p, c)
      modifies this`owner, this`firstChild, this`slinks, this`kids
      modifies this`frameHeads, this`frames, this`flinks, this`frame
      ensures ChildLists(slinks, firstChild, kids, owner)
      ensures FrameLists(flinks, frameHeads, frames, frame)
      ensures owner == old(owner)[c := p] && owner.Keys == old(owner).Keys
      ensures frame == Relabel(old(frame), Sub(old(owner), c), old(frame)[p])
    {
      hide IsList, FrameLists, Forest, Family, Relabel, Under, Sub;
      PushChild(p, c);
      MoveGraph(c, frame[p]);
    }

    /** The same among all five structures. */
    method LinkCore(p: nat, c: nat)
      requires Core() && p in owner && c in owner && !Under(owner, p, c)
      modifies this`owner, this`firstChild, this`slinks, this`kids
      modifies this`frameHeads, this`frames, this`flinks, this`frame
      ensures Core() && owner == old(owner)[c := p]
      ensures frame == Relabel(old(frame), Sub(old(owner), c), old(frame)[p])
    {
      hide *;
      CoreParts();
      LinkOwner(p, c);
      assert SameKeys(frame, owner, size, live) by { KeysAre(); }
      Assemble();
    }

    lemma KeysAre()
      requires frame.Keys == owner.Keys == size.Keys == live
      ensures SameKeys(frame, owner, size, live)
    {
    }

    lemma CoreParts()
      requires Core()
      ensures SameKeys(frame, owner, size, live) && frame.Keys == owner.Keys == size.Keys == live
      ensures AllList(links, head, all, live) && FrameLists(flinks, frameHeads, frames, frame)
      ensures ChildLists(slinks, firstChild, kids, owner) && Laid(size) && Indexed(live)
      ensures Balanced(live, mallocs, frees)
    {
    }

    /** The same on a consistent heap. */
    method LinkValid(p: nat, c: nat)
      requires Valid() && p in owner && c in owner
      requires p != c && owner[c] != p && !Under(owner, p, c)
      modifies this`owner, this`firstChild, this`slinks, this`kids
      modifies this`frameHeads, this`frames, this`flinks, this`frame
      ensures Valid() && Abs() == Hang(old(Abs()), p, c)
    {
      hide *;
      ghost var before := Abs();
      AbsIs();
      ValidParts();
      ghost var after := HangKeepsOneFrame(before, p, c);
      LinkCore(p, c);
      assert frame == after.frame && owner == after.owner;
      AbsIs();
      ValidFrom();
    }

    lemma AbsIs()
      ensures Abs() == State(currentFrame, frame, owner, size)
    {
    }

    lemma ValidFrom()
      requires Core() && OneFrame(owner, frame)
      ensures Valid()
    {
    }

    lemma HangKeepsOneFrame(s: State, p: nat, c: nat) returns (after: State)
      requires Inv(s) && p in s.owner && c in s.owner
      requires p != c && s.owner[c] != p && !Under(s.owner, p, c)
      ensures p in s.frame && s.frame.Keys == s.owner.Keys && after == Hang(s, p, c)
      ensures after.frame == Relabel(s.frame, Sub(s.owner, c), s.frame[p]) && after.owner == s.owner[c := p]
      ensures after == State(s.cur, after.frame, after.owner, s.size)
      ensures OneFrame(after.owner, after.frame)
    {
      AttachKeeps(s, p, c);
      after := Hang(s, p, c);
    }

    /** Detaching alone keeps everything else in agreement. */
    method DetachValid(h: nat)
      requires Valid() && h in owner
      modifies this`owner, this`firstChild, this`slinks, this`kids
      ensures Valid() && owner == old(owner)[h := 0] && kids == MinusEach(old(kids), {h})
    {
      hide FrameLists, AllList, Forest, Family, Laid, IsList, OneFrame, Indexed, Balanced;
      DetachKeepsOneFrame(h);
      DetachOwner(h);
    }

    lemma DetachKeepsOneFrame(h: nat)
      requires Forest(owner) && OneFrame(owner, frame) && h in owner
      ensures OneFrame(owner[h := 0], frame)
    {
    }

    lemma ValidFacts()
      requires Valid()
      ensures Core() && Forest(owner) && 0 !in owner
      ensures frame.Keys == owner.Keys == size.Keys == live
    {
    }

    lemma ValidInv()
      requires Valid()
      ensures Core() && Forest(owner) && Inv(Abs())
    {
    }

    lemma ValidParts()
      requires Valid()
      ensures Core() && Inv(Abs()) && SameKeys(frame, owner, size, live) && live == owner.Keys
      ensures AllList(links, head, all, live) && FrameLists(flinks, frameHeads, frames, frame)
      ensures ChildLists(slinks, firstChild, kids, owner) && Laid(size) && Indexed(live)
      ensures Balanced(live, mallocs, frees)
    {
    }

    lemma Assemble()
      requires SameKeys(frame, owner, size, live)
      requires AllList(links, head, all, live) && FrameLists(flinks, frameHeads, frames, frame)
      requires ChildLists(slinks, firstChild, kids, owner) && Laid(size) && Indexed(live)
      requires Balanced(live, mallocs, frees)
      ensures Core()
    {
    }

    lemma LinkKeepsForest(before: Owners, p: nat, c: nat)
      requires Forest(before) && p in before && c in before && !Under(before, p, c)
      ensures 0 !in before && Forest(before[c := 0][c := p])
      ensures Sub(before[c := 0][c := p], c) == Sub(before, c)
    {
      ForestDetach(before, c);
      SubRelinked(before, c, 0);
      SubRelinked(before, c, p);
      assert before[c := 0][c := p] == before[c := p];
      assert p !in Sub(before[c := 0], c);
      ForestLink(before[c := 0], p, c);
    }

    /** yc_attach_child. */
    method AttachChild(parent: nat, child: nat)
      requires Valid()
      modifies this`owner, this`firstChild, this`slinks, this`kids
      modifies this`frameHeads, this`frames, this`flinks, this`frame
      ensures Valid() && Abs() == Attach(old(Abs()), parent, child)
    {
      hide Valid, Core, Forest, Under, Hang, Hash;
      ValidFacts();
      if parent == 0 || child == 0 || parent == child { return; }
      var p := HeaderFromPtr(parent);
      var c := HeaderFromPtr(child);
      if p == 0 || c == 0 { return; }
      if owner[c] == p { return; }
      var cyclic := IsOwnerAncestor(c, p);
      if cyclic { return; }
      LinkValid(p, c);
    }

    /** yc_attach_child_to_owner: the new parent is the root of the tree around `parent`. */
    method AttachChildToOwner(parent: nat, child: nat)
      requires Valid()
      modifies this`owner, this`firstChild, this`slinks, this`kids
      modifies this`frameHeads, this`frames, this`flinks, this`frame
      ensures Valid() && Abs() == AttachToOwner(old(Abs()), parent, child)
    {
      hide Valid, Core, Forest, Under, AttachHeaders, ContainingOf, Hash;
      ValidFacts();
      if parent == 0 { NothingAtZero(); return; }
      var c := HeaderFromPtr(child);
      if c == 0 { return; }
      var h := HeaderContaining(parent);
      var root := OwnerRoot(h);
      if root != 0 {
        AttachChild(root + HEADER, child);
      }
    }

    lemma NothingAtZero()
      requires Valid()
      ensures ContainingOf(Abs(), 0) !in owner
    {
      assert forall h: nat :: !Around(Abs(), h, 0);
    }

    /** yc_replace_child: the old child is detached only if it hangs below `parent`. */
    method ReplaceChild(parent: nat, oldChild: nat, newChild: nat)
      requires Valid()
      modifies this`owner, this`firstChild, this`slinks, this`kids
      modifies this`frameHeads, this`frames, this`flinks, this`frame
      ensures Valid() && Abs() == Replace(old(Abs()), parent, oldChild, newChild)
    {
      hide Valid, Core, Forest, Under, AttachHeaders, Hash;
      ValidFacts();
      if parent == 0 || newChild == 0 || parent == newChild { return; }
      var p := HeaderFromPtr(parent);
      var n := HeaderFromPtr(newChild);
      if p == 0 || n == 0 { return; }
      var o := HeaderFromPtr(oldChild);
      if o != 0 && owner[o] == p {
        DetachValid(o);
      }
      AttachChild(parent, newChild);
    }

    // ----- the list of all headers -----

    /** yc_link. */
    method Link(h: nat, ghost members: set<nat>)
      requires AllList(links, head, all, members) && h != 0 && h !in members
      modifies this`links, this`head, this`all
      ensures AllList(links, head, all, members + {h}) && all == [h] + old(all)
    {
      hide IsList, Pushed;
      PushIsList(links, head, all, h);
      links := Pushed(links, head, h);
      head := h;
      all := [h] + all;
    }

    /** yc_unlink. */
    method Unlink(h: nat, ghost members: set<nat>)
      requires AllList(links, head, all, members) && h in members
      modifies this`links, this`head, this`all
      ensures AllList(links, head, all, members - {h})
      ensures all == Minus(old(all), {h})
    {
      hide IsList, Unlinked, HeadAfter, Cut, Minus;
      ghost var i: nat :| 0 <= i < |all| && all[i] == h;
      NeighboursAreMembers(links, head, all, h);
      UnlinkIsList(links, head, all, i);
      CutMembers(links, head, all, i);
      CutIsMinus(links, head, all, i);
      head := HeadAfter(links, head, h);
      links := Unlinked(links, h);
      all := Cut(all, i);
    }

    // ----- release -----

    /** The header leaves both remaining lists, and its own words go with it. */
    method DropWords(h: nat)
      requires FrameLists(flinks, frameHeads, frames, frame) && h in frame
      requires AllList(links, head, all, live) && h in live
      modifies this`frameHeads, this`frames, this`flinks, this`frame, this`links, this`head, this`all
      modifies this`owner, this`size, this`firstChild, this`kids, this`frees, this`live
      ensures FrameLists(flinks, frameHeads, frames, frame) && AllList(links, head, all, live)
      ensures frame == Without(old(frame), h) && owner == Without(old(owner), h)
      ensures size == Without(old(size), h) && firstChild == Without(old(firstChild), h)
      ensures kids == Without(old(kids), h)
      ensures live == Less(old(live), h) && frees == old(frees) + 1
      ensures all == Minus(old(all), {h}) && frames == MinusEach(old(frames), {h})
    {
      hide FrameLists, AllList, Minus, MinusEach;
      FrameUnlink(h);
      Unlink(h, live);
      owner, size, live := owner - {h}, size - {h}, live - {h};
      firstChild, kids := firstChild - {h}, kids - {h};
      frees := frees + 1;
    }

    /** The end of yc_release_header: a childless root leaves every structure and goes
        back to free (yc_runtime.c:393-398). */
    method FreeLeaf(h: nat)
      requires Valid() && h in owner && owner[h] == 0 && firstChild[h] == 0
      modifies this, registry`count, registry`live, registry.slots, ranges
      ensures Valid() && Abs() == Free(old(Abs()), {h}) && View() == Swept(old(View()), {h})
      ensures frees == old(frees) + 1 && mallocs == old(mallocs)
      ensures registry.slots == old(registry.slots)
    {
      hide FrameLists, AllList, Laid, OneFrame, Free, Indexed, Inv, ChildLists, Core, Balanced, SameKeys;
      hide Without, Less, Minus, MinusEach;
      ghost var before := Abs();
      LeafLists(h);
      ValidParts();
      LeafState(before, h);
      LeafKids(before, h);
      OneFewer(live, h, mallocs, frees);
      DropIndexed(h);
      DropWords(h);
      Assemble();
    }

    /** A root is on no child list. */
    lemma LeafLists(h: nat)
      requires Valid() && h in owner && owner[h] == 0
      ensures MinusEach(kids - {h}, {h}) == Without(kids, h)
    {
      hide FrameLists, AllList, Laid, OneFrame, Indexed, Balanced, Family, Acyclic, MinusEach;
      FamilyCut(slinks, firstChild, kids, owner, h);
      MinusEachLess(kids, {h}, {h});
    }

    /** yc_registry_remove and yc_range_remove, together. */
    method DropIndexed(h: nat)
      requires Indexed(live) && h > 1
      modifies registry`count, registry`live, registry.slots, ranges
      ensures Indexed(Less(live, h)) && registry.slots == old(registry.slots)
    {
      registry.Drop(h);
      ranges.Drop(h);
    }

    lemma LeafState(s: State, h: nat)
      requires Inv(s) && ChildLists(slinks, firstChild, kids, s.owner)
      requires h in s.owner && s.owner[h] == 0 && firstChild[h] == 0
      ensures Free(s, {h}) == State(s.cur, Without(s.frame, h), Without(s.owner, h), Without(s.size, h))
      ensures Inv(Free(s, {h}))
      ensures Laid(Without(s.size, h)) && OneFrame(Without(s.owner, h), Without(s.frame, h))
      ensures SameKeys(Without(s.frame, h), Without(s.owner, h), Without(s.size, h), Less(s.owner.Keys, h))
      ensures h in s.frame && h > 1
    {
      hide IsList;
      HeadIsMember(slinks, firstChild[h], kids[h]);
      assert forall c <- s.owner :: s.owner[c] == h ==> c in kids[h];
      FreeKeeps(s, {h});
    }

    lemma LeafKids(s: State, h: nat)
      requires Inv(s) && ChildLists(slinks, firstChild, kids, s.owner)
      requires h in s.owner && s.owner[h] == 0 && firstChild[h] == 0
      ensures ChildLists(slinks, Without(firstChild, h), Without(kids, h), Without(s.owner, h))
    {
      hide IsList, Laid, OneFrame;
      LeafState(s, h);
      FamilyDrop(slinks, firstChild, kids, s.owner, h);
    }

    /** yc_release_header: detach, release children one after the other, then go. Exactly
        the subtree of `h` is freed, each header once. */
    method ReleaseTree(h: nat)
      requires Valid() && (h != 0 ==> h in owner)
      modifies this, registry`count, registry`live, registry.slots, ranges
      ensures Valid() && Abs() == ReleaseHeader(old(Abs()), h)
      ensures View() == if h == 0 then old(View()) else Swept(old(View()), Sub(old(owner), h))
      ensures registry.slots == old(registry.slots) && mallocs == old(mallocs)
      decreases Sub(owner, h)
    {
      hide Core, Forest, Inv, Free, Sub, Under, OneFrame, Swept, MinusEach;
      ValidFacts();
      if h == 0 { return; }
      ghost var start, lists := Abs(), View();
      DetachValid(h);
      ghost var rooted, dead := Abs(), {};
      ghost var cut := View();
      SweptNone(cut);
      ReleaseStart(start, h);
      while firstChild[h] != 0
        invariant Valid() && h in owner && h in firstChild && owner[h] == 0 && Forest(owner)
        invariant registry.slots == old(registry.slots) && mallocs == old(mallocs)
        invariant Abs() == Free(rooted, dead) && Releasing(rooted, h, dead) && View() == Swept(cut, dead)
        decreases Sub(owner, h)
      {
        var c := firstChild[h];
        ReleaseStep(rooted, h, dead, c);
        SweptTwice(cut, dead, Sub(owner, c));
        dead := dead + Sub(owner, c);
        ReleaseTree(c);
        StillRooted(rooted, h, dead);
      }
      ReleaseEnd(start, rooted, h, dead);
      SweptTwice(cut, dead, {h});
      SweptAfterDetach(lists, h, dead + {h});
      FreeLeaf(h);
    }

    /** `dead` is part of what lies strictly below `h`, closed downwards. */
    ghost predicate Releasing(s: State, h: nat, dead: set<nat>) {
      Inv(s) && h in s.owner && dead <= Sub(s.owner, h) && h !in dead && DownClosed(s.owner, dead)
    }

    lemma ReleaseStart(s: State, h: nat)
      requires Valid() && Forest(s.owner) && h in s.owner && Abs() == s.(owner := s.owner[h := 0])
      ensures Abs() == Free(Abs(), {}) && Releasing(Abs(), h, {})
      ensures Sub(owner, h) == Sub(s.owner, h) && h in firstChild && Forest(owner)
    {
      hide Core, Inv, Acyclic, Under, OneFrame, Free, SameKeys, Family, FrameLists, AllList, Laid, Indexed;
      ValidParts();
      FreeNone(Abs());
      SubRelinked(s.owner, h, 0);
    }

    /** The header being released outlives its children. */
    lemma StillRooted(s: State, h: nat, dead: set<nat>)
      requires Valid() && Releasing(s, h, dead) && Abs() == Free(s, dead) && s.owner[h] == 0
      ensures h in owner && owner[h] == 0 && h in firstChild && Forest(owner)
    {
      hide Core, Inv, Acyclic, Under, OneFrame, SameKeys, Sub;
      ValidParts();
    }

    lemma ReleaseStep(s: State, h: nat, dead: set<nat>, c: nat)
      requires Valid() && Releasing(s, h, dead) && Abs() == Free(s, dead)
      requires h in firstChild && firstChild[h] == c && c != 0
      ensures c in owner
      ensures Releasing(s, h, dead + Sub(owner, c))
      ensures Free(Abs(), Sub(owner, c)) == Free(s, dead + Sub(owner, c))
      ensures Sub(owner, c) < Sub(owner, h) <= Sub(s.owner, h)
      ensures Free(Abs(), Sub(owner, c)).owner == owner - Sub(owner, c)
      ensures Sub(owner - Sub(owner, c), h) < Sub(owner, h)
    {
      hide Core, Laid, OneFrame, Acyclic, Under;
      FirstChildBelow(h);
      SubtreeStep(s.owner, h, dead, c);
      FreeTwice(s, dead, Sub(owner, c));
    }

    lemma FirstChildBelow(h: nat)
      requires Valid() && h in firstChild && firstChild[h] != 0
      ensures Forest(owner) && h in owner && firstChild[h] in owner && owner[firstChild[h]] == h
    {
      ChildAt(h, 0);
    }

    /** The headers left below `h` are the ones not yet freed. */
    lemma SubtreeStep(o: Owners, h: nat, dead: set<nat>, c: nat)
      requires Forest(o) && h in o && dead <= Sub(o, h) && h !in dead && DownClosed(o, dead)
      requires c in o - dead && o[c] == h
      ensures var now := o - dead;
              && Sub(now, c) < Sub(now, h) <= Sub(o, h)
              && dead + Sub(now, c) <= Sub(o, h) && h !in Sub(now, c)
              && DownClosed(o, dead + Sub(now, c))
              && Sub(now - Sub(now, c), h) < Sub(now, h)
    {
      hide Acyclic, Under;
      var now := o - dead;
      ForestFree(o, dead);
      SubRestricted(o, dead, h);
      SubRestricted(o, dead, c);
      ChildSub(now, h, c);
      SubDownClosed(now, c);
      SubRestricted(now, Sub(now, c), h);
      forall x <- o | o[x] in dead + Sub(now, c)
        ensures x in dead + Sub(now, c)
      {
        if o[x] in Sub(now, c) && x !in dead { assert x in now && now[x] == o[x]; }
      }
    }

    lemma ReleaseEnd(start: State, s: State, h: nat, dead: set<nat>)
      requires Valid() && Releasing(s, h, dead) && Abs() == Free(s, dead)
      requires h in start.owner && s == start.(owner := start.owner[h := 0])
      requires Sub(s.owner, h) == Sub(start.owner, h)
      requires h in firstChild && firstChild[h] == 0
      ensures Free(Abs(), {h}) == ReleaseHeader(start, h) && dead + {h} == Sub(start.owner, h)
    {
      hide Core, Laid, OneFrame, Acyclic, Under;
      ChildlessSub(h);
      SubRestricted(s.owner, dead, h);
      assert dead + {h} == Sub(start.owner, h);
      FreeTwice(s, dead, {h});
      assert s.owner - Sub(start.owner, h) == start.owner - Sub(start.owner, h);
    }

    lemma ChildlessSub(h: nat)
      requires Valid() && h in firstChild && firstChild[h] == 0
      ensures Sub(owner, h) == {h} && Forest(owner)
    {
      ChildAt(h, 0);
      HeadIsMember(slinks, firstChild[h], kids[h]);
      AllChildrenMoved(h, {h});
    }

    // ----- life cycle -----

    /** yc_runtime_init only resets the frame number. */
    method Init()
      requires Valid()
      modifies this`currentFrame
      ensures Valid() && Abs() == Step(old(Abs()), CInit)
    {
      hide Core;
      currentFrame := 0;
      SameCore(old(Abs()));
    }

    /** The current frame number is part of no list or index. */
    twostate lemma SameCore(before: State)
      requires old(Valid()) && unchanged(registry) && unchanged(registry.slots) && unchanged(ranges)
      requires unchanged(`head) && unchanged(`frameHeads) && unchanged(`size) && unchanged(`frame)
      requires unchanged(`links) && unchanged(`flinks) && unchanged(`owner) && unchanged(`firstChild)
      requires unchanged(`slinks) && unchanged(`live) && unchanged(`all) && unchanged(`frames)
      requires unchanged(`kids) && unchanged(`mallocs) && unchanged(`frees)
      ensures Valid()
    {
    }

    /** The loop of yc_runtime_shutdown (yc_runtime.c:407-412): each header of the list is
        freed once. */
    method FreeAll()
      requires AllList(links, head, all, live)
      modifies this`head, this`frees
      ensures frees == old(frees) + |live|
    {
      hide IsList;
      UniqueMembers(links, head, all, live);
      ghost var i := 0;
      while head != 0
        invariant 0 <= i <= |all| && head == if i < |all| then all[i] else 0
        invariant frees == old(frees) + i
        decreases |all| - i
      {
        NextOnList(links, old(head), all, i);
        var next := links[head].next;
        frees := frees + 1;
        head, i := next, i + 1;
      }
      NextOnList(links, old(head), all, i);
    }

    /** yc_runtime_shutdown: free everything, then drop every table. */
    method Shutdown()
      requires Valid()
      modifies this, registry, ranges
      ensures Valid() && Abs() == EmptyState()
      ensures mallocs == frees == old(mallocs)
      ensures fresh(registry.slots)
    {
      hide Laid, FrameLists, OneFrame, Inv, ChildLists, AllList, Indexed, Core, SameKeys, Balanced;
      ValidParts();
      ranges.Clear();
      FreeAll();
      AllFreed(live, mallocs, old(frees), frees);
      registry.Reset();
      ClearWords();
      EmptyIndexes();
      Assemble();
    }

    method ClearWords()
      modifies this
      ensures Abs() == EmptyState() && mallocs == old(mallocs) && frees == old(frees)
      ensures live == {} && SameKeys(frame, owner, size, live)
      ensures AllList(links, head, all, {}) && FrameLists(flinks, frameHeads, frames, frame)
      ensures ChildLists(slinks, firstChild, kids, owner) && Laid(size) && OneFrame(owner, frame)
    {
      hide Laid, FrameLists, OneFrame, Inv, ChildLists, AllList;
      frameHeads, currentFrame := [], 0;
      size, frame, owner, firstChild := map[], map[], map[], map[];
      links, flinks, slinks := map[], map[], map[];
      live, head, all, frames, kids := {}, 0, [], map[], map[];
      EmptyStructures();
    }

    lemma AllFreed(members: set<nat>, m: nat, before: nat, after: nat)
      requires Balanced(members, m, before) && after == before + |members|
      ensures m == after && Balanced({}, m, after)
    {
    }

    lemma EmptyIndexes()
      requires registry.Valid() && registry.live == {} && ranges.Valid() && ranges.tree == Leaf
      ensures Indexed({})
    {
    }

    lemma UniqueMembers(links: Links, head: nat, all: seq<nat>, members: set<nat>)
      requires AllList(links, head, all, members)
      ensures |all| == |members| && IsList(links, head, all) && 0 !in all
    {
      UniqueCount(all, members);
    }

    /** yc_frame_push, with the 32-bit counter wrapping. */
    method FramePush()
      requires Valid()
      modifies this`currentFrame, this`frameHeads, this`frames
      ensures Valid() && Abs() == Step(old(Abs()), CPush)
    {
      hide FrameLists, AllList, ChildLists, Laid, OneFrame, Indexed, Inv, Core, Balanced, SameKeys;
      ValidParts();
      currentFrame := (currentFrame + 1) % FRAME_NUMBERS;
      FrameHeadsEnsure(currentFrame);
      Assemble();
    }

    /** yc_frame_pop: release list heads until the list of the current frame is empty.
        Exactly the allocations of that frame are freed. */
    method FramePop()
      requires Valid()
      modifies this, registry`count, registry`live, registry.slots, ranges
      ensures Valid() && Abs() == Step(old(Abs()), CPop)
      ensures View() == if old(currentFrame) == 0 then old(View()) else Swept(old(View()), InFrame(old(Abs()), old(currentFrame)))
      ensures forall g <- old(frames) :: g != old(currentFrame) ==> g in frames && frames[g] == old(frames)[g]
      ensures forall x <- owner :: x in kids && x in old(kids) && kids[x] == old(kids)[x]
      ensures registry.slots == old(registry.slots) && mallocs == old(mallocs)
    {
      hide Core, OneFrame, Inv, Free, InFrame, ReleaseHeader, Swept, Sub;
      if currentFrame == 0 {
        KidsListed();
        return;
      }
      ghost var start, dead := Abs(), {};
      ghost var lists := View();
      SweptNone(lists);
      PopSpares();
      var f := currentFrame;
      FreeNone(start);
      PopStart(start, f);
      while f < |frameHeads| && frameHeads[f] != 0
        invariant Valid() && registry.slots == old(registry.slots) && mallocs == old(mallocs)
        invariant currentFrame == f == start.cur
        invariant Abs() == Free(start, dead) && Inv(start) && dead <= InFrame(start, f) && View() == Swept(lists, dead)
        decreases owner.Keys
      {
        var h := frameHeads[f];
        PopStep(start, f, dead, h);
        SweptTwice(lists, dead, Sub(owner, h));
        dead := dead + Sub(owner, h);
        ReleaseTree(h);
      }
      PopEnd(start, f, dead);
      PopLeaves(start, f);
      label popped:
      if currentFrame > 0 { currentFrame := currentFrame - 1; }
      SameCore@popped(Abs());
    }

    lemma KidsListed()
      requires Valid()
      ensures forall x <- owner :: x in kids
    {
    }

    /** No other frame's list and no survivor's children have members in the popped frame. */
    lemma PopSpares()
      requires Valid()
      ensures var v := Swept(View(), InFrame(Abs(), currentFrame));
              && (forall g <- frames :: g != currentFrame ==> g in v.frames && v.frames[g] == frames[g])
              && (forall x <- owner :: x !in InFrame(Abs(), currentFrame) ==>
                    x in kids && x in v.kids && v.kids[x] == kids[x])
    {
      hide Laid, Indexed, Balanced, IsList, Forest, Minus;
      var dead := InFrame(Abs(), currentFrame);
      forall g <- frames | g != currentFrame
        ensures Minus(frames[g], dead) == frames[g]
      {
        MinusNone(frames[g], dead);
      }
      forall x <- owner | x !in dead
        ensures Minus(kids[x], dead) == kids[x]
      {
        assert forall y <- kids[x] :: owner[y] == x;
        MinusNone(kids[x], dead);
      }
    }

    lemma PopLeaves(s: State, f: nat)
      requires Abs() == Free(s, InFrame(s, f))
      ensures forall x <- owner :: x in s.owner && x !in InFrame(s, f)
    {
    }

    lemma PopStart(s: State, f: nat)
      requires Valid() && s == Abs()
      ensures Inv(s) && {} <= InFrame(s, f)
    {
    }

    lemma PopStep(s: State, f: nat, dead: set<nat>, h: nat)
      requires Valid() && Inv(s) && Abs() == Free(s, dead) && dead <= InFrame(s, f)
      requires f < |frameHeads| && frameHeads[f] == h && h != 0
      ensures h in owner && dead + Sub(owner, h) <= InFrame(s, f)
      ensures ReleaseHeader(Abs(), h) == Free(s, dead + Sub(owner, h))
      ensures Free(s, dead + Sub(owner, h)).owner.Keys < owner.Keys
      ensures Free(s, dead + Sub(owner, h)).cur == s.cur
    {
      hide Core, OneFrame, Under, Inv;
      OnFrame(f, h);
      ValidParts();
      forall x <- Sub(owner, h)
        ensures x in InFrame(s, f)
      {
        TreeFrame(Abs(), x, h);
      }
      FreeTwice(s, dead, Sub(owner, h));
      UnderSelf(owner, h);
      assert h in Sub(owner, h);
    }

    lemma OnFrame(f: nat, h: nat)
      requires Valid() && f < |frameHeads| && frameHeads[f] == h && h != 0
      ensures h in frame && frame[h] == f && h in owner
    {
      hide IsList, Forest, Laid, Indexed;
      assert f in HeadMap(frameHeads);
      HeadIsMember(flinks, HeadMap(frameHeads)[f], frames[f]);
    }

    lemma FrameEmpty(f: nat)
      requires Valid() && (f < |frameHeads| ==> frameHeads[f] == 0)
      ensures InFrame(Abs(), f) == {}
    {
      hide IsList, Forest, Laid, Indexed;
      if f < |frameHeads| {
        assert f in HeadMap(frameHeads);
        HeadIsMember(flinks, HeadMap(frameHeads)[f], frames[f]);
      }
    }

    lemma PopEnd(s: State, f: nat, dead: set<nat>)
      requires Valid() && Inv(s) && Abs() == Free(s, dead) && dead <= InFrame(s, f)
      requires f < |frameHeads| ==> frameHeads[f] == 0
      ensures dead == InFrame(s, f)
    {
      hide Core, OneFrame, Inv;
      FrameEmpty(f);
      forall x <- InFrame(s, f)
        ensures x in dead
      {
        assert x in Abs().frame ==> x in InFrame(Abs(), f);
      }
    }

    // ----- allocation -----

    /** yc_alloc. `block` is what malloc returns, 0 when it fails. */
    method Alloc(n: nat, block: nat) returns (ptr: nat)
      requires Valid() && Fits(Abs(), block, n)
      modifies this, registry, registry.slots, ranges
      ensures Valid() && Abs() == Step(old(Abs()), CAlloc(block, n))
      ensures ptr == if n > SIZE_MAX - HEADER || block == 0 then 0 else block + HEADER
      ensures registry.slots == old(registry.slots) || fresh(registry.slots)
      ensures mallocs - frees == |live| == |owner|
    {
      hide FrameLists, AllList, ChildLists, Laid, OneFrame, Indexed, Inv, Core, SameKeys, Balanced, Hash;
      ValidParts();
      BalancedMeans();
      if n > SIZE_MAX - HEADER { return 0; }
      if block == 0 { return 0; }
      ghost var before := Abs();
      AllocState(before, block, n);
      OneMore(live, block, mallocs, frees);
      AddIndexed(block);
      AddWords(block, n);
      Assemble();
      ValidParts();
      BalancedMeans();
      return block + HEADER;
    }

    lemma BalancedMeans()
      requires Balanced(live, mallocs, frees) && SameKeys(frame, owner, size, live)
      ensures mallocs - frees == |live| == |owner|
    {
    }

    lemma AllocState(s: State, h: nat, n: nat)
      requires Inv(s) && Fits(s, h, n) && n <= SIZE_MAX - HEADER && h != 0
      requires SameKeys(s.frame, s.owner, s.size, live)
      ensures h !in live && h !in s.frame && h > 1 && h + HEADER <= WORD && h < WORD
      ensures Forest(s.owner)
      ensures SameKeys(s.frame[h := s.cur], s.owner[h := 0], s.size[h := n], live + {h})
      ensures OneFrame(s.owner[h := 0], s.frame[h := s.cur]) && Laid(s.size[h := n])
    {
      AllocKeeps(s, h, n);
    }

    method AddIndexed(h: nat)
      requires Indexed(live) && h !in live && 1 < h < WORD
      modifies registry, registry.slots, ranges
      ensures Indexed(live + {h})
      ensures registry.slots == old(registry.slots) || fresh(registry.slots)
    {
      hide Good, Hash;
      registry.Add(h);
      ranges.Add(h);
    }

    /** The new header's words, and its place at the front of both lists. */
    method AddWords(h: nat, n: nat)
      requires FrameLists(flinks, frameHeads, frames, frame) && AllList(links, head, all, live)
      requires ChildLists(slinks, firstChild, kids, owner)
      requires h != 0 && h !in frame && h !in live && owner.Keys == live
      modifies this`frameHeads, this`frames, this`flinks, this`frame, this`links, this`head, this`all
      modifies this`owner, this`size, this`firstChild, this`slinks, this`kids, this`mallocs, this`live
      ensures FrameLists(flinks, frameHeads, frames, frame) && AllList(links, head, all, live)
      ensures ChildLists(slinks, firstChild, kids, owner)
      ensures frame == old(frame)[h := currentFrame] && owner == old(owner)[h := 0]
      ensures size == old(size)[h := n] && live == old(live) + {h} && mallocs == old(mallocs) + 1
    {
      hide FrameLists, AllList, ChildLists;
      Link(h, live);
      FrameLink(h, currentFrame);
      AddTreeWords(h);
      size, live := size[h := n], live + {h};
      mallocs := mallocs + 1;
    }

    method AddTreeWords(h: nat)
      requires ChildLists(slinks, firstChild, kids, owner) && h !in owner && h != 0
      modifies this`owner, this`firstChild, this`slinks, this`kids
      ensures ChildLists(slinks, firstChild, kids, owner) && owner == old(owner)[h := 0]
    {
      hide ChildLists;
      NewChildList(h);
      slinks := slinks[h := LinkedLists.Link(0, 0)];
      owner, firstChild, kids := owner[h := 0], firstChild[h := 0], kids[h := []];
    }

    lemma NewChildList(h: nat)
      requires ChildLists(slinks, firstChild, kids, owner) && h !in owner && h != 0
      ensures ChildLists(slinks[h := LinkedLists.Link(0, 0)], firstChild[h := 0], kids[h := []], owner[h := 0])
    {
      hide IsList;
      FamilyFrame(slinks, firstChild, kids, owner, h, LinkedLists.Link(0, 0));
      FamilyAdd(slinks[h := LinkedLists.Link(0, 0)], firstChild, kids, owner, h, 0);
      ForestAdd(owner, h);
    }

    /** yc_calloc: whether the product fits a word is decided by a division. */
    method Calloc(count: nat, n: nat, block: nat, ghost total: nat) returns (ptr: nat)
      requires Valid() && total == count * n && Fits(Abs(), block, total)
      modifies this, registry, registry.slots, ranges
      ensures Valid()
      ensures Abs() == if total > SIZE_MAX then old(Abs()) else Step(old(Abs()), CAlloc(block, total))
      ensures ptr == if total > SIZE_MAX || total > SIZE_MAX - HEADER || block == 0 then 0 else block + HEADER
      ensures registry.slots == old(registry.slots) || fresh(registry.slots)
    {
      hide *;
      ProductCheck(count, n, total);
      if n != 0 && count > SIZE_MAX / n { return 0; }
      var bytes := count * n;
      ptr := Alloc(bytes, block);
    }

    lemma ProductCheck(count: nat, n: nat, total: nat)
      requires total == count * n
      ensures (n != 0 && count > SIZE_MAX / n) <==> total > SIZE_MAX
    {
      if n != 0 {
        var q, r := SIZE_MAX / n, SIZE_MAX % n;
        assert SIZE_MAX == q * n + r;
        if count > q {
          assert count * n >= (q + 1) * n;
        } else {
          assert count * n <= q * n;
        }
      }
    }

    /** yc_realloc: the old block is released with everything it owns. */
    method Realloc(ptr: nat, n: nat, block: nat) returns (next: nat)
      requires Valid() && Fits(Abs(), block, n)
      modifies this, registry, registry.slots, ranges
      ensures Valid() && Abs() == Step(old(Abs()), CRealloc(ptr, block, n))
      ensures next == if (ptr != 0 && HeaderOf(old(Abs()), ptr) == 0) || n > SIZE_MAX - HEADER || block == 0 then 0
                      else block + HEADER
      ensures registry.slots == old(registry.slots) || fresh(registry.slots)
    {
      hide Core, OneFrame, Fits, ReleaseHeader;
      if ptr == 0 {
        next := Alloc(n, block);
        return;
      }
      ValidFacts();
      var oldHeader := HeaderFromPtr(ptr);
      if oldHeader == 0 { return 0; }
      next := Alloc(n, block);
      if next == 0 { return; }
      ReleasePtr(ptr);
    }

    /** yc_release. */
    method ReleasePtr(ptr: nat)
      requires Valid()
      modifies this, registry`count, registry`live, registry.slots, ranges
      ensures Valid() && Abs() == Step(old(Abs()), CRelease(ptr))
      ensures registry.slots == old(registry.slots)
    {
      hide Core, OneFrame, ReleaseHeader;
      ValidFacts();
      var h := HeaderFromPtr(ptr);
      if h == 0 {
        NoHeaderAtZero(Abs());
        return;
      }
      ReleaseTree(h);
    }

    lemma NoHeaderAtZero(s: State)
      requires 0 !in s.owner
      ensures ReleaseHeader(s, 0) == s
    {
    }

    // ----- moves -----

    /** Move a whole tree to an older frame. */
    method MoveRoot(r: nat, target: nat)
      requires Valid() && r in owner && owner[r] == 0
      modifies this`frameHeads, this`frames, this`flinks, this`frame
      ensures Valid() && Abs() == old(Abs()).(frame := Relabel(old(frame), Sub(owner, r), target))
    {
      hide FrameLists, AllList, ChildLists, Laid, OneFrame, Indexed, Inv, Core, Balanced, SameKeys, Sub, Relabel;
      ValidParts();
      RelabelFacts(Abs(), r, target);
      MoveGraph(r, target);
      Assemble();
    }

    lemma RelabelFacts(s: State, r: nat, target: nat)
      requires Inv(s) && r in s.owner && s.owner[r] == 0
      ensures s.frame.Keys == s.owner.Keys
      ensures OneFrame(s.owner, Relabel(s.frame, Sub(s.owner, r), target))
      ensures SameKeys(Relabel(s.frame, Sub(s.owner, r), target), s.owner, s.size, s.owner.Keys)
    {
      RelabelTreeKeeps(s, r, target);
    }

    /** yc_move_to_ancestor; yc_move_to_parent is the call with one level. */
    method MoveToAncestor(ptr: nat, levels: nat)
      requires Valid()
      modifies this`frameHeads, this`frames, this`flinks, this`frame
      ensures Valid() && Abs() == Step(old(Abs()), CMoveToAncestor(ptr, levels))
    {
      hide Core, OneFrame, Forest, ContainingOf, Relabel, Sub;
      ValidFacts();
      var h := HeaderContaining(ptr);
      if h == 0 { return; }
      var root := OwnerRoot(h);
      if root == 0 || levels == 0 || currentFrame == 0 { return; }
      var target := if levels >= currentFrame then 0 else currentFrame - levels;
      if frame[root] > target {
        MoveRoot(root, target);
      }
    }

    /** yc_move_to_root moves to frame 1, the frame of main. */
    method MoveToRoot(ptr: nat)
      requires Valid()
      modifies this`frameHeads, this`frames, this`flinks, this`frame
      ensures Valid() && Abs() == Step(old(Abs()), CMoveToRoot(ptr))
    {
      hide Core, OneFrame, Forest, ContainingOf, Relabel, Sub;
      ValidFacts();
      var h := HeaderContaining(ptr);
      var root := OwnerRoot(h);
      if root == 0 || frame[root] <= 1 { return; }
      MoveRoot(root, 1);
    }

    /** yc_move_frame_to_parent: tree by tree until the list of the current frame is
        empty. Exactly the allocations of that frame are relabelled. */
    method MoveFrameToParent()
      requires Valid()
      modifies this`frameHeads, this`frames, this`flinks, this`frame
      ensures Valid() && Abs() == Step(old(Abs()), CMoveFrame)
    {
      hide Core, OneFrame, Inv, Relabel, InFrame, Sub, Forest;
      if currentFrame == 0 { return; }
      ghost var start, moved := Abs(), {};
      var f := currentFrame;
      MoveStart(start, f);
      while f < |frameHeads| && frameHeads[f] != 0
        invariant Valid() && Inv(start) && moved <= InFrame(start, f) && f == start.cur > 0
        invariant Abs() == start.(frame := Relabel(start.frame, moved, f - 1))
        decreases InFrame(start, f) - moved
      {
        OnFrame(f, frameHeads[f]);
        ValidInv();
        var root := OwnerRoot(frameHeads[f]);
        MoveTreeStep(start, Abs(), f, moved, frameHeads[f], root);
        moved := moved + Sub(owner, root);
        MoveRoot(root, f - 1);
      }
      MoveEnd(start, f, moved);
    }

    lemma MoveStart(s: State, f: nat)
      requires Valid() && s == Abs()
      ensures Inv(s) && {} <= InFrame(s, f)
      ensures f > 0 ==> s == s.(frame := Relabel(s.frame, {}, f - 1))
    {
      hide FrameLists, AllList, ChildLists, Indexed, Inv, Core;
      ValidParts();
    }

    lemma MoveTreeStep(s: State, now: State, f: nat, moved: set<nat>, h: nat, r: nat)
      requires Inv(now) && moved <= InFrame(s, f) && f > 0
      requires now == s.(frame := Relabel(s.frame, moved, f - 1))
      requires h in now.owner && h in now.frame && now.frame[h] == f && r == Root(now.owner, h)
      ensures r in now.owner && now.owner[r] == 0
      ensures moved < moved + Sub(now.owner, r) <= InFrame(s, f)
      ensures Relabel(now.frame, Sub(now.owner, r), f - 1) == Relabel(s.frame, moved + Sub(now.owner, r), f - 1)
    {
      hide Forest, Laid, OneFrame, Under;
      assert h in Sub(now.owner, r);
      TreeFrame(now, h, r);
      forall x <- Sub(now.owner, r)
        ensures x in InFrame(s, f) && x !in moved
      {
        TreeFrame(now, x, r);
      }
    }

    lemma MoveEnd(s: State, f: nat, moved: set<nat>)
      requires Valid() && moved <= InFrame(s, f) && f > 0
      requires Abs() == s.(frame := Relabel(s.frame, moved, f - 1))
      requires f < |frameHeads| ==> frameHeads[f] == 0
      ensures moved == InFrame(s, f)
    {
      hide Core, OneFrame, Inv;
      FrameEmpty(f);
      forall x <- InFrame(s, f)
        ensures x in moved
      {
        assert x in Abs().frame && x !in InFrame(Abs(), f);
      }
    }

    /** yc_keep_string: copy into a fresh block of `length + 1` bytes, moved to frame 1. */
    method KeepString(length: nat, block: nat) returns (ptr: nat)
      requires Valid() && Fits(Abs(), block, length + 1)
      modifies this, registry, registry.slots, ranges
      ensures Valid()
      ensures length + 1 > SIZE_MAX - HEADER || block == 0 ==> ptr == 0 && Abs() == old(Abs())
      ensures !(length + 1 > SIZE_MAX - HEADER || block == 0) ==>
                && ptr == block + HEADER && currentFrame == old(currentFrame) && owner == old(owner)[block := 0]
                && frame == old(frame)[block := if old(currentFrame) == 0 then 0 else 1] && size == old(size)[block := length + 1]
      ensures registry.slots == old(registry.slots) || fresh(registry.slots)
    {
      hide Valid, Fits, Step, Inv, Indexed, Core;
      ValidParts();
      if block != 0 && length + 1 <= SIZE_MAX - HEADER {
        RuntimeLaws.KeptLaw(Abs(), block, length + 1);
      } else {
        RuntimeLaws.AllocLaw(Abs(), block, length + 1);
      }
      ptr := Alloc(length + 1, block);
      if ptr == 0 { return; }
      MoveToRoot(ptr);
    }

    /** yc_runtime_live_allocations: allocations minus frees, whatever happened. */
    method LiveAllocations() returns (n: nat)
      requires Valid()
      ensures n == |owner| == mallocs - frees
    {
      n := registry.count;
      RegistryCounts();
      ValidParts();
      BalancedMeans();
    }

    lemma RegistryCounts()
      requires Valid()
      ensures registry.count == |live|
    {
    }
  }
}
