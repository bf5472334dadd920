/** What each runtime call does to the live allocations, said without the linked lists
    and indexes: the frame, owner and size of every live header, and the current frame
    (yc_runtime.c:385-611). Headers are named by address; a payload pointer is HEADER
    bytes further on. */
module RuntimeSpec {
  import opened PointerHash
  import opened Ownership
  import opened Treap

  const FRAME_NUMBERS: nat := 0x1_0000_0000
  const SIZE_MAX: nat := WORD - 1

  datatype State = State(cur: nat, frame: map<nat, nat>, owner: Owners, size: map<nat, nat>)

  /** Every ownership tree lies in one frame. */
  ghost predicate OneFrame(owner: Owners, frame: map<nat, nat>) {
    && owner.Keys <= frame.Keys
    && forall c <- owner :: owner[c] in owner ==> frame[owner[c]] == frame[c]
  }

  /** Blocks fit in the address space and do not overlap. */
  ghost predicate Laid(size: map<nat, nat>) {
    && (forall h <- size :: 1 < h && h + HEADER + size[h] <= WORD)
    && Disjoint(size.Keys, size)
  }

  ghost predicate Inv(s: State) {
    && s.frame.Keys == s.owner.Keys == s.size.Keys
    && Forest(s.owner) && OneFrame(s.owner, s.frame) && Laid(s.size)
  }

  /** No allocation is in a frame that has not been pushed. */
  ghost predicate Bounded(s: State) { forall h <- s.frame :: s.frame[h] <= s.cur }

  // ----- queries -----

  function HeaderOf(s: State, ptr: nat): nat {
    if ptr >= HEADER && ptr - HEADER in s.owner then ptr - HEADER else 0
  }

  ghost predicate Around(s: State, h: nat, ptr: nat) {
    h in s.owner && h in s.size && Contains(h, s.size[h], ptr)
  }

  /** The header of a payload start, else the one block around the address, else 0. */
  ghost function ContainingOf(s: State, ptr: nat): nat {
    if HeaderOf(s, ptr) != 0 then HeaderOf(s, ptr)
    else if exists h: nat :: Around(s, h, ptr) then var h: nat :| Around(s, h, ptr); h
    else 0
  }

  // ----- building blocks -----

  function Relabel(frame: map<nat, nat>, moved: set<nat>, f: nat): (r: map<nat, nat>)
    ensures r.Keys == frame.Keys
  {
    map x | x in frame :: if x in moved then f else frame[x]
  }

  function Free(s: State, dead: set<nat>): State {
    State(s.cur, s.frame - dead, s.owner - dead, s.size - dead)
  }

  lemma FreeNone(s: State)
    ensures Free(s, {}) == s
  {
    assert s.frame - {} == s.frame;
    assert s.owner - {} == s.owner;
    assert s.size - {} == s.size;
  }

  lemma FreeTwice(s: State, a: set<nat>, b: set<nat>)
    ensures Free(Free(s, a), b) == Free(s, a + b)
  {
    assert (s.frame - a) - b == s.frame - (a + b);
    assert (s.owner - a) - b == s.owner - (a + b);
    assert (s.size - a) - b == s.size - (a + b);
  }

  /** Hang the root or detached header `c`, with its subtree, below `p`. */
  ghost function Hang(s: State, p: nat, c: nat): State
    requires p in s.frame
  {
    s.(owner := s.owner[c := p], frame := Relabel(s.frame, Sub(s.owner, c), s.frame[p]))
  }

  // ----- the calls -----

  /** `h` is the block malloc hands out, 0 when it has none. */
  function Alloc(s: State, h: nat, n: nat): State {
    if n > SIZE_MAX - HEADER || h == 0 then s
    else s.(frame := s.frame[h := s.cur], owner := s.owner[h := 0], size := s.size[h := n])
  }

  ghost function ReleaseHeader(s: State, h: nat): State {
    if h in s.owner then Free(s, Sub(s.owner, h)) else s
  }

  ghost function Release(s: State, ptr: nat): State { ReleaseHeader(s, HeaderOf(s, ptr)) }

  /** The old block goes with everything it owns; the new one starts as a root. */
  ghost function Realloc(s: State, ptr: nat, h: nat, n: nat): State {
    if ptr == 0 then Alloc(s, h, n)
    else if HeaderOf(s, ptr) == 0 || n > SIZE_MAX - HEADER || h == 0 then s
    else Release(Alloc(s, h, n), ptr)
  }

  ghost function AttachHeaders(s: State, p: nat, c: nat): State {
    if p !in s.owner || c !in s.owner || p !in s.frame then s
    else if p == c || s.owner[c] == p || Under(s.owner, p, c) then s
    else Hang(s, p, c)
  }

  ghost function Attach(s: State, parent: nat, child: nat): State {
    AttachHeaders(s, HeaderOf(s, parent), HeaderOf(s, child))
  }

  ghost function AttachToOwner(s: State, parent: nat, child: nat): State {
    var h := ContainingOf(s, parent);
    if HeaderOf(s, child) == 0 || h !in s.owner || !Forest(s.owner) then s
    else AttachHeaders(s, Root(s.owner, h), HeaderOf(s, child))
  }

  ghost function Replace(s: State, parent: nat, oldChild: nat, newChild: nat): State {
    var p, o, n := HeaderOf(s, parent), HeaderOf(s, oldChild), HeaderOf(s, newChild);
    if p == 0 || n == 0 || parent == newChild then s
    else
      var s' := if o != 0 && s.owner[o] == p then s.(owner := s.owner[o := 0]) else s;
      AttachHeaders(s', p, n)
  }

  /** Move the whole tree around `ptr` down to frame `target`, never up. */
  ghost function MoveTree(s: State, ptr: nat, target: nat): State {
    var h := ContainingOf(s, ptr);
    if h !in s.owner || !Forest(s.owner) then s
    else
      var r := Root(s.owner, h);
      if r in s.frame && s.frame[r] > target then s.(frame := Relabel(s.frame, Sub(s.owner, r), target)) else s
  }

  ghost function MoveToAncestor(s: State, ptr: nat, levels: nat): State {
    if levels == 0 || s.cur == 0 then s
    else MoveTree(s, ptr, if levels >= s.cur then 0 else s.cur - levels)
  }

  function InFrame(s: State, f: nat): set<nat> { set x | x in s.frame && s.frame[x] == f }

  function MoveFrameToParent(s: State): State {
    if s.cur == 0 then s else s.(frame := Relabel(s.frame, InFrame(s, s.cur), s.cur - 1))
  }

  function FramePush(s: State): State { s.(cur := (s.cur + 1) % FRAME_NUMBERS) }

  function FramePop(s: State): State {
    if s.cur == 0 then s else Free(s, InFrame(s, s.cur)).(cur := s.cur - 1)
  }

  datatype Call =
    | CAlloc(h: nat, n: nat)
    | CRealloc(ptr: nat, h: nat, n: nat)
    | CRelease(ptr: nat)
    | CAttach(parent: nat, child: nat)
    | CAttachToOwner(parent: nat, child: nat)
    | CReplace(parent: nat, oldChild: nat, newChild: nat)
    | CMoveToAncestor(ptr: nat, levels: nat)
    | CMoveToRoot(ptr: nat)
    | CMoveFrame
    | CPush
    | CPop
    | CInit
    | CShutdown

  ghost function Step(s: State, c: Call): State {
    match c
    case CAlloc(h, n) => Alloc(s, h, n)
    case CRealloc(ptr, h, n) => Realloc(s, ptr, h, n)
    case CRelease(ptr) => Release(s, ptr)
    case CAttach(p, ch) => Attach(s, p, ch)
    case CAttachToOwner(p, ch) => AttachToOwner(s, p, ch)
    case CReplace(p, o, n) => Replace(s, p, o, n)
    case CMoveToAncestor(ptr, levels) => MoveToAncestor(s, ptr, levels)
    case CMoveToRoot(ptr) => MoveTree(s, ptr, 1)
    case CMoveFrame => MoveFrameToParent(s)
    case CPush => FramePush(s)
    case CPop => FramePop(s)
    case CInit => s.(cur := 0)
    case CShutdown => EmptyState()
  }

  function EmptyState(): State { State(0, map[], map[], map[]) }

  /** What malloc promises: a block inside the address space, clear of every live one. */
  ghost predicate Fits(s: State, h: nat, n: nat) {
    h != 0 && n <= SIZE_MAX - HEADER ==>
      && 1 < h && h + HEADER + n <= WORD && h !in s.size
      && forall a <- s.size :: a + HEADER + s.size[a] <= h || h + HEADER + n <= a
  }

  ghost predicate Legal(s: State, c: Call) {
    match c
    case CAlloc(h, n) => Fits(s, h, n)
    case CRealloc(_, h, n) => Fits(s, h, n)
    case _ => true
  }

  // ----- every call keeps the invariant -----

  lemma AllocKeeps(s: State, h: nat, n: nat)
    requires Inv(s) && Fits(s, h, n)
    ensures Inv(Alloc(s, h, n))
  {
    if n <= SIZE_MAX - HEADER && h != 0 {
      ForestAdd(s.owner, h);
    }
  }

  lemma FreeKeeps(s: State, dead: set<nat>)
    requires Inv(s) && DownClosed(s.owner, dead)
    ensures Inv(Free(s, dead))
  {
    ForestFree(s.owner, dead);
  }

  lemma ReleaseKeeps(s: State, h: nat)
    requires Inv(s)
    ensures Inv(ReleaseHeader(s, h))
  {
    if h in s.owner {
      SubDownClosed(s.owner, h);
      FreeKeeps(s, Sub(s.owner, h));
    }
  }

  lemma DetachKeeps(s: State, h: nat)
    requires Inv(s) && h in s.owner
    ensures Inv(s.(owner := s.owner[h := 0]))
  {
    ForestDetach(s.owner, h);
  }

  lemma AttachKeeps(s: State, p: nat, c: nat)
    requires Inv(s)
    ensures Inv(AttachHeaders(s, p, c))
  {
    var s' := AttachHeaders(s, p, c);
    if s' != s {
      ForestLink(s.owner, p, c);
      SubDownClosed(s.owner, c);
      UnderSelf(s.owner, c);
      forall x <- s'.owner | s'.owner[x] in s'.owner
        ensures s'.frame[s'.owner[x]] == s'.frame[x]
      {
        if x == c {
          assert p !in Sub(s.owner, c);
        } else if x in Sub(s.owner, c) {
          UnderStep(s.owner, x, c);
        }
      }
    }
  }

  lemma MoveKeeps(s: State, ptr: nat, target: nat)
    requires Inv(s)
    ensures Inv(MoveTree(s, ptr, target))
  {
    var s' := MoveTree(s, ptr, target);
    if s' != s {
      var r := Root(s.owner, ContainingOf(s, ptr));
      RelabelTreeKeeps(s, r, target);
    }
  }

  lemma RelabelTreeKeeps(s: State, r: nat, target: nat)
    requires Inv(s) && r in s.owner && s.owner[r] == 0
    ensures Inv(s.(frame := Relabel(s.frame, Sub(s.owner, r), target)))
  {
    SubDownClosed(s.owner, r);
    forall x <- s.owner | s.owner[x] in s.owner && x in Sub(s.owner, r)
      ensures s.owner[x] in Sub(s.owner, r)
    {
      UnderStep(s.owner, x, r);
    }
  }

  lemma FrameDownClosed(s: State, f: nat)
    requires Inv(s)
    ensures DownClosed(s.owner, InFrame(s, f))
  {
  }

  lemma PopKeeps(s: State)
    requires Inv(s)
    ensures Inv(FramePop(s))
  {
    FrameDownClosed(s, s.cur);
    FreeKeeps(s, InFrame(s, s.cur));
  }

  lemma ReallocKeeps(s: State, ptr: nat, h: nat, n: nat)
    requires Inv(s) && Fits(s, h, n)
    ensures Inv(Realloc(s, ptr, h, n))
  {
    AllocKeeps(s, h, n);
    ReleaseKeeps(Alloc(s, h, n), HeaderOf(Alloc(s, h, n), ptr));
  }

  lemma AttachToOwnerKeeps(s: State, p: nat, c: nat)
    requires Inv(s)
    ensures Inv(AttachToOwner(s, p, c))
  {
    var h := ContainingOf(s, p);
    if h in s.owner { AttachKeeps(s, Root(s.owner, h), HeaderOf(s, c)); }
  }

  lemma EmptyInv()
    ensures Inv(EmptyState())
  {
    assert Ranked(EmptyState().owner, map[]);
  }

  lemma CurIsFree(s: State, f: nat)
    requires Inv(s)
    ensures Inv(s.(cur := f))
  {
  }

  /** Any call, in any order, keeps the forest acyclic, each tree in one frame, and the
      blocks apart. */
  lemma StepKeeps(s: State, c: Call)
    requires Inv(s) && Legal(s, c)
    ensures Inv(Step(s, c))
  {
    hide Inv, Fits, Realloc, AttachToOwner, Replace, MoveTree, MoveFrameToParent, FramePop;
    hide AttachHeaders, ReleaseHeader;
    match c
    case CAlloc(h, n) => AllocKeeps(s, h, n);
    case CRealloc(ptr, h, n) => ReallocKeeps(s, ptr, h, n);
    case CRelease(ptr) => ReleaseKeeps(s, HeaderOf(s, ptr));
    case CAttach(p, ch) => AttachKeeps(s, HeaderOf(s, p), HeaderOf(s, ch));
    case CAttachToOwner(p, ch) => AttachToOwnerKeeps(s, p, ch);
    case CReplace(p, o, n) => ReplaceKeeps(s, p, o, n);
    case CMoveToAncestor(ptr, levels) =>
      MoveKeeps(s, ptr, if levels >= s.cur then 0 else s.cur - levels);
    case CMoveToRoot(ptr) => MoveKeeps(s, ptr, 1);
    case CMoveFrame => MoveFrameKeeps(s);
    case CPush => CurIsFree(s, (s.cur + 1) % FRAME_NUMBERS);
    case CPop => PopKeeps(s);
    case CInit => CurIsFree(s, 0);
    case CShutdown => EmptyInv();
  }

  lemma ReplaceKeeps(s: State, p: nat, o: nat, n: nat)
    requires Inv(s)
    ensures Inv(Replace(s, p, o, n))
  {
    var oh := HeaderOf(s, o);
    AttachKeeps(s, HeaderOf(s, p), HeaderOf(s, n));
    if oh in s.owner {
      DetachKeeps(s, oh);
      AttachKeeps(s.(owner := s.owner[oh := 0]), HeaderOf(s, p), HeaderOf(s, n));
    }
  }

  lemma MoveFrameKeeps(s: State)
    requires Inv(s)
    ensures Inv(MoveFrameToParent(s))
  {
  }

  // ----- runs -----

  ghost function Run(s: State, cs: seq<Call>): State
    decreases |cs|
  {
    if cs == [] then s else Run(Step(s, cs[0]), cs[1..])
  }

  ghost predicate LegalRun(s: State, cs: seq<Call>)
    decreases |cs|
  {
    cs == [] || (Legal(s, cs[0]) && LegalRun(Step(s, cs[0]), cs[1..]))
  }

  lemma {:induction false} RunKeeps(s: State, cs: seq<Call>)
    requires Inv(s) && LegalRun(s, cs)
    ensures Inv(Run(s, cs))
    decreases |cs|
  {
    hide Inv, Legal, Step;
    if cs != [] {
      StepKeeps(s, cs[0]);
      RunKeeps(Step(s, cs[0]), cs[1..]);
    }
  }

  /** The frame bound survives a call unless the frame counter is moved below a live
      allocation: by a push that wraps the 32-bit counter, or by an init that resets it. */
  ghost predicate CounterSafe(s: State, c: Call) {
    match c
    case CPush => s.cur + 1 < FRAME_NUMBERS || InFrames(s, 0)
    case CInit => InFrames(s, 0)
    case _ => true
  }

  ghost predicate InFrames(s: State, f: nat) { forall h <- s.frame :: s.frame[h] <= f }

  lemma AttachBounded(s: State, p: nat, c: nat)
    requires Bounded(s)
    ensures Bounded(AttachHeaders(s, p, c))
  {
  }

  lemma ReleaseBounded(s: State, h: nat)
    requires Bounded(s)
    ensures Bounded(ReleaseHeader(s, h))
  {
  }

  lemma MoveBounded(s: State, ptr: nat, target: nat)
    requires Bounded(s) && Inv(s)
    ensures Bounded(MoveTree(s, ptr, target))
  {
    MoveTreeNeverRaises(s, ptr, target);
  }

  lemma ReplaceBounded(s: State, p: nat, o: nat, n: nat)
    requires Bounded(s)
    ensures Bounded(Replace(s, p, o, n))
  {
    hide AttachHeaders;
    var oh := HeaderOf(s, o);
    AttachBounded(s, HeaderOf(s, p), HeaderOf(s, n));
    AttachBounded(s.(owner := s.owner[oh := 0]), HeaderOf(s, p), HeaderOf(s, n));
  }

  lemma AllocBounded(s: State, h: nat, n: nat)
    requires Bounded(s)
    ensures Bounded(Alloc(s, h, n))
  {
  }

  lemma PopBounded(s: State)
    requires Bounded(s)
    ensures Bounded(FramePop(s)) && Bounded(MoveFrameToParent(s))
  {
  }

  lemma BoundedExactly(s: State, c: Call)
    requires Inv(s) && Bounded(s) && s.cur < FRAME_NUMBERS
    ensures Bounded(Step(s, c)) <==> CounterSafe(s, c)
  {
    hide Inv, AttachHeaders, ReleaseHeader, MoveTree, Replace, Alloc, FramePop, MoveFrameToParent;
    hide ContainingOf;
    AllocBoundedForCall(s, c);
    PopBounded(s);
    match c
    case CRelease(ptr) => ReleaseBounded(s, HeaderOf(s, ptr));
    case CAttach(p, ch) => AttachBounded(s, HeaderOf(s, p), HeaderOf(s, ch));
    case CAttachToOwner(p, ch) =>
      var h := ContainingOf(s, p);
      if h in s.owner && Forest(s.owner) { AttachBounded(s, Root(s.owner, h), HeaderOf(s, ch)); }
    case CReplace(p, o, n) => ReplaceBounded(s, p, o, n);
    case CMoveToAncestor(ptr, levels) =>
      MoveBounded(s, ptr, if levels >= s.cur then 0 else s.cur - levels);
    case CMoveToRoot(ptr) => MoveBounded(s, ptr, 1);
    case _ =>
  }

  lemma AllocBoundedForCall(s: State, c: Call)
    requires Bounded(s)
    ensures c.CAlloc? || c.CRealloc? ==> Bounded(Step(s, c))
  {
    hide Alloc, ReleaseHeader;
    match c
    case CAlloc(h, n) => AllocBounded(s, h, n);
    case CRealloc(ptr, h, n) =>
      AllocBounded(s, h, n);
      ReleaseBounded(Alloc(s, h, n), HeaderOf(Alloc(s, h, n), ptr));
    case _ =>
  }

  /** The frame bound holds before and after every call of a run. */
  ghost predicate BoundedRun(s: State, cs: seq<Call>)
    decreases |cs|
  {
    Bounded(s) && (cs == [] || BoundedRun(Step(s, cs[0]), cs[1..]))
  }

  ghost predicate CounterSafeRun(s: State, cs: seq<Call>)
    decreases |cs|
  {
    cs == [] || (CounterSafe(s, cs[0]) && CounterSafeRun(Step(s, cs[0]), cs[1..]))
  }

  lemma StepCur(s: State, c: Call)
    requires s.cur < FRAME_NUMBERS
    ensures Step(s, c).cur < FRAME_NUMBERS
  {
    hide Forest, Under, Sub, ContainingOf, Relabel;
  }

  /** Over a whole run: bounded throughout exactly when every call is safe when it is made. */
  lemma {:induction false} RunBoundedExactly(s: State, cs: seq<Call>)
    requires Inv(s) && Bounded(s) && s.cur < FRAME_NUMBERS && LegalRun(s, cs)
    ensures BoundedRun(s, cs) <==> CounterSafeRun(s, cs)
    decreases |cs|
  {
    hide Inv, Legal, Step, CounterSafe, Bounded;
    if cs != [] {
      StepKeeps(s, cs[0]);
      StepCur(s, cs[0]);
      BoundedExactly(s, cs[0]);
      if CounterSafe(s, cs[0]) { RunBoundedExactly(Step(s, cs[0]), cs[1..]); }
    }
  }

  ghost predicate NoneRaised(s: State, s': State) {
    s'.frame.Keys == s.frame.Keys && forall x <- s.frame :: s'.frame[x] <= s.frame[x]
  }

  /** The moves that follow an escaping pointer only ever lower frame numbers. */
  lemma MovesNeverRaise(s: State, ptr: nat, levels: nat)
    requires Inv(s)
    ensures NoneRaised(s, MoveToAncestor(s, ptr, levels))
    ensures NoneRaised(s, MoveTree(s, ptr, 1))
    ensures NoneRaised(s, MoveFrameToParent(s))
  {
    hide Inv, MoveTree, ContainingOf;
    MoveTreeNeverRaises(s, ptr, 1);
    MoveTreeNeverRaises(s, ptr, if levels >= s.cur then 0 else s.cur - levels);
  }

  lemma MoveTreeNeverRaises(s: State, ptr: nat, target: nat)
    requires Inv(s)
    ensures NoneRaised(s, MoveTree(s, ptr, target))
  {
    var h := ContainingOf(s, ptr);
    if h in s.owner {
      var r := Root(s.owner, h);
      forall x <- Sub(s.owner, r)
        ensures s.frame[x] == s.frame[r]
      {
        TreeFrame(s, x, r);
      }
    }
  }

  /** All of a subtree is in the frame of its top. */
  lemma TreeFrame(s: State, x: nat, r: nat)
    requires Inv(s) && x in Sub(s.owner, r)
    ensures r in s.owner && s.frame[x] == s.frame[r]
  {
    UnderLive(s.owner, x, r);
    var k: nat :| Up(s.owner, x, k) == r;
    TreeFrameUp(s, x, k);
  }

  lemma {:induction false} TreeFrameUp(s: State, x: nat, k: nat)
    requires Inv(s) && x in s.owner && Up(s.owner, x, k) in s.owner
    ensures s.frame[Up(s.owner, x, k)] == s.frame[x]
    decreases k
  {
    if k > 0 {
      UpZero(s.owner, k - 1);
      TreeFrameUp(s, s.owner[x], k - 1);
    }
  }

  /** Attaching does raise a frame number exactly when the new owner is younger. */
  lemma AttachRaisesExactly(s: State, p: nat, c: nat)
    requires Inv(s) && p in s.owner && c in s.owner
    requires AttachHeaders(s, p, c) != s
    ensures AttachHeaders(s, p, c).frame.Keys == s.frame.Keys
    ensures (exists x <- s.frame :: AttachHeaders(s, p, c).frame[x] > s.frame[x]) <==> s.frame[p] > s.frame[c]
  {
    UnderSelf(s.owner, c);
    forall x <- Sub(s.owner, c)
      ensures s.frame[x] == s.frame[c]
    {
      TreeFrame(s, x, c);
    }
    assert c in Sub(s.owner, c);
  }
}
