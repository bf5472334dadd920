/** The address-ordered treap as a value: what the recursive link surgery of
    yc_runtime.c:62-121 computes, and why its shape depends on the live set alone. */
module Treap {
  import opened PointerHash

  datatype Tree = Leaf | Node(p: nat, l: Tree, r: Tree)

  ghost function Elems(t: Tree): set<nat> {
    match t
    case Leaf => {}
    case Node(p, l, r) => {p} + Elems(l) + Elems(r)
  }

  ghost predicate Words(t: Tree) { forall x <- Elems(t) :: 0 < x < WORD }

  ghost predicate Ordered(t: Tree) {
    match t
    case Leaf => true
    case Node(p, l, r) =>
      && Ordered(l) && Ordered(r)
      && (forall x <- Elems(l) :: x < p)
      && (forall x <- Elems(r) :: p < x)
  }

  ghost predicate Above(p: nat, t: Tree) { forall x <- Elems(t) :: Hash(p) < Hash(x) }

  /** Smallest hash on top. */
  ghost predicate Heaped(t: Tree) {
    match t
    case Leaf => true
    case Node(p, l, r) => Heaped(l) && Heaped(r) && Above(p, l) && Above(p, r)
  }

  ghost predicate Good(t: Tree) { Words(t) && Ordered(t) && Heaped(t) }

  function Merge(a: Tree, b: Tree): Tree {
    if a.Leaf? then b
    else if b.Leaf? then a
    else if Hash(a.p) < Hash(b.p) then Node(a.p, a.l, Merge(a.r, b))
    else Node(b.p, Merge(a, b.l), b.r)
  }

  function Insert(t: Tree, p: nat): (t': Tree)
    ensures t'.Node?
  {
    if t.Leaf? then Node(p, Leaf, Leaf)
    else if p < t.p then
      var l := Insert(t.l, p);
      if Hash(l.p) < Hash(t.p) then Node(l.p, l.l, Node(t.p, l.r, t.r))
      else Node(t.p, l, t.r)
    else
      var r := Insert(t.r, p);
      if Hash(r.p) < Hash(t.p) then Node(r.p, Node(t.p, t.l, r.l), r.r)
      else Node(t.p, t.l, r)
  }

  function Remove(t: Tree, p: nat): Tree {
    if t.Leaf? then Leaf
    else if t.p == p then Merge(t.l, t.r)
    else if p < t.p then Node(t.p, Remove(t.l, p), t.r)
    else Node(t.p, t.l, Remove(t.r, p))
  }

  /** The last node on the search path whose payload starts at or before the address. */
  function Search(t: Tree, address: nat, candidate: nat): nat {
    if t.Leaf? then candidate
    else if address < t.p + HEADER then Search(t.l, address, candidate)
    else Search(t.r, address, t.p)
  }

  // ----- the operations keep both orders and act as set operations -----

  lemma Parts(t: Tree)
    requires t.Node? && Good(t)
    ensures Good(t.l) && Good(t.r) && 0 < t.p < WORD
    ensures Elems(t.l) == set x | x in Elems(t) && x < t.p
    ensures Elems(t.r) == set x | x in Elems(t) && t.p < x
    ensures Elems(t) == {t.p} + Elems(t.l) + Elems(t.r)
  {
    hide Hash;
    assert Elems(t.l) <= Elems(t) && Elems(t.r) <= Elems(t);
  }

  lemma Join(p: nat, l: Tree, r: Tree)
    requires Good(l) && Good(r) && 0 < p < WORD
    requires forall x <- Elems(l) :: x < p && Hash(p) < Hash(x)
    requires forall x <- Elems(r) :: p < x && Hash(p) < Hash(x)
    ensures Good(Node(p, l, r))
    ensures Elems(Node(p, l, r)) == {p} + Elems(l) + Elems(r)
  {
    hide Hash;
    var t := Node(p, l, r);
    assert Above(p, l) && Above(p, r);
    assert Words(t) by {
      forall x <- Elems(t) ensures 0 < x < WORD {
        assert x == p || x in Elems(l) || x in Elems(r);
      }
    }
  }

  /** The root has the least hash, strictly: hashes of distinct addresses differ. */
  lemma RootLeast(t: Tree, x: nat)
    requires t.Node? && Good(t) && x in Elems(t)
    ensures x == t.p || Hash(t.p) < Hash(x)
  {
    hide Hash;
  }

  lemma Below(p: nat, t: Tree)
    requires Good(t) && 0 < p < WORD
    requires t.Node? ==> Hash(p) < Hash(t.p)
    ensures forall x <- Elems(t) :: Hash(p) < Hash(x)
  {
    hide Hash;
    forall x <- Elems(t)
      ensures Hash(p) < Hash(x)
    {
      RootLeast(t, x);
    }
  }

  lemma {:induction false} MergeGood(a: Tree, b: Tree)
    requires Good(a) && Good(b)
    requires forall x, y | x in Elems(a) && y in Elems(b) :: x < y
    ensures Good(Merge(a, b))
    ensures Elems(Merge(a, b)) == Elems(a) + Elems(b)
  {
    hide Hash;
    if a.Node? && b.Node? {
      Parts(a);
      Parts(b);
      if Hash(a.p) < Hash(b.p) {
        MergeGood(a.r, b);
        Below(a.p, b);
        Join(a.p, a.l, Merge(a.r, b));
      } else {
        if Hash(a.p) == Hash(b.p) { HashInjective(a.p, b.p); }
        MergeGood(a, b.l);
        Below(b.p, a);
        Join(b.p, Merge(a, b.l), b.r);
      }
    }
  }

  lemma {:induction false} InsertGood(t: Tree, p: nat)
    requires Good(t) && 0 < p < WORD && p !in Elems(t)
    ensures Good(Insert(t, p))
    ensures Elems(Insert(t, p)) == Elems(t) + {p}
  {
    hide Hash;
    if t.Leaf? {
      Join(p, Leaf, Leaf);
    } else {
      Parts(t);
      if p < t.p {
        InsertGood(t.l, p);
        InsertLeft(t, p);
      } else {
        InsertGood(t.r, p);
        InsertRight(t, p);
      }
    }
  }

  lemma InsertLeft(t: Tree, p: nat)
    requires t.Node? && Good(t) && 0 < p < t.p && p !in Elems(t)
    requires Good(Insert(t.l, p)) && Elems(Insert(t.l, p)) == Elems(t.l) + {p}
    ensures Good(Insert(t, p)) && Elems(Insert(t, p)) == Elems(t) + {p}
  {
    hide Hash;
    var l := Insert(t.l, p);
    Parts(t);
    Parts(l);
    RaisedChildren(t);
    if Hash(l.p) < Hash(t.p) {
      RaisedIsNew(t, t.l, l.p, p);
      RaisedChildren(l);
      var low := Node(t.p, l.r, t.r);
      Join(t.p, l.r, t.r);
      Below(l.p, low);
      Join(l.p, l.l, low);
    } else {
      if Hash(l.p) == Hash(t.p) { HashInjective(l.p, t.p); }
      Below(t.p, l);
      Join(t.p, l, t.r);
    }
  }

  lemma InsertRight(t: Tree, p: nat)
    requires t.Node? && Good(t) && t.p < p < WORD && p !in Elems(t)
    requires Good(Insert(t.r, p)) && Elems(Insert(t.r, p)) == Elems(t.r) + {p}
    ensures Good(Insert(t, p)) && Elems(Insert(t, p)) == Elems(t) + {p}
  {
    hide Hash;
    var r := Insert(t.r, p);
    Parts(t);
    Parts(r);
    RaisedChildren(t);
    if Hash(r.p) < Hash(t.p) {
      RaisedIsNew(t, t.r, r.p, p);
      RaisedChildren(r);
      var low := Node(t.p, t.l, r.l);
      Join(t.p, t.l, r.l);
      Below(r.p, low);
      Join(r.p, low, r.r);
    } else {
      if Hash(r.p) == Hash(t.p) { HashInjective(r.p, t.p); }
      Below(t.p, r);
      Join(t.p, t.l, r);
    }
  }

  /** Only the new node can outrank the old root. */
  lemma RaisedIsNew(t: Tree, side: Tree, top: nat, p: nat)
    requires t.Node? && Good(t) && side in {t.l, t.r}
    requires top in Elems(side) + {p} && Hash(top) < Hash(t.p)
    ensures top == p
    ensures forall x <- Elems(side) :: Hash(t.p) < Hash(x)
  {
    hide Hash;
  }

  lemma RaisedChildren(t: Tree)
    requires t.Node? && Good(t)
    ensures forall x <- Elems(t.l) :: x < t.p && Hash(t.p) < Hash(x)
    ensures forall x <- Elems(t.r) :: t.p < x && Hash(t.p) < Hash(x)
  {
    hide Hash;
  }

  lemma {:induction false} RemoveGood(t: Tree, p: nat)
    requires Good(t)
    ensures Good(Remove(t, p))
    ensures Elems(Remove(t, p)) == Elems(t) - {p}
  {
    hide Hash;
    if t.Node? {
      Parts(t);
      RaisedChildren(t);
      if t.p == p {
        MergeGood(t.l, t.r);
      } else if p < t.p {
        RemoveGood(t.l, p);
        Join(t.p, Remove(t.l, p), t.r);
      } else {
        RemoveGood(t.r, p);
        Join(t.p, t.l, Remove(t.r, p));
      }
    }
  }

  // ----- canonicity -----

  /** Two treaps over the same addresses are the same tree. */
  lemma {:induction false} Canonical(s: Tree, t: Tree)
    requires Good(s) && Good(t)
    requires Elems(s) == Elems(t)
    ensures s == t
  {
    hide Hash;
    assert s.Leaf? <==> Elems(s) == {} by { if s.Node? { assert s.p in Elems(s); } }
    assert t.Leaf? <==> Elems(t) == {} by { if t.Node? { assert t.p in Elems(t); } }
    if s.Node? {
      Parts(s);
      Parts(t);
      RootLeast(s, t.p);
      RootLeast(t, s.p);
      Canonical(s.l, t.l);
      Canonical(s.r, t.r);
    }
  }

  /** One index update: the runtime only adds addresses that are not yet live. */
  datatype Update = Add(p: nat) | Del(p: nat)

  function Apply(t: Tree, u: Update): Tree {
    match u
    case Add(p) => Insert(t, p)
    case Del(p) => Remove(t, p)
  }

  function Replay(us: seq<Update>): Tree {
    if us == [] then Leaf else Apply(Replay(us[..|us| - 1]), us[|us| - 1])
  }

  function Members(us: seq<Update>): set<nat> {
    if us == [] then {}
    else
      var m := Members(us[..|us| - 1]);
      match us[|us| - 1]
      case Add(p) => m + {p}
      case Del(p) => m - {p}
  }

  predicate Legal(us: seq<Update>) {
    us == [] ||
    (&& Legal(us[..|us| - 1])
     && var u := us[|us| - 1];
        u.Add? ==> 0 < u.p < WORD && u.p !in Members(us[..|us| - 1]))
  }

  lemma {:induction false} ReplayGood(us: seq<Update>)
    requires Legal(us)
    ensures Good(Replay(us)) && Elems(Replay(us)) == Members(us)
  {
    if us != [] {
      ReplayGood(us[..|us| - 1]);
      var t, u := Replay(us[..|us| - 1]), us[|us| - 1];
      if u.Add? { InsertGood(t, u.p); } else { RemoveGood(t, u.p); }
    }
  }

  /** Whatever the allocation history, the tree is a function of the live set. */
  lemma HistoryIndependent(us: seq<Update>, vs: seq<Update>)
    requires Legal(us) && Legal(vs) && Members(us) == Members(vs)
    ensures Replay(us) == Replay(vs)
  {
    ReplayGood(us);
    ReplayGood(vs);
    Canonical(Replay(us), Replay(vs));
  }

  // ----- interior pointers -----

  /** The search stops at the greatest address whose payload starts at or below the query. */
  lemma {:induction false} SearchIsPredecessor(t: Tree, address: nat, candidate: nat)
    requires Ordered(t)
    requires forall x <- Elems(t) :: candidate < x
    ensures var c := Search(t, address, candidate);
            && (c == candidate || (c in Elems(t) && c + HEADER <= address))
            && (forall x <- Elems(t) :: x + HEADER <= address ==> x <= c)
  {
    if t.Node? {
      if address < t.p + HEADER {
        assert Elems(t.l) <= Elems(t);
        SearchIsPredecessor(t.l, address, candidate);
      } else {
        SearchIsPredecessor(t.r, address, t.p);
      }
    }
  }

  ghost predicate Contains(h: nat, size: nat, address: nat) {
    h + HEADER <= address < h + HEADER + size
  }

  /** Live blocks do not overlap. */
  ghost predicate Disjoint(live: set<nat>, size: map<nat, nat>) {
    && live <= size.Keys
    && forall a, b | a in live && b in live && a < b :: a + HEADER + size[a] <= b
  }

  /** yc_range_find over the tree: the candidate if the address lies in its payload. */
  function Find(t: Tree, size: map<nat, nat>, address: nat): nat {
    var c := Search(t, address, 0);
    if c in size && address - (c + HEADER) < size[c] && c != 0 then c else 0
  }

  /** A block that starts later and still at or below the address leaves no room for an
      earlier one to contain it. */
  lemma LaterBlockClears(live: set<nat>, size: map<nat, nat>, address: nat, x: nat, c: nat)
    requires Disjoint(live, size) && x in live && c in live
    requires c + HEADER <= address
    ensures x < c ==> !Contains(x, size[x], address)
  {
    assert x < c ==> x + HEADER + size[x] <= c;
  }

  /** The answer is the one live block around the address, or 0 exactly when there is
      none: what a scan of every block would say. */
  lemma FindIsScan(t: Tree, size: map<nat, nat>, address: nat)
    requires Good(t) && Disjoint(Elems(t), size)
    ensures var h := Find(t, size, address);
            if h != 0 then
              && h in Elems(t) && Contains(h, size[h], address)
              && (forall x <- Elems(t) :: Contains(x, size[x], address) ==> x == h)
            else forall x <- Elems(t) :: !Contains(x, size[x], address)
  {
    hide Hash;
    SearchIsPredecessor(t, address, 0);
    var c := Search(t, address, 0);
    forall x <- Elems(t) | Contains(x, size[x], address)
      ensures x == c
    {
      LaterBlockClears(Elems(t), size, address, x, c);
    }
  }
}
