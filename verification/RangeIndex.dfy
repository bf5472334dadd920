/** The treap as the runtime keeps it: a root pointer and the range_left and range_right
    words of the headers, rewritten in place (yc_runtime.c:62-121). Each method is proved
    against the tree-valued function of the same name in Treap. */
module RangeIndex {
  import opened PointerHash
  import opened Treap

  type Links = map<nat, nat>

  /** The words reachable from `root` spell out the tree. Address 0 is the null pointer. */
  ghost predicate Spells(left: Links, right: Links, root: nat, t: Tree)
    decreases t
  {
    match t
    case Leaf => root == 0
    case Node(p, l, r) =>
      && root == p && p != 0 && p in left && p in right
      && Spells(left, right, left[p], l)
      && Spells(left, right, right[p], r)
  }

  ghost predicate Agree(m: Links, m': Links, s: set<nat>) {
    forall x <- s :: x in m ==> x in m' && m'[x] == m[x]
  }

  /** Only words of nodes in `s` changed. */
  ghost predicate OnlyIn(m: Links, m': Links, s: set<nat>) {
    m'.Keys == m.Keys && forall x <- m :: x !in s ==> m'[x] == m[x]
  }

  lemma {:induction false} SpellsFrame(left: Links, right: Links, left': Links, right': Links, root: nat, t: Tree)
    requires Spells(left, right, root, t)
    requires Agree(left, left', Elems(t)) && Agree(right, right', Elems(t))
    ensures Spells(left', right', root, t)
    decreases t
  {
    if t.Node? {
      assert Elems(t.l) <= Elems(t) && Elems(t.r) <= Elems(t);
      SpellsFrame(left, right, left', right', left[t.p], t.l);
      SpellsFrame(left, right, left', right', right[t.p], t.r);
    }
  }

  /** Storing a subtree root into one link word of a node outside both subtrees. */
  lemma RelinkLeft(left: Links, right: Links, at: nat, child: nat, l: Tree, r: Tree)
    requires at != 0 && at in left && at in right && at !in Elems(l) && at !in Elems(r)
    requires Spells(left, right, child, l) && Spells(left, right, right[at], r)
    ensures Spells(left[at := child], right, at, Node(at, l, r))
  {
    SpellsFrame(left, right, left[at := child], right, child, l);
    SpellsFrame(left, right, left[at := child], right, right[at], r);
  }

  lemma RelinkRight(left: Links, right: Links, at: nat, child: nat, l: Tree, r: Tree)
    requires at != 0 && at in left && at in right && at !in Elems(l) && at !in Elems(r)
    requires Spells(left, right, left[at], l) && Spells(left, right, child, r)
    ensures Spells(left, right[at := child], at, Node(at, l, r))
  {
    SpellsFrame(left, right, left, right[at := child], left[at], l);
    SpellsFrame(left, right, left, right[at := child], child, r);
  }

  /** No address occurs twice, so no word is shared between subtrees. */
  ghost predicate Distinct(t: Tree) {
    match t
    case Leaf => true
    case Node(p, l, r) =>
      && Distinct(l) && Distinct(r)
      && p !in Elems(l) && p !in Elems(r) && Elems(l) !! Elems(r)
  }

  lemma {:induction false} OrderedDistinct(t: Tree)
    requires Ordered(t)
    ensures Distinct(t)
  {
    if t.Node? {
      OrderedDistinct(t.l);
      OrderedDistinct(t.r);
    }
  }

  lemma {:induction false} MergeElems(a: Tree, b: Tree)
    ensures Elems(Merge(a, b)) == Elems(a) + Elems(b)
  {
    hide Hash;
    if a.Node? && b.Node? {
      if Hash(a.p) < Hash(b.p) { MergeElems(a.r, b); } else { MergeElems(a, b.l); }
    }
  }

  lemma {:induction false} InsertElems(t: Tree, p: nat)
    ensures Elems(Insert(t, p)) == Elems(t) + {p}
  {
    hide Hash;
    if t.Node? {
      if p < t.p { InsertElems(t.l, p); } else { InsertElems(t.r, p); }
    }
  }

  lemma {:induction false} InsertDistinct(t: Tree, p: nat)
    requires Distinct(t) && p !in Elems(t)
    ensures Distinct(Insert(t, p))
  {
    hide Hash;
    if t.Node? {
      if p < t.p {
        InsertDistinct(t.l, p);
        InsertElems(t.l, p);
      } else {
        InsertDistinct(t.r, p);
        InsertElems(t.r, p);
      }
    }
  }

  lemma {:induction false} RemoveElems(t: Tree, p: nat)
    ensures Elems(Remove(t, p)) <= Elems(t)
  {
    hide Hash;
    if t.Node? {
      if t.p == p {
        MergeElems(t.l, t.r);
      } else if p < t.p {
        RemoveElems(t.l, p);
      } else {
        RemoveElems(t.r, p);
      }
    }
  }

  class Index {
    var root: nat
    var left: Links
    var right: Links
    ghost var tree: Tree

    ghost predicate Valid()
      reads this
    {
      Good(tree) && Spells(left, right, root, tree)
    }

    constructor ()
      ensures Valid() && tree == Leaf
    {
      root, left, right, tree := 0, map[], map[], Leaf;
    }

    method LinkMerge(a: nat, b: nat, ghost ta: Tree, ghost tb: Tree) returns (m: nat)
      requires Spells(left, right, a, ta) && Spells(left, right, b, tb)
      requires Distinct(ta) && Distinct(tb) && Elems(ta) !! Elems(tb)
      modifies this`left, this`right
      ensures Spells(left, right, m, Merge(ta, tb))
      ensures OnlyIn(old(left), left, Elems(ta) + Elems(tb))
      ensures OnlyIn(old(right), right, Elems(ta) + Elems(tb))
      decreases ta, tb
    {
      hide Hash;
      if a == 0 { return b; }
      if b == 0 { return a; }
      if Hash(a) < Hash(b) {
        var r := LinkMerge(right[a], b, ta.r, tb);
        MergeElems(ta.r, tb);
        SpellsFrame(old(left), old(right), left, right, left[a], ta.l);
        RelinkRight(left, right, a, r, ta.l, Merge(ta.r, tb));
        right := right[a := r];
        return a;
      }
      var l := LinkMerge(a, left[b], ta, tb.l);
      MergeElems(ta, tb.l);
      SpellsFrame(old(left), old(right), left, right, right[b], tb.r);
      RelinkLeft(left, right, b, l, Merge(ta, tb.l), tb.r);
      left := left[b := l];
      return b;
    }

    /** The left child becomes the root of the subtree. */
    method RaiseLeft(at: nat, ghost t: Tree) returns (m: nat)
      requires t.Node? && t.l.Node? && Spells(left, right, at, t) && Distinct(t)
      modifies this`left, this`right
      ensures Spells(left, right, m, Node(t.l.p, t.l.l, Node(t.p, t.l.r, t.r)))
      ensures OnlyIn(old(left), left, Elems(t)) && OnlyIn(old(right), right, Elems(t))
    {
      m := left[at];
      left := left[at := right[m]];
      right := right[m := at];
      SpellsFrame(old(left), old(right), left, right, right[at], t.r);
      SpellsFrame(old(left), old(right), left, right, left[m], t.l.l);
      SpellsFrame(old(left), old(right), left, right, left[at], t.l.r);
      assert Spells(left, right, at, Node(t.p, t.l.r, t.r));
    }

    /** The right child becomes the root of the subtree. */
    method RaiseRight(at: nat, ghost t: Tree) returns (m: nat)
      requires t.Node? && t.r.Node? && Spells(left, right, at, t) && Distinct(t)
      modifies this`left, this`right
      ensures Spells(left, right, m, Node(t.r.p, Node(t.p, t.l, t.r.l), t.r.r))
      ensures OnlyIn(old(left), left, Elems(t)) && OnlyIn(old(right), right, Elems(t))
    {
      m := right[at];
      right := right[at := left[m]];
      left := left[m := at];
      SpellsFrame(old(left), old(right), left, right, left[at], t.l);
      SpellsFrame(old(left), old(right), left, right, right[m], t.r.r);
      SpellsFrame(old(left), old(right), left, right, right[at], t.r.l);
      assert Spells(left, right, at, Node(t.p, t.l, t.r.l));
    }

    method LinkInsert(at: nat, node: nat, ghost t: Tree) returns (m: nat)
      requires Spells(left, right, at, t) && Distinct(t)
      requires node != 0 && node !in Elems(t) && node in left && node in right
      requires left[node] == 0 && right[node] == 0
      modifies this`left, this`right
      ensures Spells(left, right, m, Insert(t, node))
      ensures OnlyIn(old(left), left, Elems(t) + {node})
      ensures OnlyIn(old(right), right, Elems(t) + {node})
      decreases t, 1
    {
      hide Hash;
      if at == 0 { return node; }
      if node < at {
        m := InsertBelowLeft(at, node, t);
      } else {
        m := InsertBelowRight(at, node, t);
      }
    }

    method InsertBelowLeft(at: nat, node: nat, ghost t: Tree) returns (m: nat)
      requires Spells(left, right, at, t) && Distinct(t) && t.Node? && node < at
      requires node != 0 && node !in Elems(t) && node in left && node in right
      requires left[node] == 0 && right[node] == 0
      modifies this`left, this`right
      ensures Spells(left, right, m, Insert(t, node))
      ensures OnlyIn(old(left), left, Elems(t) + {node})
      ensures OnlyIn(old(right), right, Elems(t) + {node})
      decreases t, 0
    {
      hide Hash;
      var l := LinkInsert(left[at], node, t.l);
      ghost var grown := Node(t.p, Insert(t.l, node), t.r);
      InsertElems(t.l, node);
      InsertDistinct(t.l, node);
      SpellsFrame(old(left), old(right), left, right, right[at], t.r);
      RelinkLeft(left, right, at, l, grown.l, t.r);
      left := left[at := l];
      m := at;
      if Hash(l) < Hash(at) { m := RaiseLeft(at, grown); }
    }

    method InsertBelowRight(at: nat, node: nat, ghost t: Tree) returns (m: nat)
      requires Spells(left, right, at, t) && Distinct(t) && t.Node? && node >= at
      requires node != 0 && node !in Elems(t) && node in left && node in right
      requires left[node] == 0 && right[node] == 0
      modifies this`left, this`right
      ensures Spells(left, right, m, Insert(t, node))
      ensures OnlyIn(old(left), left, Elems(t) + {node})
      ensures OnlyIn(old(right), right, Elems(t) + {node})
      decreases t, 0
    {
      hide Hash;
      var r := LinkInsert(right[at], node, t.r);
      ghost var grown := Node(t.p, t.l, Insert(t.r, node));
      InsertElems(t.r, node);
      InsertDistinct(t.r, node);
      SpellsFrame(old(left), old(right), left, right, left[at], t.l);
      RelinkRight(left, right, at, r, t.l, grown.r);
      right := right[at := r];
      m := at;
      if Hash(r) < Hash(at) { m := RaiseRight(at, grown); }
    }

    method LinkRemove(at: nat, node: nat, ghost t: Tree) returns (m: nat)
      requires Spells(left, right, at, t) && Distinct(t)
      modifies this`left, this`right
      ensures Spells(left, right, m, Remove(t, node))
      ensures OnlyIn(old(left), left, Elems(t)) && OnlyIn(old(right), right, Elems(t))
      decreases t
    {
      hide Hash;
      if at == 0 { return 0; }
      if at == node {
        m := LinkMerge(left[at], right[at], t.l, t.r);
        return;
      }
      if node < at {
        var l := LinkRemove(left[at], node, t.l);
        RemoveElems(t.l, node);
        SpellsFrame(old(left), old(right), left, right, right[at], t.r);
        RelinkLeft(left, right, at, l, Remove(t.l, node), t.r);
        left := left[at := l];
      } else {
        var r := LinkRemove(right[at], node, t.r);
        RemoveElems(t.r, node);
        SpellsFrame(old(left), old(right), left, right, left[at], t.l);
        RelinkRight(left, right, at, r, t.l, Remove(t.r, node));
        right := right[at := r];
      }
      return at;
    }

    /** The runtime's insertion: the header's two link words are cleared first
        (yc_runtime.c:457-462). */
    method Add(node: nat)
      requires Valid() && 0 < node < WORD && node !in Elems(tree)
      modifies this
      ensures Valid() && tree == Insert(old(tree), node)
      ensures Elems(tree) == old(Elems(tree)) + {node}
    {
      hide Hash;
      label before:
      left, right := left[node := 0], right[node := 0];
      SpellsFrame(old(left), old(right), left, right, root, tree);
      OrderedDistinct(tree);
      InsertGood(tree, node);
      root := LinkInsert(root, node, tree);
      tree := Insert(tree, node);
    }

    /** Drop a header (yc_runtime.c:396); an address that is not indexed changes nothing. */
    method Drop(node: nat)
      requires Valid()
      modifies this
      ensures Valid() && tree == Remove(old(tree), node)
      ensures Elems(tree) == old(Elems(tree)) - {node}
    {
      hide Hash;
      OrderedDistinct(tree);
      RemoveGood(tree, node);
      root := LinkRemove(root, node, tree);
      tree := Remove(tree, node);
    }

    /** Shutdown forgets the tree and frees every header (yc_runtime.c:406). */
    method Clear()
      modifies this
      ensures Valid() && tree == Leaf
    {
      root, left, right, tree := 0, map[], map[], Leaf;
    }

    /** yc_range_find: a loop down the tree, then one size test on the candidate. */
    method Lookup(size: map<nat, nat>, address: nat) returns (h: nat)
      requires Valid() && Disjoint(Elems(tree), size)
      ensures h == Find(tree, size, address)
      ensures if h != 0 then
                && h in Elems(tree) && Contains(h, size[h], address)
                && (forall x <- Elems(tree) :: Contains(x, size[x], address) ==> x == h)
              else forall x <- Elems(tree) :: !Contains(x, size[x], address)
    {
      hide Hash;
      var node: nat, candidate: nat := root, 0;
      ghost var t := tree;
      while node != 0
        invariant Spells(left, right, node, t)
        invariant Search(t, address, candidate) == Search(tree, address, 0)
        invariant candidate != 0 ==> candidate in Elems(tree) && candidate + HEADER <= address
        invariant Elems(t) <= Elems(tree)
        decreases t
      {
        if address < node + HEADER {
          node, t := left[node], t.l;
        } else {
          candidate, node, t := node, right[node], t.r;
        }
      }
      FindIsScan(tree, size, address);
      h := if candidate != 0 && address - (candidate + HEADER) < size[candidate] then candidate else 0;
    }
  }
}
