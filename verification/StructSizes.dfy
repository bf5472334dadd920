/** The check that no struct contains itself by value (mod.rs:166-169, 229-249): a
    depth-first search with the structs on the current path and a memo of finished ones. */
module StructSizes {
  /** A field that holds a struct by value, or anything of known size. */
  datatype Field = ByValue(id: nat) | Other

  type Structs = seq<seq<Field>>

  /** Every struct type refers to a declared struct. */
  predicate Declared(structs: Structs) {
    forall fields <- structs :: forall f <- fields :: f.ByValue? ==> f.id < |structs|
  }

  predicate Holds(structs: Structs, a: nat, b: nat) { a < |structs| && ByValue(b) in structs[a] }

  /** `b` is inside `a`, `k` fields deep. */
  ghost predicate Inside(structs: Structs, a: nat, b: nat, k: nat)
    decreases k
  {
    if k == 0 then a == b else exists c :: Holds(structs, a, c) && Inside(structs, c, b, k - 1)
  }

  ghost predicate Contains(structs: Structs, a: nat, b: nat) { exists k: nat :: k > 0 && Inside(structs, a, b, k) }

  lemma {:induction false} InsideFurther(structs: Structs, a: nat, b: nat, c: nat, k: nat)
    requires Inside(structs, a, b, k) && Holds(structs, b, c)
    ensures Inside(structs, a, c, k + 1)
    decreases k
  {
    if k == 0 {
      assert Inside(structs, c, c, 0);
    } else {
      var d :| Holds(structs, a, d) && Inside(structs, d, b, k - 1);
      InsideFurther(structs, d, b, c, k - 1);
    }
  }

  lemma ContainsFurther(structs: Structs, a: nat, b: nat, c: nat)
    requires a == b || Contains(structs, a, b)
    requires Holds(structs, b, c)
    ensures Contains(structs, a, c)
  {
    assert Inside(structs, b, b, 0);
    var k: nat :| Inside(structs, a, b, k);
    InsideFurther(structs, a, b, c, k);
  }

  /** A struct ranks above everything it holds. */
  ghost predicate Ranked(structs: Structs, rank: map<nat, nat>) {
    forall a, b :: a in rank && Holds(structs, a, b) ==> b in rank && rank[b] < rank[a]
  }

  lemma {:induction false} RankFalls(structs: Structs, rank: map<nat, nat>, a: nat, b: nat, k: nat)
    requires Ranked(structs, rank) && a in rank && Inside(structs, a, b, k)
    ensures b in rank && (k > 0 ==> rank[b] < rank[a])
    decreases k
  {
    if k > 0 {
      var c :| Holds(structs, a, c) && Inside(structs, c, b, k - 1);
      RankFalls(structs, rank, c, b, k - 1);
    }
  }

  lemma RankedIsFinite(structs: Structs, rank: map<nat, nat>, a: nat)
    requires Ranked(structs, rank) && a in rank
    ensures !Contains(structs, a, a)
  {
    forall k: nat | k > 0
      ensures !Inside(structs, a, a, k)
    {
      if Inside(structs, a, a, k) { RankFalls(structs, rank, a, a, k); }
    }
  }

  ghost predicate SomeInfinite(structs: Structs) { exists a: nat :: a < |structs| && Contains(structs, a, a) }

  ghost function Ids(n: nat): (ids: set<nat>)
    ensures forall i: nat :: i in ids <==> i < n
  {
    if n == 0 then {} else Ids(n - 1) + {n - 1}
  }

  /** Each struct of the path holds the next by value. */
  predicate Chain(structs: Structs, path: seq<nat>) {
    forall i :: 0 <= i < |path| - 1 ==> path[i] < |structs| && exists f <- structs[path[i]] :: f == ByValue(path[i + 1])
  }

  lemma {:induction false} ChainInside(structs: Structs, path: seq<nat>)
    requires Chain(structs, path) && path != []
    ensures Inside(structs, path[0], path[|path| - 1], |path| - 1)
    decreases |path|
  {
    if |path| > 1 {
      var more := path[1..];
      forall i | 0 <= i < |more| - 1 ensures more[i] < |structs| && exists f <- structs[more[i]] :: f == ByValue(more[i + 1]) {
        assert more[i] == path[i + 1] && more[i + 1] == path[i + 2];
      }
      ChainInside(structs, more);
      assert Holds(structs, path[0], path[1]);
    }
  }

  lemma {:induction false} InsideChain(structs: Structs, a: nat, b: nat, k: nat) returns (path: seq<nat>)
    requires Inside(structs, a, b, k)
    ensures Chain(structs, path) && |path| == k + 1 && path[0] == a && path[k] == b
    decreases k
  {
    if k == 0 {
      path := [a];
    } else {
      var c :| Holds(structs, a, c) && Inside(structs, c, b, k - 1);
      var more := InsideChain(structs, c, b, k - 1);
      path := [a] + more;
      forall i | 0 <= i < |path| - 1 ensures path[i] < |structs| && exists f <- structs[path[i]] :: f == ByValue(path[i + 1]) {
        if i > 0 { assert path[i] == more[i - 1] && path[i + 1] == more[i]; }
      }
    }
  }

  /** Some struct contains itself exactly when a chain of fields comes back to where it began. */
  lemma InfiniteIsCycle(structs: Structs)
    ensures SomeInfinite(structs) <==> exists path :: |path| > 1 && Chain(structs, path) && path[0] == path[|path| - 1]
  {
    if SomeInfinite(structs) {
      var a: nat :| a < |structs| && Contains(structs, a, a);
      var k: nat :| k > 0 && Inside(structs, a, a, k);
      var path := InsideChain(structs, a, a, k);
    }
    if path :| |path| > 1 && Chain(structs, path) && path[0] == path[|path| - 1] {
      ChainInside(structs, path);
      assert path[0] < |structs|;
      assert Contains(structs, path[0], path[0]);
    }
  }

  lemma AllHeld(structs: Structs, id: nat, sized: set<nat>)
    requires id < |structs| && forall f <- structs[id] :: f.ByValue? ==> f.id in sized
    ensures forall b :: Holds(structs, id, b) ==> b in sized
  {
  }

  lemma RankedMore(structs: Structs, rank: map<nat, nat>, id: nat, top: nat)
    requires Ranked(structs, rank) && id !in rank && (forall i <- rank :: rank[i] < top)
    requires forall b :: Holds(structs, id, b) ==> b in rank
    ensures Ranked(structs, rank[id := top])
  {
  }

  /** Finished structs are ranked in the order they were finished in. */
  ghost predicate Consistent(structs: Structs, visiting: set<nat>, sized: set<nat>, rank: map<nat, nat>) {
    && rank.Keys == sized && sized !! visiting && Ranked(structs, rank)
    && (forall i <- visiting :: i < |structs|) && (forall i <- rank :: i < |structs| && rank[i] < |sized|)
  }

  lemma Visit(structs: Structs, visiting: set<nat>, sized: set<nat>, rank: map<nat, nat>, id: nat)
    requires Consistent(structs, visiting, sized, rank) && id < |structs| && id !in sized
    ensures Consistent(structs, visiting + {id}, sized, rank)
  {
    hide Ranked;
  }

  lemma Leave(structs: Structs, visiting: set<nat>, sized: set<nat>, rank: map<nat, nat>, id: nat)
    requires Consistent(structs, visiting, sized, rank) && id in visiting
    requires forall b :: Holds(structs, id, b) ==> b in sized
    ensures Consistent(structs, visiting - {id}, sized + {id}, rank[id := |sized|])
  {
    RankedMore(structs, rank, id, |sized|);
    hide Ranked, Holds;
  }

  lemma ChildDeclared(structs: Structs, id: nat, k: nat)
    requires Declared(structs) && id < |structs| && k < |structs[id]| && structs[id][k].ByValue?
    ensures structs[id][k].id < |structs| && Holds(structs, id, structs[id][k].id)
  {
    assert structs[id] in structs && structs[id][k] in structs[id];
  }

  lemma AllFinite(structs: Structs, visiting: set<nat>, sized: set<nat>, rank: map<nat, nat>)
    requires Consistent(structs, visiting, sized, rank) && forall j: nat :: j < |structs| ==> j in sized
    ensures !SomeInfinite(structs) && Ranked(structs, rank) && forall j: nat :: j < |structs| ==> j in rank
  {
    forall i: nat | i < |structs|
      ensures !Contains(structs, i, i)
    {
      RankedIsFinite(structs, rank, i);
    }
  }

  lemma Found(structs: Structs, id: nat)
    requires id < |structs| && Contains(structs, id, id)
    ensures SomeInfinite(structs)
  {
  }

  /** Everything on the path contains what is looked at next. */
  lemma PathGrows(structs: Structs, visiting: set<nat>, id: nat, child: nat)
    requires (forall a <- visiting :: Contains(structs, a, id)) && Holds(structs, id, child)
    ensures forall a <- visiting + {id} :: Contains(structs, a, child)
  {
    forall a <- visiting + {id}
      ensures Contains(structs, a, child)
    {
      ContainsFurther(structs, a, id, child);
    }
  }

  class SizeCheck {
    const structs: Structs
    var visiting: set<nat>
    var sized: set<nat>
    ghost var rank: map<nat, nat>

    ghost predicate Valid()
      reads this
    {
      Declared(structs) && Consistent(structs, visiting, sized, rank)
    }

    constructor (structs: Structs)
      requires Declared(structs)
      ensures Valid() && this.structs == structs && visiting == {} && sized == {}
    {
      this.structs, visiting, sized, rank := structs, {}, {}, map[];
    }

    /** False as soon as a struct on the path is met again. */
    method Check(id: nat) returns (ok: bool)
      requires Valid() && id < |structs| && forall a <- visiting :: Contains(structs, a, id)
      modifies this
      ensures ok ==> Valid() && visiting == old(visiting) && id in sized && old(sized) <= sized
      ensures !ok ==> SomeInfinite(structs)
      decreases Ids(|structs|) - visiting
    {
      hide Consistent, Contains, Declared, Holds, Ids, SomeInfinite;
      if id in sized { return true; }
      if id in visiting {
        Found(structs, id);
        return false;
      }
      Visit(structs, visiting, sized, rank, id);
      visiting := visiting + {id};
      var fields := structs[id];
      for k := 0 to |fields|
        invariant Valid() && visiting == old(visiting) + {id} && old(sized) <= sized
        invariant forall f <- fields[..k] :: f.ByValue? ==> f.id in sized
      {
        if fields[k].ByValue? {
          var child := fields[k].id;
          ChildDeclared(structs, id, k);
          PathGrows(structs, old(visiting), id, child);
          var inner := Check(child);
          if !inner { return false; }
        }
      }
      AllHeld(structs, id, sized);
      Leave(structs, visiting, sized, rank, id);
      rank := rank[id := |sized|];
      visiting, sized := visiting - {id}, sized + {id};
      return true;
    }

    /** Accepts exactly when no struct contains itself, through any chain of fields, and
        then leaves a rank of all structs. */
    method CheckAll() returns (ok: bool)
      requires Valid() && visiting == {} && sized == {}
      modifies this
      ensures ok <==> !SomeInfinite(structs)
      ensures ok ==> Ranked(structs, rank) && forall i: nat :: i < |structs| ==> i in rank
    {
      hide Consistent, Contains, Declared, SomeInfinite, Ranked;
      for i := 0 to |structs|
        invariant Valid() && visiting == {}
        invariant forall j: nat :: j < i ==> j in sized
      {
        ok := Check(i);
        if !ok { return; }
      }
      AllFinite(structs, visiting, sized, rank);
      ok := true;
    }
  }
}
