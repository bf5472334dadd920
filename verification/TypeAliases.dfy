/** Type names across files and modules (mod.rs:225-227, 251-319): looking a name up, and
    unfolding aliases with the set of names on the current path. */
module TypeAliases {
  import opened Wrappers

  /** A name as spelled: bare, or qualified by an import. */
  datatype Name = Bare(n: string) | Qualified(alias: string, n: string)

  datatype Ty =
    | Prim(id: nat)
    | Struct(id: nat)
    | Named(name: Name)
    | Ptr(t: Ty)
    | Slice(t: Ty)
    | Vec(t: Ty)
    | Map(k: Ty, v: Ty)

  const I32 := Prim(4)

  datatype Decl =
    | DStruct(name: string, id: nat, exported: bool)
    | DAlias(name: string, target: Ty, exported: bool)
    | DEnum(name: string, exported: bool)
    | DFunction(name: string)

  datatype File = File(moduleName: string, decls: seq<Decl>, imports: seq<(string, nat)>)

  type Project = seq<File>

  /** Imports lead to files of the project, and a file declares no name twice
      (mod.rs:115-124). */
  predicate Wellformed(p: Project) {
    forall f <- p ::
      && (forall i <- f.imports :: i.1 < |p|)
      && forall a, b :: 0 <= a < b < |f.decls| ==> f.decls[a].name != f.decls[b].name
  }

  // ----- looking a name up -----

  /** What a declaration stands for; functions are no types. */
  function Meaning(d: Decl): Option<Ty> {
    match d
    case DStruct(_, id, _) => Some(Struct(id))
    case DAlias(_, target, _) => Some(target)
    case DEnum(_, _) => Some(I32)
    case DFunction(_) => None
  }

  predicate Visible(d: Decl, name: string, public: bool) {
    !d.DFunction? && d.name == name && (public ==> d.exported)
  }

  function InDecls(ds: seq<Decl>, name: string, public: bool): Option<Ty> {
    if ds == [] then None
    else if Visible(ds[0], name, public) then Meaning(ds[0])
    else InDecls(ds[1..], name, public)
  }

  /** The first declaration of that name in the files of the module, and its file. */
  function InFiles(p: Project, from: nat, moduleName: string, name: string, public: bool): (r: Option<(nat, Ty)>)
    ensures r.Some? ==> r.value.0 < |p|
    decreases |p| - from
  {
    if from >= |p| then None
    else
      var t := if p[from].moduleName == moduleName then InDecls(p[from].decls, name, public) else None;
      if t.Some? then Some((from, t.value)) else InFiles(p, from + 1, moduleName, name, public)
  }

  function TypeIn(p: Project, file: nat, name: string, public: bool): (r: Option<(nat, Ty)>)
    requires file < |p|
    ensures r.Some? ==> r.value.0 < |p|
  {
    InFiles(p, 0, p[file].moduleName, name, public)
  }

  datatype Found = Missing | One(owner: nat, t: Ty) | Many

  function Join(a: Found, b: Found): Found {
    if a.Missing? then b else if b.Missing? || a == b then a else Many
  }

  /** All imports searched; two different results are ambiguous. */
  function Imported(p: Project, imports: seq<(string, nat)>, name: string): (r: Found)
    requires forall i <- imports :: i.1 < |p|
    ensures r.One? ==> r.owner < |p|
  {
    if imports == [] then Missing
    else
      var t := TypeIn(p, imports[0].1, name, true);
      Join(if t.Some? then One(t.value.0, t.value.1) else Missing, Imported(p, imports[1..], name))
  }

  function Import(imports: seq<(string, nat)>, alias: string): Option<nat> {
    if imports == [] then None
    else if imports[0].0 == alias then Some(imports[0].1)
    else Import(imports[1..], alias)
  }

  lemma ImportIn(imports: seq<(string, nat)>, alias: string)
    ensures Import(imports, alias).Some? ==> exists i <- imports :: i.1 == Import(imports, alias).value
  {
    if imports != [] && imports[0].0 != alias {
      ImportIn(imports[1..], alias);
      if i :| i in imports[1..] && Import(imports[1..], alias) == Some(i.1) { assert i in imports; }
    }
  }

  function Lookup(p: Project, file: nat, name: Name): (r: Found)
    requires Wellformed(p) && file < |p|
    ensures r.One? ==> r.owner < |p|
  {
    assert p[file] in p;
    match name
    case Qualified(alias, n) =>
      ImportIn(p[file].imports, alias);
      var dep := Import(p[file].imports, alias);
      if dep.None? then Missing
      else
        var t := TypeIn(p, dep.value, n, true);
        if t.Some? then One(t.value.0, t.value.1) else Missing
    case Bare(n) =>
      var t := TypeIn(p, file, n, false);
      if t.Some? then One(t.value.0, t.value.1) else Imported(p, p[file].imports, n)
  }

  /** The candidates among the imports, as a set. */
  ghost function Candidates(p: Project, imports: seq<(string, nat)>, name: string): set<(nat, Ty)>
    requires forall i <- imports :: i.1 < |p|
  {
    set i | i in imports && TypeIn(p, i.1, name, true).Some? :: TypeIn(p, i.1, name, true).value
  }

  /** Ambiguous exactly when the imports offer two different types of the name. */
  lemma {:induction false} AmbiguousExactly(p: Project, imports: seq<(string, nat)>, name: string)
    requires forall i <- imports :: i.1 < |p|
    ensures match Imported(p, imports, name)
            case Missing => Candidates(p, imports, name) == {}
            case One(owner, t) => Candidates(p, imports, name) == {(owner, t)}
            case Many => exists a, b :: a in Candidates(p, imports, name) && b in Candidates(p, imports, name) && a != b
    decreases |imports|
  {
    if imports != [] {
      AmbiguousExactly(p, imports[1..], name);
      var t := TypeIn(p, imports[0].1, name, true);
      var all, rest := Candidates(p, imports, name), Candidates(p, imports[1..], name);
      assert imports == [imports[0]] + imports[1..];
      forall c
        ensures c in all <==> c in rest || t == Some(c)
      {
        if c in rest {
          var i :| i in imports[1..] && TypeIn(p, i.1, name, true) == Some(c);
          assert i in imports;
        }
        if t == Some(c) { assert imports[0] in imports; }
      }
      if Imported(p, imports, name).Many? && !Imported(p, imports[1..], name).Many? {
        assert t.value in all && (Imported(p, imports[1..], name).owner, Imported(p, imports[1..], name).t) in all;
      }
    }
  }

  /** What is declared under a name in one file: the owner and the bare name fix the target,
      however the name was spelled and whoever looked it up. */
  function Target(p: Project, key: (nat, Name)): Option<Ty>
    requires key.0 < |p|
  {
    InDecls(p[key.0].decls, key.1.n, false)
  }

  lemma PublicIsSame(ds: seq<Decl>, name: string)
    requires forall a, b :: 0 <= a < b < |ds| ==> ds[a].name != ds[b].name
    ensures InDecls(ds, name, true).Some? ==> InDecls(ds, name, false) == InDecls(ds, name, true)
    decreases |ds|
  {
    if ds != [] && !Visible(ds[0], name, true) {
      PublicIsSame(ds[1..], name);
      if ds[0].name == name { NoneElse(ds[1..], name, true); }
    }
  }

  lemma NoneElse(ds: seq<Decl>, name: string, public: bool)
    requires forall d <- ds :: d.name != name
    ensures InDecls(ds, name, public) == None
    decreases |ds|
  {
    if ds != [] {
      assert ds[0] in ds;
      NoneElse(ds[1..], name, public);
    }
  }

  lemma InFilesTarget(p: Project, from: nat, moduleName: string, name: Name, public: bool)
    requires Wellformed(p)
    ensures var r := InFiles(p, from, moduleName, name.n, public);
            r.Some? ==> Target(p, (r.value.0, name)) == Some(r.value.1)
    decreases |p| - from
  {
    if from < |p| {
      assert p[from] in p;
      if p[from].moduleName == moduleName { PublicIsSame(p[from].decls, name.n); }
      InFilesTarget(p, from + 1, moduleName, name, public);
    }
  }

  lemma ImportedTarget(p: Project, imports: seq<(string, nat)>, name: Name)
    requires Wellformed(p) && forall i <- imports :: i.1 < |p|
    ensures var r := Imported(p, imports, name.n); r.One? ==> Target(p, (r.owner, name)) == Some(r.t)
    decreases |imports|
  {
    if imports != [] {
      InFilesTarget(p, 0, p[imports[0].1].moduleName, name, true);
      ImportedTarget(p, imports[1..], name);
    }
  }

  lemma LookupTarget(p: Project, file: nat, name: Name)
    requires Wellformed(p) && file < |p|
    ensures var r := Lookup(p, file, name); r.One? ==> Target(p, (r.owner, name)) == Some(r.t)
  {
    hide Target, InFiles;
    match name
    case Qualified(alias, n) =>
      ImportIn(p[file].imports, alias);
      assert p[file] in p;
      var dep := Import(p[file].imports, alias);
      if dep.Some? { InFilesTarget(p, 0, p[dep.value].moduleName, name, true); }
    case Bare(n) =>
      assert p[file] in p;
      InFilesTarget(p, 0, p[file].moduleName, name, false);
      ImportedTarget(p, p[file].imports, name);
  }

  // ----- unfolding -----

  datatype Result = Ok(t: Ty) | Unknown | Ambiguous | Cyclic

  function Both(a: Result, b: Result): Result { if a.Ok? && b.Ok? then Ok(Map(a.t, b.t)) else if a.Ok? then b else a }

  /** Plain unfolding, `n` aliases deep; None when that was not enough. */
  function Unfold(p: Project, file: nat, t: Ty, n: nat): Option<Result>
    requires Wellformed(p) && file < |p|
    decreases n, t
  {
    match t
    case Named(name) =>
      var target := Lookup(p, file, name);
      if target.Missing? then Some(Unknown)
      else if target.Many? then Some(Ambiguous)
      else if n == 0 then None
      else Unfold(p, target.owner, target.t, n - 1)
    case Ptr(u) => Inside(Unfold(p, file, u, n), r => Ptr(r))
    case Slice(u) => Inside(Unfold(p, file, u, n), r => Slice(r))
    case Vec(u) => Inside(Unfold(p, file, u, n), r => Vec(r))
    case Map(k, v) =>
      var a := Unfold(p, file, k, n);
      if a.None? || !a.value.Ok? then a
      else
        var b := Unfold(p, file, v, n);
        if b.None? || !b.value.Ok? then b else Some(Ok(Map(a.value.t, b.value.t)))
    case _ => Some(Ok(t))
  }

  function Inside(r: Option<Result>, f: Ty -> Ty): Option<Result> {
    if r.Some? && r.value.Ok? then Some(Ok(f(r.value.t))) else r
  }

  type Key = (nat, Name)

  function NamesOf(t: Ty): set<Name> {
    match t
    case Named(name) => {name}
    case Ptr(u) => NamesOf(u)
    case Slice(u) => NamesOf(u)
    case Vec(u) => NamesOf(u)
    case Map(k, v) => NamesOf(k) + NamesOf(v)
    case _ => {}
  }

  /** All names any alias of the project mentions are among `names`. */
  ghost predicate Covers(p: Project, names: set<Name>) {
    forall f <- p :: forall d <- f.decls :: d.DAlias? ==> NamesOf(d.target) <= names
  }

  ghost function Keys(p: Project, names: set<Name>): set<Key> { set o, s | 0 <= o < |p| && s in names :: (o, s) }

  lemma InDeclsCovered(ds: seq<Decl>, name: string, public: bool, names: set<Name>)
    requires forall d <- ds :: d.DAlias? ==> NamesOf(d.target) <= names
    ensures var r := InDecls(ds, name, public); r.Some? ==> NamesOf(r.value) <= names
    decreases |ds|
  {
    if ds != [] {
      assert ds[0] in ds;
      InDeclsCovered(ds[1..], name, public, names);
    }
  }

  lemma TargetCovered(p: Project, file: nat, name: Name, names: set<Name>)
    requires Wellformed(p) && file < |p| && Covers(p, names)
    ensures var r := Lookup(p, file, name); r.One? ==> NamesOf(r.t) <= names
  {
    LookupTarget(p, file, name);
    var r := Lookup(p, file, name);
    if r.One? {
      assert p[r.owner] in p;
      InDeclsCovered(p[r.owner].decls, name.n, false, names);
    }
  }

  /** Unfolding with the set of names on the way: meeting one again is an error. */
  ghost function Resolve(p: Project, file: nat, t: Ty, visiting: set<Key>, names: set<Name>): Result
    requires Wellformed(p) && file < |p| && Covers(p, names) && NamesOf(t) <= names
    decreases Keys(p, names) - visiting, t
  {
    match t
    case Named(name) =>
      TargetCovered(p, file, name, names);
      var target := Lookup(p, file, name);
      if target.Missing? then Unknown
      else if target.Many? then Ambiguous
      else if (target.owner, name) in visiting then Cyclic
      else
        assert (target.owner, name) in Keys(p, names);
        Resolve(p, target.owner, target.t, visiting + {(target.owner, name)}, names)
    case Ptr(u) =>
      var r := Resolve(p, file, u, visiting, names);
      if r.Ok? then Ok(Ptr(r.t)) else r
    case Slice(u) =>
      var r := Resolve(p, file, u, visiting, names);
      if r.Ok? then Ok(Slice(r.t)) else r
    case Vec(u) =>
      var r := Resolve(p, file, u, visiting, names);
      if r.Ok? then Ok(Vec(r.t)) else r
    case Map(k, v) =>
      var a := Resolve(p, file, k, visiting, names);
      if !a.Ok? then a else Both(a, Resolve(p, file, v, visiting, names))
    case _ => Ok(t)
  }

  // ----- resolution is unfolding in the limit -----

  lemma UnfoldMore(p: Project, file: nat, t: Ty, n: nat, m: nat)
    requires Wellformed(p) && file < |p| && Unfold(p, file, t, n).Some? && n <= m
    ensures Unfold(p, file, t, m) == Unfold(p, file, t, n)
    decreases n, t
  {
    hide Lookup;
    match t
    case Named(name) =>
      var target := Lookup(p, file, name);
      if target.One? { UnfoldMore(p, target.owner, target.t, n - 1, m - 1); }
    case Ptr(u) => UnfoldMore(p, file, u, n, m);
    case Slice(u) => UnfoldMore(p, file, u, n, m);
    case Vec(u) => UnfoldMore(p, file, u, n, m);
    case Map(k, v) =>
      UnfoldMore(p, file, k, n, m);
      if Unfold(p, file, k, n).value.Ok? { UnfoldMore(p, file, v, n, m); }
    case _ =>
  }

  /** An answer other than the cycle error is that of plain unfolding. */
  lemma ResolveUnfolds(p: Project, file: nat, t: Ty, visiting: set<Key>, names: set<Name>) returns (n: nat)
    requires Wellformed(p) && file < |p| && Covers(p, names) && NamesOf(t) <= names
    requires !Resolve(p, file, t, visiting, names).Cyclic?
    ensures Unfold(p, file, t, n) == Some(Resolve(p, file, t, visiting, names))
    decreases Keys(p, names) - visiting, t
  {
    hide Lookup, Covers;
    n := 0;
    match t
    case Named(name) =>
      TargetCovered(p, file, name, names);
      var target := Lookup(p, file, name);
      if target.One? {
        var key := (target.owner, name);
        assert key in Keys(p, names);
        n := ResolveUnfolds(p, target.owner, target.t, visiting + {key}, names);
        n := n + 1;
      }
    case Ptr(u) => n := ResolveUnfolds(p, file, u, visiting, names);
    case Slice(u) => n := ResolveUnfolds(p, file, u, visiting, names);
    case Vec(u) => n := ResolveUnfolds(p, file, u, visiting, names);
    case Map(k, v) =>
      n := ResolveUnfolds(p, file, k, visiting, names);
      if Resolve(p, file, k, visiting, names).Ok? {
        var m := ResolveUnfolds(p, file, v, visiting, names);
        var top := if m > n then m else n;
        UnfoldMore(p, file, k, n, top);
        UnfoldMore(p, file, v, m, top);
        n := top;
      }
    case _ =>
  }

  /** What a key stands for unfolds to the end within `m` aliases. */
  ghost predicate Ends(p: Project, key: Key, m: nat)
    requires Wellformed(p) && key.0 < |p|
  {
    Target(p, key).Some? && Unfold(p, key.0, Target(p, key).value, m).Some?
  }

  /** The cycle error means some name on the path is met again. So a type that unfolds to
      the end would make that name unfold to the end in fewer steps. */
  lemma CycleShrinks(p: Project, file: nat, t: Ty, visiting: set<Key>, names: set<Name>, n: nat)
      returns (key: Key, m: nat)
    requires Wellformed(p) && file < |p| && Covers(p, names) && NamesOf(t) <= names
    requires Resolve(p, file, t, visiting, names).Cyclic? && Unfold(p, file, t, n).Some?
    requires forall k <- visiting :: k.0 < |p|
    ensures key in visiting && m < n && Ends(p, key, m)
    decreases n, t
  {
    hide Lookup, Covers, Target;
    match t
    case Named(name) =>
      TargetCovered(p, file, name, names);
      LookupTarget(p, file, name);
      var target := Lookup(p, file, name);
      var here := (target.owner, name);
      if here in visiting {
        key, m := here, n - 1;
      } else {
        key, m := CycleShrinks(p, target.owner, target.t, visiting + {here}, names, n - 1);
        if key == here { key, m := CycleShrinks(p, file, t, visiting, names, m + 1); }
      }
    case Ptr(u) => key, m := CycleShrinks(p, file, u, visiting, names, n);
    case Slice(u) => key, m := CycleShrinks(p, file, u, visiting, names, n);
    case Vec(u) => key, m := CycleShrinks(p, file, u, visiting, names, n);
    case Map(k, v) =>
      if Resolve(p, file, k, visiting, names).Cyclic? {
        key, m := CycleShrinks(p, file, k, visiting, names, n);
      } else {
        KeepsOk(p, file, k, visiting, names, n);
        key, m := CycleShrinks(p, file, v, visiting, names, n);
      }
  }

  lemma KeepsOk(p: Project, file: nat, t: Ty, visiting: set<Key>, names: set<Name>, n: nat)
    requires Wellformed(p) && file < |p| && Covers(p, names) && NamesOf(t) <= names
    requires !Resolve(p, file, t, visiting, names).Cyclic? && Unfold(p, file, t, n).Some?
    ensures Unfold(p, file, t, n) == Some(Resolve(p, file, t, visiting, names))
  {
    hide Unfold, Resolve;
    var m := ResolveUnfolds(p, file, t, visiting, names);
    if m <= n { UnfoldMore(p, file, t, m, n); } else { UnfoldMore(p, file, t, n, m); }
  }

  /** For every project and type: an answer, or an error other than the cycle error, is what
      unfolding gives; the cycle error comes exactly when unfolding never ends. */
  lemma ResolveExactly(p: Project, file: nat, t: Ty, names: set<Name>)
    requires Wellformed(p) && file < |p| && Covers(p, names) && NamesOf(t) <= names
    ensures var r := Resolve(p, file, t, {}, names);
            && (r.Cyclic? <==> forall n: nat :: Unfold(p, file, t, n) == None)
            && (!r.Cyclic? ==> exists n: nat :: Unfold(p, file, t, n) == Some(r))
            && forall n: nat, q :: Unfold(p, file, t, n) == Some(q) ==> r == q
  {
    hide Unfold, Resolve, Covers, Wellformed, NamesOf;
    var r := Resolve(p, file, t, {}, names);
    if r.Cyclic? {
      forall n: nat
        ensures Unfold(p, file, t, n) == None
      {
        if Unfold(p, file, t, n).Some? { var key, m := CycleShrinks(p, file, t, {}, names, n); }
      }
    } else {
      var m := ResolveUnfolds(p, file, t, {}, names);
      forall n: nat | Unfold(p, file, t, n).Some?
        ensures Unfold(p, file, t, n) == Some(r)
      {
        KeepsOk(p, file, t, {}, names, n);
      }
    }
  }

  predicate NoNames(t: Ty) {
    match t
    case Named(_) => false
    case Ptr(u) => NoNames(u)
    case Slice(u) => NoNames(u)
    case Vec(u) => NoNames(u)
    case Map(k, v) => NoNames(k) && NoNames(v)
    case _ => true
  }

  lemma ResolvedHasNoNames(p: Project, file: nat, t: Ty, visiting: set<Key>, names: set<Name>)
    requires Wellformed(p) && file < |p| && Covers(p, names) && NamesOf(t) <= names
    ensures var r := Resolve(p, file, t, visiting, names); r.Ok? ==> NoNames(r.t)
    decreases Keys(p, names) - visiting, t
  {
    hide Lookup, Covers;
    match t
    case Named(name) =>
      TargetCovered(p, file, name, names);
      var target := Lookup(p, file, name);
      if target.One? && (target.owner, name) !in visiting {
        assert (target.owner, name) in Keys(p, names);
        ResolvedHasNoNames(p, target.owner, target.t, visiting + {(target.owner, name)}, names);
      }
    case Ptr(u) => ResolvedHasNoNames(p, file, u, visiting, names);
    case Slice(u) => ResolvedHasNoNames(p, file, u, visiting, names);
    case Vec(u) => ResolvedHasNoNames(p, file, u, visiting, names);
    case Map(k, v) =>
      ResolvedHasNoNames(p, file, k, visiting, names);
      ResolvedHasNoNames(p, file, v, visiting, names);
    case _ =>
  }

  // ----- as it runs -----

  class Resolver {
    const project: Project
    var visiting: set<Key>

    constructor (project: Project)
      ensures this.project == project && visiting == {}
    {
      this.project, visiting := project, {};
    }

    /** The files of the module, and the declarations of each, in order. */
    method FindType(file: nat, name: string, public: bool) returns (r: Option<(nat, Ty)>)
      requires file < |project|
      ensures r == TypeIn(project, file, name, public)
    {
      var moduleName := project[file].moduleName;
      for owner := 0 to |project|
        invariant InFiles(project, owner, moduleName, name, public) == TypeIn(project, file, name, public)
      {
        if project[owner].moduleName != moduleName { continue; }
        var ds := project[owner].decls;
        assert ds[0..] == ds;
        for k := 0 to |ds|
          invariant InDecls(ds[k..], name, public) == InDecls(ds, name, public)
        {
          assert ds[k..][1..] == ds[k + 1..];
          if Visible(ds[k], name, public) {
            assert ds[k..][0] == ds[k];
            return Some((owner, Meaning(ds[k]).value));
          }
        }
      }
      r := None;
    }

    method FindName(file: nat, name: Name) returns (r: Found)
      requires Wellformed(project) && file < |project|
      ensures r == Lookup(project, file, name)
    {
      assert project[file] in project;
      var imports := project[file].imports;
      match name
      case Qualified(alias, n) =>
        ImportIn(imports, alias);
        var dep := Import(imports, alias);
        if dep.None? { return Missing; }
        var t := FindType(dep.value, n, true);
        r := if t.Some? then One(t.value.0, t.value.1) else Missing;
      case Bare(n) =>
        var t := FindType(file, n, false);
        if t.Some? { return One(t.value.0, t.value.1); }
        r := Missing;
        var k := |imports|;
        assert imports[k..] == [];
        while k > 0
          invariant 0 <= k <= |imports| && r == Imported(project, imports[k..], n)
        {
          k := k - 1;
          assert imports[k..][1..] == imports[k + 1..] && imports[k..][0] == imports[k];
          t := FindType(imports[k].1, n, true);
          r := Join(if t.Some? then One(t.value.0, t.value.1) else Missing, r);
        }
        assert imports[0..] == imports;
    }

    /** A name is on the path while its target is resolved; after success the path is as
        before. */
    method ResolveType(file: nat, t: Ty, ghost names: set<Name>) returns (r: Result)
      requires Wellformed(project) && file < |project| && Covers(project, names) && NamesOf(t) <= names
      modifies this
      ensures r == Resolve(project, file, t, old(visiting), names)
      ensures r.Ok? ==> visiting == old(visiting)
      decreases Keys(project, names) - visiting, t
    {
      hide Lookup, Covers, Wellformed;
      match t
      case Named(name) =>
        TargetCovered(project, file, name, names);
        var target := FindName(file, name);
        if target.Missing? { return Unknown; }
        if target.Many? { return Ambiguous; }
        var key := (target.owner, name);
        if key in visiting { return Cyclic; }
        assert key in Keys(project, names);
        visiting := visiting + {key};
        r := ResolveType(target.owner, target.t, names);
        if r.Ok? { visiting := visiting - {key}; }
      case Ptr(u) =>
        r := ResolveType(file, u, names);
        if r.Ok? { r := Ok(Ptr(r.t)); }
      case Slice(u) =>
        r := ResolveType(file, u, names);
        if r.Ok? { r := Ok(Slice(r.t)); }
      case Vec(u) =>
        r := ResolveType(file, u, names);
        if r.Ok? { r := Ok(Vec(r.t)); }
      case Map(k, v) =>
        r := ResolveType(file, k, names);
        if r.Ok? {
          var b := ResolveType(file, v, names);
          r := Both(r, b);
        }
      case _ => r := Ok(t);
    }
  }
}
