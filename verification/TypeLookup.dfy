/** Which declaration a type name means: the one it is bound to by the rules of scope and
    export, whichever order files and declarations are walked in (mod.rs:225-227, 251-303). */
module TypeLookup {
  import opened Wrappers
  import opened TypeAliases

  /** The declaration is a type of that name, within reach: of its own module any, of another
      one only an exported one. */
  ghost predicate Offers(d: Decl, name: string, fromOutside: bool, t: Ty) {
    match d
    case DStruct(n, id, exported) => n == name && (exported || !fromOutside) && t == Struct(id)
    case DAlias(n, target, exported) => n == name && (exported || !fromOutside) && t == target
    case DEnum(n, exported) => n == name && (exported || !fromOutside) && t == Prim(4)
    case DFunction(_) => false
  }

  ghost predicate FileOffers(f: File, name: string, fromOutside: bool, t: Ty) { exists d <- f.decls :: Offers(d, name, fromOutside, t) }

  /** File `o` is the first of the module that offers the name. */
  ghost predicate ModuleOffers(p: Project, moduleName: string, name: string, fromOutside: bool, o: nat, t: Ty) {
    && o < |p| && p[o].moduleName == moduleName && FileOffers(p[o], name, fromOutside, t)
    && forall k, u :: 0 <= k < o && p[k].moduleName == moduleName ==> !FileOffers(p[k], name, fromOutside, u)
  }

  lemma {:induction false} DeclsExactly(ds: seq<Decl>, name: string, public: bool, t: Ty)
    requires forall a, b :: 0 <= a < b < |ds| ==> ds[a].name != ds[b].name
    ensures InDecls(ds, name, public) == Some(t) <==> exists d <- ds :: Offers(d, name, public, t)
    decreases |ds|
  {
    if ds != [] {
      DeclsExactly(ds[1..], name, public, t);
      assert ds == [ds[0]] + ds[1..] && ds[0] in ds;
      if Visible(ds[0], name, public) {
        forall d <- ds[1..] ensures !Offers(d, name, public, t) {
          var k :| 0 <= k < |ds[1..]| && ds[1..][k] == d;
          assert ds[k + 1] == d;
        }
        assert Offers(ds[0], name, public, t) <==> Meaning(ds[0]) == Some(t);
        if d :| d in ds && Offers(d, name, public, t) { assert d == ds[0] || d in ds[1..]; }
      }
    }
  }

  lemma NoDecl(ds: seq<Decl>, name: string, public: bool)
    requires forall a, b :: 0 <= a < b < |ds| ==> ds[a].name != ds[b].name
    ensures InDecls(ds, name, public).None? <==> forall d <- ds, t :: !Offers(d, name, public, t)
  {
    var r := InDecls(ds, name, public);
    if r.Some? { DeclsExactly(ds, name, public, r.value); }
    forall d <- ds, t | Offers(d, name, public, t) ensures r.Some? { DeclsExactly(ds, name, public, t); }
  }

  lemma {:induction false} FilesExactly(p: Project, from: nat, moduleName: string, name: string, public: bool)
    requires Wellformed(p) && from <= |p|
    requires forall k, u :: 0 <= k < from && p[k].moduleName == moduleName ==> !FileOffers(p[k], name, public, u)
    ensures match InFiles(p, from, moduleName, name, public)
            case Some((o, t)) => ModuleOffers(p, moduleName, name, public, o, t)
            case None => forall k, u :: 0 <= k < |p| && p[k].moduleName == moduleName ==> !FileOffers(p[k], name, public, u)
    decreases |p| - from
  {
    hide InDecls, Offers;
    if from < |p| {
      assert p[from] in p;
      var r := InDecls(p[from].decls, name, public);
      NoDecl(p[from].decls, name, public);
      if p[from].moduleName == moduleName && r.Some? {
        DeclsExactly(p[from].decls, name, public, r.value);
      } else {
        FilesExactly(p, from + 1, moduleName, name, public);
      }
    }
  }

  /** In every file of the module at most one declaration has the name. */
  lemma OnlyOffer(p: Project, moduleName: string, name: string, public: bool, o: nat, t: Ty, o': nat, t': Ty)
    requires Wellformed(p) && ModuleOffers(p, moduleName, name, public, o, t) && ModuleOffers(p, moduleName, name, public, o', t')
    ensures o == o' && t == t'
  {
    hide Offers;
    assert p[o] in p;
    DeclsExactly(p[o].decls, name, public, t);
    DeclsExactly(p[o].decls, name, public, t');
  }

  lemma TypeInExactly(p: Project, file: nat, name: string, public: bool, o: nat, t: Ty)
    requires Wellformed(p) && file < |p|
    ensures TypeIn(p, file, name, public) == Some((o, t)) <==> ModuleOffers(p, p[file].moduleName, name, public, o, t)
  {
    hide InFiles, FileOffers;
    FilesExactly(p, 0, p[file].moduleName, name, public);
    var r := TypeIn(p, file, name, public);
    if ModuleOffers(p, p[file].moduleName, name, public, o, t) {
      if r.Some? { OnlyOffer(p, p[file].moduleName, name, public, o, t, r.value.0, r.value.1); }
    }
  }

  /** What the imports of a file offer under the name. */
  ghost predicate ImportOffers(p: Project, imports: seq<(string, nat)>, name: string, o: nat, t: Ty) {
    exists i <- imports :: i.1 < |p| && ModuleOffers(p, p[i.1].moduleName, name, true, o, t)
  }

  /** A qualified name means what the module imported under that name exports. A bare name
      means a type of its own module if there is one, and else the only one that the imports
      offer. */
  ghost predicate Means(p: Project, file: nat, name: Name, o: nat, t: Ty)
    requires file < |p|
  {
    var imports := p[file].imports;
    match name
    case Qualified(alias, n) =>
      exists k :: 0 <= k < |imports| && imports[k].0 == alias && (forall j :: 0 <= j < k ==> imports[j].0 != alias)
                  && imports[k].1 < |p| && ModuleOffers(p, p[imports[k].1].moduleName, n, true, o, t)
    case Bare(n) =>
      || ModuleOffers(p, p[file].moduleName, n, false, o, t)
      || (&& (forall o': nat, t': Ty :: !ModuleOffers(p, p[file].moduleName, n, false, o', t'))
          && ImportOffers(p, imports, n, o, t)
          && forall o': nat, t': Ty :: ImportOffers(p, imports, n, o', t') ==> o' == o && t' == t)
  }

  lemma CandidatesOffer(p: Project, imports: seq<(string, nat)>, name: string, o: nat, t: Ty)
    requires Wellformed(p) && forall i <- imports :: i.1 < |p|
    ensures (o, t) in Candidates(p, imports, name) <==> ImportOffers(p, imports, name, o, t)
  {
    hide ModuleOffers, TypeIn;
    forall i <- imports ensures TypeIn(p, i.1, name, true) == Some((o, t)) <==> ModuleOffers(p, p[i.1].moduleName, name, true, o, t) {
      TypeInExactly(p, i.1, name, true, o, t);
    }
  }

  lemma {:induction false} ImportIs(imports: seq<(string, nat)>, alias: string)
    ensures match Import(imports, alias)
            case Some(f) => exists k :: 0 <= k < |imports| && imports[k] == (alias, f) && forall j :: 0 <= j < k ==> imports[j].0 != alias
            case None => forall j :: 0 <= j < |imports| ==> imports[j].0 != alias
    decreases |imports|
  {
    if imports != [] {
      if imports[0].0 == alias {
        assert imports[0] == (alias, imports[0].1);
      } else {
        ImportIs(imports[1..], alias);
        var r := Import(imports[1..], alias);
        if r.Some? {
          var k :| 0 <= k < |imports[1..]| && imports[1..][k] == (alias, r.value) && forall j :: 0 <= j < k ==> imports[1..][j].0 != alias;
          assert imports[k + 1] == (alias, r.value);
          forall j | 0 <= j < k + 1 ensures imports[j].0 != alias {
            if j > 0 { assert imports[j] == imports[1..][j - 1]; }
          }
        } else {
          forall j | 0 <= j < |imports| ensures imports[j].0 != alias {
            if j > 0 { assert imports[j] == imports[1..][j - 1]; }
          }
        }
      }
    }
  }

  lemma QualifiedExactly(p: Project, file: nat, alias: string, n: string, o: nat, t: Ty)
    requires Wellformed(p) && file < |p|
    ensures var r := Lookup(p, file, Qualified(alias, n)); !r.Many? && (r == One(o, t) <==> Means(p, file, Qualified(alias, n), o, t))
  {
    hide ModuleOffers, TypeIn, Import;
    assert p[file] in p;
    var imports := p[file].imports;
    ImportIn(imports, alias);
    ImportIs(imports, alias);
    var dep := Import(imports, alias);
    if dep.Some? { TypeInExactly(p, dep.value, n, true, o, t); }
  }

  lemma BareExactly(p: Project, imports: seq<(string, nat)>, n: string, o: nat, t: Ty)
    requires Wellformed(p) && forall i <- imports :: i.1 < |p|
    ensures var r := Imported(p, imports, n);
            && (r == One(o, t) <==> ImportOffers(p, imports, n, o, t) && forall o': nat, t': Ty :: ImportOffers(p, imports, n, o', t') ==> o' == o && t' == t)
            && (r.Many? <==> exists a: nat, u: Ty, b: nat, v: Ty ::
                  ImportOffers(p, imports, n, a, u) && ImportOffers(p, imports, n, b, v) && (a, u) != (b, v))
  {
    hide ImportOffers, TypeIn, Imported, Candidates;
    AmbiguousExactly(p, imports, n);
    forall a: nat, u: Ty ensures (a, u) in Candidates(p, imports, n) <==> ImportOffers(p, imports, n, a, u) { CandidatesOffer(p, imports, n, a, u); }
    var r := Imported(p, imports, n);
    if r.Many? {
      var c, d :| c in Candidates(p, imports, n) && d in Candidates(p, imports, n) && c != d;
      assert ImportOffers(p, imports, n, c.0, c.1) && ImportOffers(p, imports, n, d.0, d.1);
    }
  }

  /** For every well-formed project and name: found exactly when it means one type, ambiguous
      exactly when it is bare, not of its own module, and the imports offer different types. */
  lemma LookupExactly(p: Project, file: nat, name: Name, o: nat, t: Ty)
    requires Wellformed(p) && file < |p|
    ensures Lookup(p, file, name) == One(o, t) <==> Means(p, file, name, o, t)
    ensures Lookup(p, file, name).Many? <==>
            && name.Bare? && (forall o': nat, t': Ty :: !ModuleOffers(p, p[file].moduleName, name.n, false, o', t'))
            && exists a: nat, u: Ty, b: nat, v: Ty :: ImportOffers(p, p[file].imports, name.n, a, u) && ImportOffers(p, p[file].imports, name.n, b, v) && (a, u) != (b, v)
  {
    hide ModuleOffers, TypeIn, ImportOffers, Imported;
    assert p[file] in p;
    match name
    case Qualified(alias, n) => QualifiedExactly(p, file, alias, n, o, t);
    case Bare(n) =>
      var own := TypeIn(p, file, n, false);
      forall o': nat, t': Ty ensures own == Some((o', t')) <==> ModuleOffers(p, p[file].moduleName, n, false, o', t') {
        TypeInExactly(p, file, n, false, o', t');
      }
      if own.None? { BareExactly(p, p[file].imports, n, o, t); }
  }
}
