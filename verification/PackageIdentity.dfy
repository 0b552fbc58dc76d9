/** What the three hashes of a package depend on, in terms of the fields of
    packages: exactly when a hash exists, and exactly when two are equal. */
module PackageIdentity {
  import opened Options
  import opened HashText
  import opened SortedStrings
  import opened PackageHash

  /** The packages have the same path and the same sources: the same files with
      the same contents, if they are in the current module or have no build ID,
      and the same build ID otherwise. */
  ghost predicate SameOwn(a: Package, b: Package) {
    && a.path == b.path
    && (a.currentModule || a.buildID == "" <==> b.currentModule || b.buildID == "")
    && (if a.currentModule || a.buildID == "" then a.files == b.files else a.buildID == b.buildID)
  }

  lemma SourceMeans(a: Package, b: Package)
    requires Readable(a) && Readable(b)
    ensures a.path == b.path && SourceOf(a) == SourceOf(b) <==> SameOwn(a, b)
  {
    if SourceOf(a) == SourceOf(b) && SourceOf(a).Files? {
      var l, m := SourceOf(a).files, SourceOf(b).files;
      assert |a.files| == |l| == |m| == |b.files|;
      forall i | 0 <= i < |a.files|
        ensures a.files[i] == b.files[i]
      {
        assert l[i] == m[i];
      }
    }
  }

  lemma ReadableMeans(pkg: Package)
    ensures Readable(pkg) <==>
            (pkg.currentModule || pkg.buildID == "" ==> forall i :: 0 <= i < |pkg.files| ==> pkg.files[i].contents.Some?)
  {
  }

  lemma HashedIff(g: Graph, salt: string, p: Id)
    requires g.Valid() && p in g.pkgs
    ensures Hashes(g, salt, p).Some? <==>
            Readable(g.pkgs[p]) && DepHashes(g, salt, p).Keys == g.pkgs[p].imports.Keys - {UNSAFE}
  {
    hide Combine, DepHashes, Readable;
  }

  /** A package has hashes exactly if its files can be read, where they count,
      and the packages it imports, other than `unsafe`, have hashes. */
  lemma HashExistsIff(g: Graph, salt: string, p: Id)
    requires g.Valid() && p in g.pkgs
    ensures Hashes(g, salt, p).Some? <==>
            && (g.pkgs[p].currentModule || g.pkgs[p].buildID == "" ==>
                  forall i :: 0 <= i < |g.pkgs[p].files| ==> g.pkgs[p].files[i].contents.Some?)
            && (forall k :: k in g.pkgs[p].imports && k != "unsafe" ==> Hashes(g, salt, g.pkgs[p].imports[k]).Some?)
  {
    var pkg, hs := g.pkgs[p], DepHashes(g, salt, p);
    ReadableMeans(pkg);
    HashedIff(g, salt, p);
    hide Hashes, DepHashes, Readable;
    if hs.Keys == pkg.imports.Keys - {UNSAFE} {
      forall k | k in pkg.imports && k != UNSAFE
        ensures Hashes(g, salt, pkg.imports[k]).Some?
      {
        assert k in hs.Keys;
      }
    }
    if forall k :: k in pkg.imports && k != UNSAFE ==> Hashes(g, salt, pkg.imports[k]).Some? {
      forall k
        ensures k in hs.Keys <==> k in pkg.imports.Keys - {UNSAFE}
      {
      }
      assert hs.Keys == pkg.imports.Keys - {UNSAFE};
    }
  }

  // ----- When hashes are equal

  lemma SelfLinesIff(a: Package, b: Package)
    requires Readable(a) && Readable(b)
    ensures SelfLines(a) == SelfLines(b) <==> SameOwn(a, b)
  {
    SourceMeans(a, b);
    if SelfLines(a) == SelfLines(b) {
      hide SelfLines, SourceOf, SameOwn;
      SelfLinesInjective(a, b);
    }
  }

  lemma SelfNewlineFree(pkg: Package)
    requires Readable(pkg) && OneLiner(pkg)
    ensures NewlineFree(SelfLines(pkg))
  {
    LinesNewlineFree(pkg.path, Sum([]));
    SourceNewlineFree(SourceOf(pkg));
  }

  lemma SaltedEqual(salt: string, x: seq<Line>, y: seq<Line>)
    requires NewlineFree(x) && NewlineFree(y)
    ensures Sum(Text(salt) + Flat(x)) == Sum(Text(salt) + Flat(y)) <==> x == y
  {
    if Sum(Text(salt) + Flat(x)) == Sum(Text(salt) + Flat(y)) {
      assert Flat(x) == (Text(salt) + Flat(x))[|salt|..];
      assert Flat(y) == (Text(salt) + Flat(y))[|salt|..];
      FlatInjective(x, y);
    }
  }

  /** The hash of a package on its own. */
  lemma OnlySelfIff(g: Graph, h: Graph, salt: string, p: Id, q: Id)
    requires g.Valid() && OneLiners(g) && p in g.pkgs && Hashes(g, salt, p).Some?
    requires h.Valid() && OneLiners(h) && q in h.pkgs && Hashes(h, salt, q).Some?
    ensures Hashes(g, salt, p).value.onlySelf == Hashes(h, salt, q).value.onlySelf <==> SameOwn(g.pkgs[p], h.pkgs[q])
  {
    hide Hashes, DepHashes, SelfLines, Flat, SameOwn;
    HashesNeedDeps(g, salt, p);
    HashesNeedDeps(h, salt, q);
    var a, b := g.pkgs[p], h.pkgs[q];
    SelfNewlineFree(a);
    SelfNewlineFree(b);
    SaltedEqual(salt, SelfLines(a), SelfLines(b));
    SelfLinesIff(a, b);
  }

  /** The packages import the same paths, apart from `unsafe`. */
  ghost predicate SameImports(a: Package, b: Package) {
    forall k :: k != "unsafe" ==> (k in a.imports <==> k in b.imports)
  }

  lemma SameDeps(a: Package, b: Package)
    ensures SameImports(a, b) <==> Deps(a) == Deps(b)
  {
    if SameImports(a, b) {
      assert a.imports.Keys - {UNSAFE} == b.imports.Keys - {UNSAFE};
      SortedUnique(Deps(a), Deps(b));
    } else {
      assert Elements(Deps(a)) != Elements(Deps(b)) by {
        var k :| k != "unsafe" && !(k in a.imports <==> k in b.imports);
        assert k in Elements(Deps(a)) <==> k in a.imports;
        assert k in Elements(Deps(b)) <==> k in b.imports;
      }
    }
  }

  lemma DirectLinesIff(a: Package, hs: map<string, Results>, b: Package, js: map<string, Results>)
    requires Readable(a) && hs.Keys == a.imports.Keys - {UNSAFE} && OneLiner(a)
    requires Readable(b) && js.Keys == b.imports.Keys - {UNSAFE} && OneLiner(b)
    ensures SelfLines(a) + ImportLines(Deps(a), OnlySelf(hs)) == SelfLines(b) + ImportLines(Deps(b), OnlySelf(js)) <==>
            SameOwn(a, b) && SameImports(a, b) && forall k :: k in hs && k in js ==> hs[k].onlySelf == js[k].onlySelf
  {
    var i1, j1 := ImportLines(Deps(a), OnlySelf(hs)), ImportLines(Deps(b), OnlySelf(js));
    SelfLinesIff(a, b);
    SameDeps(a, b);
    SelfLinesKind(a);
    SelfLinesKind(b);
    ImportsKind(a, hs);
    ImportsKind(b, js);
    hide SelfLines, SameOwn, SameImports, IsImport, ImportLine;
    if SelfLines(a) + i1 == SelfLines(b) + j1 {
      SplitAtImports(SelfLines(a), i1, SelfLines(b), j1);
      ImportLinesInjective(Deps(a), OnlySelf(hs), Deps(b), OnlySelf(js));
      OverDeps(a, hs, js);
    } else if SelfLines(a) == SelfLines(b) && Deps(a) == Deps(b) && forall k :: k in hs && k in js ==> hs[k].onlySelf == js[k].onlySelf {
      SameImportLines(a, b, hs, js);
    }
  }

  lemma OverDeps(a: Package, hs: map<string, Results>, js: map<string, Results>)
    requires hs.Keys == a.imports.Keys - {UNSAFE}
    requires forall i :: 0 <= i < |Deps(a)| ==> Deps(a)[i] in hs && Deps(a)[i] in js && hs[Deps(a)[i]].onlySelf == js[Deps(a)[i]].onlySelf
    ensures forall k :: k in hs && k in js ==> hs[k].onlySelf == js[k].onlySelf
  {
    forall k | k in hs && k in js
      ensures hs[k].onlySelf == js[k].onlySelf
    {
      assert k in Elements(Deps(a));
    }
  }

  lemma SameImportLines(a: Package, b: Package, hs: map<string, Results>, js: map<string, Results>)
    requires hs.Keys == a.imports.Keys - {UNSAFE} && js.Keys == b.imports.Keys - {UNSAFE} && Deps(a) == Deps(b)
    requires forall k :: k in hs && k in js ==> hs[k].onlySelf == js[k].onlySelf
    ensures ImportLines(Deps(a), OnlySelf(hs)) == ImportLines(Deps(b), OnlySelf(js))
  {
    hide ImportLine, Deps;
  }

  /** The hash of a package with its direct imports. */
  lemma DirectDepsIff(g: Graph, h: Graph, salt: string, p: Id, q: Id)
    requires g.Valid() && OneLiners(g) && p in g.pkgs && Hashes(g, salt, p).Some?
    requires h.Valid() && OneLiners(h) && q in h.pkgs && Hashes(h, salt, q).Some?
    ensures Hashes(g, salt, p).value.directDeps == Hashes(h, salt, q).value.directDeps <==>
            && SameOwn(g.pkgs[p], h.pkgs[q]) && SameImports(g.pkgs[p], h.pkgs[q])
            && (forall k :: k in g.pkgs[p].imports && k in h.pkgs[q].imports && k != "unsafe" ==>
                  SameOwn(g.pkgs[g.pkgs[p].imports[k]], h.pkgs[h.pkgs[q].imports[k]]))
  {
    var a, b := g.pkgs[p], h.pkgs[q];
    var hs, js := DepHashes(g, salt, p), DepHashes(h, salt, q);
    HashesNeedDeps(g, salt, p);
    HashesNeedDeps(h, salt, q);
    DirectTextsIff(salt, a, hs, b, js);
    assert Hashes(g, salt, p).value.directDeps == Combine(a, salt, hs).directDeps;
    assert Hashes(h, salt, q).value.directDeps == Combine(b, salt, js).directDeps;
    hide Hashes, DepHashes, Combine, SameOwn, SameImports, OneLiner;
    forall k | k in a.imports && k in b.imports && k != "unsafe"
      ensures k in hs && k in js && (hs[k].onlySelf == js[k].onlySelf <==> SameOwn(g.pkgs[a.imports[k]], h.pkgs[b.imports[k]]))
    {
      assert k in hs.Keys && k in js.Keys;
      OnlySelfIff(g, h, salt, a.imports[k], b.imports[k]);
    }
  }

  lemma DirectTextsIff(salt: string, a: Package, hs: map<string, Results>, b: Package, js: map<string, Results>)
    requires Readable(a) && hs.Keys == a.imports.Keys - {UNSAFE} && OneLiner(a)
    requires Readable(b) && js.Keys == b.imports.Keys - {UNSAFE} && OneLiner(b)
    ensures Combine(a, salt, hs).directDeps == Combine(b, salt, js).directDeps <==>
            SameOwn(a, b) && SameImports(a, b) && forall k :: k in hs && k in js ==> hs[k].onlySelf == js[k].onlySelf
  {
    hide SelfLines, Flat, SameOwn, SameImports, Deps;
    SelfNewlineFree(a);
    SelfNewlineFree(b);
    ImportsNewlineFree(Deps(a), OnlySelf(hs));
    ImportsNewlineFree(Deps(b), OnlySelf(js));
    SaltedEqual(salt, SelfLines(a) + ImportLines(Deps(a), OnlySelf(hs)), SelfLines(b) + ImportLines(Deps(b), OnlySelf(js)));
    DirectLinesIff(a, hs, b, js);
  }

  /** The imports in common, other than `unsafe`, have equal hashes. */
  ghost predicate ImportsAlike(g: Graph, h: Graph, salt: string, p: Id, q: Id)
    requires g.Valid() && p in g.pkgs && h.Valid() && q in h.pkgs
  {
    forall k :: k in g.pkgs[p].imports && k in h.pkgs[q].imports && k != "unsafe" ==>
      && Hashes(g, salt, g.pkgs[p].imports[k]).Some? && Hashes(h, salt, h.pkgs[q].imports[k]).Some?
      && Hashes(g, salt, g.pkgs[p].imports[k]).value.allDeps == Hashes(h, salt, h.pkgs[q].imports[k]).value.allDeps
  }

  /** The hash of a package with everything it imports. */
  lemma AllDepsIff(g: Graph, h: Graph, salt: string, p: Id, q: Id)
    requires g.Valid() && OneLiners(g) && p in g.pkgs && Hashes(g, salt, p).Some?
    requires h.Valid() && OneLiners(h) && q in h.pkgs && Hashes(h, salt, q).Some?
    ensures Hashes(g, salt, p).value.allDeps == Hashes(h, salt, q).value.allDeps <==>
            SameOwn(g.pkgs[p], h.pkgs[q]) && SameImports(g.pkgs[p], h.pkgs[q]) && ImportsAlike(g, h, salt, p, q)
  {
    hide Hashes, SameOwn, SameImports, ImportsAlike, OneLiners, Graph.Valid;
    if Hashes(g, salt, p).value.allDeps == Hashes(h, salt, q).value.allDeps {
      EqualMeansAlike(g, h, salt, p, q);
    }
    if SameOwn(g.pkgs[p], h.pkgs[q]) && SameImports(g.pkgs[p], h.pkgs[q]) && ImportsAlike(g, h, salt, p, q) {
      AlikeMeansEqual(g, h, salt, p, q);
    }
  }

  lemma EqualMeansAlike(g: Graph, h: Graph, salt: string, p: Id, q: Id)
    requires g.Valid() && OneLiners(g) && p in g.pkgs && Hashes(g, salt, p).Some?
    requires h.Valid() && OneLiners(h) && q in h.pkgs && Hashes(h, salt, q).Some?
    requires Hashes(g, salt, p).value.allDeps == Hashes(h, salt, q).value.allDeps
    ensures SameOwn(g.pkgs[p], h.pkgs[q]) && SameImports(g.pkgs[p], h.pkgs[q]) && ImportsAlike(g, h, salt, p, q)
  {
    var a, b := g.pkgs[p], h.pkgs[q];
    var hs, js := DepHashes(g, salt, p), DepHashes(h, salt, q);
    HashesNeedDeps(g, salt, p);
    HashesNeedDeps(h, salt, q);
    hide Hashes, DepHashes, Combine, SameOwn, SourceOf;
    SourceMeans(a, b);
    EqualTexts(salt, a, hs, b, js);
    AllLinesInjective(a, hs, b, js);
    SameKeys(a, b, hs, js);
    hide AllLines, SameImports, OneLiners;
    forall k | k in a.imports && k in b.imports && k != "unsafe"
      ensures k in hs && k in js
    {
      assert k in hs.Keys && k in js.Keys;
    }
  }

  lemma SameKeys(a: Package, b: Package, hs: map<string, Results>, js: map<string, Results>)
    requires hs.Keys == a.imports.Keys - {UNSAFE} && js.Keys == b.imports.Keys - {UNSAFE}
    ensures SameImports(a, b) <==> hs.Keys == js.Keys
  {
    forall k | k != "unsafe"
      ensures k in a.imports <==> k in hs.Keys
      ensures k in b.imports <==> k in js.Keys
    {
    }
  }

  lemma SameResults(g: Graph, h: Graph, salt: string, p: Id, q: Id)
    requires g.Valid() && OneLiners(g) && p in g.pkgs && Hashes(g, salt, p).Some?
    requires h.Valid() && OneLiners(h) && q in h.pkgs && Hashes(h, salt, q).Some?
    requires Hashes(g, salt, p).value.allDeps == Hashes(h, salt, q).value.allDeps
    ensures Hashes(g, salt, p) == Hashes(h, salt, q)
  {
    hide Hashes, ClosureOf;
    EqualHash(g, h, salt, p, q);
    EqualClosure(g, h, salt, p, q);
  }

  lemma SameDepHash(g: Graph, h: Graph, salt: string, p: Id, q: Id, k: string)
    requires g.Valid() && OneLiners(g) && p in g.pkgs && h.Valid() && OneLiners(h) && q in h.pkgs
    requires ImportsAlike(g, h, salt, p, q) && k in DepHashes(g, salt, p) && k in DepHashes(h, salt, q)
    ensures DepHashes(g, salt, p)[k] == DepHashes(h, salt, q)[k]
  {
    hide Hashes, DepHashes, OneLiners;
    SameResults(g, h, salt, g.pkgs[p].imports[k], h.pkgs[q].imports[k]);
  }

  lemma SameDepHashes(g: Graph, h: Graph, salt: string, p: Id, q: Id)
    requires g.Valid() && OneLiners(g) && p in g.pkgs && Hashes(g, salt, p).Some?
    requires h.Valid() && OneLiners(h) && q in h.pkgs && Hashes(h, salt, q).Some?
    requires SameImports(g.pkgs[p], h.pkgs[q]) && ImportsAlike(g, h, salt, p, q)
    ensures DepHashes(g, salt, p) == DepHashes(h, salt, q)
  {
    var hs, js := DepHashes(g, salt, p), DepHashes(h, salt, q);
    HashesNeedDeps(g, salt, p);
    HashesNeedDeps(h, salt, q);
    hide Hashes, DepHashes, Combine, OneLiners, ImportsAlike, Graph.Valid, Readable;
    SameKeys(g.pkgs[p], h.pkgs[q], hs, js);
    forall k | k in hs
      ensures k in js && hs[k] == js[k]
    {
      assert k in js.Keys;
      SameDepHash(g, h, salt, p, q, k);
    }
    SameMaps(hs, js);
  }

  lemma SameMaps(hs: map<string, Results>, js: map<string, Results>)
    requires hs.Keys == js.Keys && forall k :: k in hs ==> k in js && hs[k] == js[k]
    ensures hs == js
  {
  }

  lemma AlikeMeansEqual(g: Graph, h: Graph, salt: string, p: Id, q: Id)
    requires g.Valid() && OneLiners(g) && p in g.pkgs && Hashes(g, salt, p).Some?
    requires h.Valid() && OneLiners(h) && q in h.pkgs && Hashes(h, salt, q).Some?
    requires SameOwn(g.pkgs[p], h.pkgs[q]) && SameImports(g.pkgs[p], h.pkgs[q]) && ImportsAlike(g, h, salt, p, q)
    ensures Hashes(g, salt, p) == Hashes(h, salt, q)
  {
    HashesNeedDeps(g, salt, p);
    HashesNeedDeps(h, salt, q);
    SameDepHashes(g, h, salt, p, q);
    SourceMeans(g.pkgs[p], h.pkgs[q]);
    hide Hashes, DepHashes, Combine, OneLiners, SameOwn, SourceOf, ImportsAlike;
    SameInputs(g.pkgs[p], h.pkgs[q], salt, DepHashes(g, salt, p));
  }

  // ----- What does not matter

  /** The graph with other files in one package. */
  ghost function WithFiles(g: Graph, p: Id, files: seq<File>): Graph
    requires p in g.pkgs
  {
    g.(pkgs := g.pkgs[p := g.pkgs[p].(files := files)])
  }

  lemma {:induction false} BelowUnchanged(g: Graph, salt: string, p: Id, files: seq<File>, q: Id)
    requires g.Valid() && p in g.pkgs && WithFiles(g, p, files).Valid() && q in g.pkgs && q != p && g.rank(q) <= g.rank(p)
    ensures Hashes(WithFiles(g, p, files), salt, q) == Hashes(g, salt, q)
    decreases g.rank(q)
  {
    var h := WithFiles(g, p, files);
    forall k | k in g.pkgs[q].imports && k != UNSAFE
      ensures Hashes(h, salt, g.pkgs[q].imports[k]) == Hashes(g, salt, g.pkgs[q].imports[k])
    {
      BelowUnchanged(g, salt, p, files, g.pkgs[q].imports[k]);
    }
    hide Combine;
    assert DepHashes(h, salt, q) == DepHashes(g, salt, q);
  }

  /** Outside the current module, a build ID stands for the files: the hashes do
      not depend on them, not even on whether they can be read. */
  lemma FilesDoNotMatter(g: Graph, salt: string, p: Id, files: seq<File>)
    requires g.Valid() && p in g.pkgs && !g.pkgs[p].currentModule && g.pkgs[p].buildID != ""
    ensures WithFiles(g, p, files).Valid() && Hashes(WithFiles(g, p, files), salt, p) == Hashes(g, salt, p)
  {
    var h := WithFiles(g, p, files);
    forall k | k in g.pkgs[p].imports && k != UNSAFE
      ensures Hashes(h, salt, g.pkgs[p].imports[k]) == Hashes(g, salt, g.pkgs[p].imports[k])
    {
      BelowUnchanged(g, salt, p, files, g.pkgs[p].imports[k]);
    }
    assert DepHashes(h, salt, p) == DepHashes(g, salt, p);
    if Hashes(g, salt, p).Some? {
      hide Combine;
      SameInputs(h.pkgs[p], g.pkgs[p], salt, DepHashes(g, salt, p));
    }
  }
}
