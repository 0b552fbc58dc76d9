/** The per-package hash: over a package's own sources and, in the deeper
    modes, over the hashes of the packages it imports. */
module PackageHash {
  import opened Options
  import opened HashText
  import opened StringOrder
  import opened SortedStrings

  type Id = nat

  /** A source file as it is printed into the hash; an unreadable file has no
      contents. */
  datatype File = File(name: string, contents: Option<string>)

  /** `imports` maps the package path of each import to the package. */
  datatype Package = Package(path: string, buildID: string, currentModule: bool, files: seq<File>, imports: map<string, Id>)

  /** `rank` witnesses that imports are acyclic. */
  datatype Graph = Graph(pkgs: map<Id, Package>, rank: Id -> nat) {
    ghost predicate Valid() {
      forall p, k :: p in pkgs && k in pkgs[p].imports ==>
        && pkgs[p].imports[k] in pkgs
        && pkgs[pkgs[p].imports[k]].path == k
        && rank(pkgs[p].imports[k]) < rank(p)
    }
  }

  // ----- The hashed text

  const UNSAFE := "unsafe"

  /** The identity of a package's own sources: the build ID that `go list`
      computed, outside the edited modules, and the files otherwise. */
  datatype Source = BuildID(id: string) | Files(files: seq<(string, string)>)

  predicate UsesBuildID(pkg: Package) { pkg.buildID != "" && !pkg.currentModule }

  predicate Readable(pkg: Package) {
    UsesBuildID(pkg) || forall i :: 0 <= i < |pkg.files| ==> pkg.files[i].contents.Some?
  }

  function SourceOf(pkg: Package): Source
    requires Readable(pkg)
  {
    if UsesBuildID(pkg) then BuildID(pkg.buildID)
    else Files(seq(|pkg.files|, i requires 0 <= i < |pkg.files| => (pkg.files[i].name, pkg.files[i].contents.value)))
  }

  function FileSum(contents: string): Digest { Sum(Text(contents)) }

  function SourceLines(source: Source): (r: seq<Line>)
    ensures source.BuildID? ==> r == [BuildLine(source.id)]
    ensures source.Files? ==> |r| == |source.files| &&
                              forall i :: 0 <= i < |r| ==> r[i] == FileLine(source.files[i].0, FileSum(source.files[i].1))
  {
    match source
    case BuildID(id) => [BuildLine(id)]
    case Files(fs) => seq(|fs|, i requires 0 <= i < |fs| => FileLine(fs[i].0, FileSum(fs[i].1)))
  }

  function ImportLines(paths: seq<string>, digests: map<string, Digest>): (r: seq<Line>)
    requires forall i :: 0 <= i < |paths| ==> paths[i] in digests
    ensures |r| == |paths| && forall i :: 0 <= i < |r| ==> r[i] == ImportLine(paths[i], digests[paths[i]])
  {
    seq(|paths|, i requires 0 <= i < |paths| => ImportLine(paths[i], digests[paths[i]]))
  }

  function WithoutUnsafe(paths: seq<string>): seq<string> {
    if paths == [] then []
    else
      var init, last := paths[..|paths| - 1], paths[|paths| - 1];
      if last == UNSAFE then WithoutUnsafe(init) else WithoutUnsafe(init) + [last]
  }

  lemma {:induction false} WithoutUnsafeSorted(paths: seq<string>)
    requires Sorted(paths)
    ensures Sorted(WithoutUnsafe(paths)) && Elements(WithoutUnsafe(paths)) == Elements(paths) - {UNSAFE}
  {
    if paths != [] {
      var init, last := paths[..|paths| - 1], paths[|paths| - 1];
      WithoutUnsafeSorted(init);
      assert paths == init + [last];
      assert Elements(paths) == Elements(init) + {last};
      assert Elements(WithoutUnsafe(init) + [last]) == Elements(WithoutUnsafe(init)) + {last};
      forall i | 0 <= i < |WithoutUnsafe(init)|
        ensures Less(WithoutUnsafe(init)[i], last)
      {
        assert WithoutUnsafe(init)[i] in Elements(WithoutUnsafe(init));
        assert WithoutUnsafe(init)[i] in init;
      }
    }
  }

  /** The imports that enter the hash, in the order in which they do. */
  ghost function Deps(pkg: Package): (r: seq<string>)
    ensures Sorted(r) && Elements(r) == pkg.imports.Keys - {UNSAFE}
    ensures forall i :: 0 <= i < |r| ==> r[i] in pkg.imports && r[i] != UNSAFE
  {
    WithoutUnsafeSorted(SortedSeq(pkg.imports.Keys));
    var r := WithoutUnsafe(SortedSeq(pkg.imports.Keys));
    assert forall i :: 0 <= i < |r| ==> r[i] in Elements(r);
    r
  }

  ghost function SelfLines(pkg: Package): seq<Line>
    requires Readable(pkg)
  {
    [PathLine(pkg.path)] + SourceLines(SourceOf(pkg))
  }

  // ----- The hash as a recursive function

  /** One digest for each mode. */
  datatype Results = Results(onlySelf: Digest, directDeps: Digest, allDeps: Digest)

  ghost function OnlySelf(hs: map<string, Results>): map<string, Digest> { map k | k in hs :: hs[k].onlySelf }
  ghost function AllDeps(hs: map<string, Results>): map<string, Digest> { map k | k in hs :: hs[k].allDeps }

  /** The hashes of a package, or none if some file that enters them cannot be
      read. `salt` starts every hash. */
  ghost function Hashes(g: Graph, salt: string, p: Id): Option<Results>
    requires g.Valid() && p in g.pkgs
    decreases g.rank(p), 1
  {
    var pkg, hs := g.pkgs[p], DepHashes(g, salt, p);
    if !Readable(pkg) || hs.Keys != pkg.imports.Keys - {UNSAFE} then None
    else Some(Combine(pkg, salt, hs))
  }

  /** The hashes of those imports of `p` that have them. */
  ghost function DepHashes(g: Graph, salt: string, p: Id): (hs: map<string, Results>)
    requires g.Valid() && p in g.pkgs
    ensures forall k :: k in hs <==>
              k in g.pkgs[p].imports && k != UNSAFE && Hashes(g, salt, g.pkgs[p].imports[k]).Some?
    ensures forall k :: k in hs ==> Hashes(g, salt, g.pkgs[p].imports[k]) == Some(hs[k])
    decreases g.rank(p), 0
  {
    var pkg := g.pkgs[p];
    map k | k in pkg.imports && k != UNSAFE && Hashes(g, salt, pkg.imports[k]).Some?
      :: Hashes(g, salt, pkg.imports[k]).value
  }

  ghost function Combine(pkg: Package, salt: string, hs: map<string, Results>): Results
    requires Readable(pkg) && hs.Keys == pkg.imports.Keys - {UNSAFE}
  {
    var self := SelfLines(pkg);
    var direct := self + ImportLines(Deps(pkg), OnlySelf(hs));
    var all := direct + ImportLines(Deps(pkg), AllDeps(hs));
    Results(Sum(Text(salt) + Flat(self)), Sum(Text(salt) + Flat(direct)), Sum(Text(salt) + Flat(all)))
  }

  // ----- Equal hashes mean equal import closures

  /** A package's sources and, by package path, those of everything it imports. */
  datatype Closure = Closure(path: string, source: Source, deps: map<string, Closure>)

  ghost function ClosureOf(g: Graph, salt: string, p: Id): Closure
    requires g.Valid() && p in g.pkgs && Hashes(g, salt, p).Some?
    decreases g.rank(p)
  {
    var pkg := g.pkgs[p];
    HashesNeedDeps(g, salt, p);
    Closure(pkg.path, SourceOf(pkg), map k | k in pkg.imports && k != UNSAFE :: ClosureOf(g, salt, pkg.imports[k]))
  }

  lemma HashesNeedDeps(g: Graph, salt: string, p: Id)
    requires g.Valid() && p in g.pkgs && Hashes(g, salt, p).Some?
    ensures forall k :: k in g.pkgs[p].imports && k != UNSAFE ==> Hashes(g, salt, g.pkgs[p].imports[k]).Some?
    ensures Readable(g.pkgs[p]) && DepHashes(g, salt, p).Keys == g.pkgs[p].imports.Keys - {UNSAFE}
    ensures Hashes(g, salt, p) == Some(Combine(g.pkgs[p], salt, DepHashes(g, salt, p)))
  {
    forall k | k in g.pkgs[p].imports && k != UNSAFE
      ensures Hashes(g, salt, g.pkgs[p].imports[k]).Some?
    {
      assert k in DepHashes(g, salt, p).Keys;
    }
  }

  /** Import lines start with `i`, the others do not. */
  lemma KindsOfLines(s: string, d: Digest)
    ensures PathLine(s)[0] == Ch('p') && BuildLine(s)[0] == Ch('b')
    ensures FileLine(s, d)[0] == Ch('f') && ImportLine(s, d)[0] == Ch('i')
  {
  }

  lemma SourceLinesKind(source: Source)
    ensures forall i :: 0 <= i < |SourceLines(source)| ==> !IsImport(SourceLines(source)[i])
  {
  }

  /** How many lines precede the first import line. */
  ghost function Lead(l: seq<Line>): nat {
    if l == [] || IsImport(l[0]) then 0 else 1 + Lead(l[1..])
  }

  lemma {:induction false} LeadOf(a: seq<Line>, b: seq<Line>)
    requires forall i :: 0 <= i < |a| ==> !IsImport(a[i])
    requires forall i :: 0 <= i < |b| ==> IsImport(b[i])
    ensures Lead(a + b) == |a|
  {
    if a == [] {
      assert a + b == b;
    } else {
      LeadOf(a[1..], b);
      assert (a + b)[1..] == a[1..] + b;
    }
  }

  /** Two lists of other lines, each followed by import lines, split alike. */
  lemma SplitAtImports(a: seq<Line>, b: seq<Line>, c: seq<Line>, d: seq<Line>)
    requires a + b == c + d
    requires forall i :: 0 <= i < |a| ==> !IsImport(a[i])
    requires forall i :: 0 <= i < |c| ==> !IsImport(c[i])
    requires forall i :: 0 <= i < |b| ==> IsImport(b[i])
    requires forall i :: 0 <= i < |d| ==> IsImport(d[i])
    ensures a == c && b == d
  {
    LeadOf(a, b);
    LeadOf(c, d);
    var l := a + b;
    assert a == l[..|a|] && c == l[..|c|] && b == l[|a|..] && d == l[|c|..];
  }

  lemma SourceLinesInjective(s: Source, t: Source)
    requires SourceLines(s) == SourceLines(t)
    ensures s == t
  {
    if SourceLines(s) == [] {
      return;
    }
    assert SourceLines(s)[0] == SourceLines(t)[0];
    match s
    case BuildID(id) =>
      KindsOfLines(id, Sum([]));
      if t.Files? {
        KindsOfLines(t.files[0].0, FileSum(t.files[0].1));
      } else {
        SuffixInjective(Text("buildid "), id, t.id);
      }
    case Files(fs) =>
      KindsOfLines(fs[0].0, FileSum(fs[0].1));
      if t.BuildID? {
        KindsOfLines(t.id, Sum([]));
      } else {
        forall i | 0 <= i < |fs|
          ensures fs[i] == t.files[i]
        {
          assert SourceLines(s)[i] == SourceLines(t)[i];
          DigestLineInjective(Text("file "), fs[i].0, FileSum(fs[i].1), t.files[i].0, FileSum(t.files[i].1));
          TextInjective(fs[i].1, t.files[i].1);
        }
      }
  }

  ghost function AllLines(pkg: Package, hs: map<string, Results>): seq<Line>
    requires Readable(pkg) && hs.Keys == pkg.imports.Keys - {UNSAFE}
  {
    SelfLines(pkg) + ImportLines(Deps(pkg), OnlySelf(hs)) + ImportLines(Deps(pkg), AllDeps(hs))
  }

  ghost predicate OneLiner(pkg: Package) {
    && OneLine(pkg.path) && OneLine(pkg.buildID)
    && (forall i :: 0 <= i < |pkg.files| ==> OneLine(pkg.files[i].name))
    && (forall k :: k in pkg.imports ==> OneLine(k))
  }

  lemma AllLinesNewlineFree(pkg: Package, hs: map<string, Results>)
    requires Readable(pkg) && hs.Keys == pkg.imports.Keys - {UNSAFE} && OneLiner(pkg)
    ensures NewlineFree(AllLines(pkg, hs))
  {
    assert NewlineFree([PathLine(pkg.path)]) by {
      LinesNewlineFree(pkg.path, Sum([]));
    }
    assert NewlineFree(SourceLines(SourceOf(pkg))) by {
      SourceNewlineFree(SourceOf(pkg));
    }
    ImportsNewlineFree(Deps(pkg), OnlySelf(hs));
    ImportsNewlineFree(Deps(pkg), AllDeps(hs));
  }

  lemma SourceNewlineFree(source: Source)
    requires source.BuildID? ==> OneLine(source.id)
    requires source.Files? ==> forall i :: 0 <= i < |source.files| ==> OneLine(source.files[i].0)
    ensures NewlineFree(SourceLines(source))
  {
    if source.BuildID? {
      LinesNewlineFree(source.id, Sum([]));
    } else {
      forall i | 0 <= i < |source.files|
        ensures NEWLINE !in SourceLines(source)[i]
      {
        LinesNewlineFree(source.files[i].0, FileSum(source.files[i].1));
      }
    }
  }

  lemma ImportsNewlineFree(paths: seq<string>, digests: map<string, Digest>)
    requires forall i :: 0 <= i < |paths| ==> paths[i] in digests && OneLine(paths[i])
    ensures NewlineFree(ImportLines(paths, digests))
    ensures forall i :: 0 <= i < |paths| ==> IsImport(ImportLines(paths, digests)[i])
  {
    forall i | 0 <= i < |paths|
      ensures NEWLINE !in ImportLines(paths, digests)[i] && IsImport(ImportLines(paths, digests)[i])
    {
      LinesNewlineFree(paths[i], digests[paths[i]]);
      KindsOfLines(paths[i], digests[paths[i]]);
    }
  }

  lemma ImportLinesInjective(a: seq<string>, m: map<string, Digest>, b: seq<string>, n: map<string, Digest>)
    requires forall i :: 0 <= i < |a| ==> a[i] in m
    requires forall i :: 0 <= i < |b| ==> b[i] in n
    requires ImportLines(a, m) == ImportLines(b, n)
    ensures a == b && forall i :: 0 <= i < |a| ==> m[a[i]] == n[a[i]]
  {
    assert |a| == |ImportLines(a, m)| == |b|;
    forall i | 0 <= i < |a|
      ensures a[i] == b[i] && m[a[i]] == n[b[i]]
    {
      assert ImportLines(a, m)[i] == ImportLines(b, n)[i];
      DigestLineInjective(Text("import "), a[i], m[a[i]], b[i], n[b[i]]);
    }
  }

  lemma SplitThrice(s: seq<Line>, i1: seq<Line>, i2: seq<Line>, t: seq<Line>, j1: seq<Line>, j2: seq<Line>)
    requires s + i1 + i2 == t + j1 + j2 && |i1| == |i2| && |j1| == |j2|
    requires forall i :: 0 <= i < |s| ==> !IsImport(s[i])
    requires forall i :: 0 <= i < |t| ==> !IsImport(t[i])
    requires forall i :: 0 <= i < |i1| ==> IsImport(i1[i]) && IsImport(i2[i])
    requires forall i :: 0 <= i < |j1| ==> IsImport(j1[i]) && IsImport(j2[i])
    ensures s == t && i2 == j2
  {
    hide IsImport;
    assert s + i1 + i2 == s + (i1 + i2) && t + j1 + j2 == t + (j1 + j2);
    SplitAtImports(s, i1 + i2, t, j1 + j2);
    assert i2 == (i1 + i2)[|i1|..] && j2 == (j1 + j2)[|j1|..];
  }

  lemma ImportsKind(pkg: Package, hs: map<string, Results>)
    requires hs.Keys == pkg.imports.Keys - {UNSAFE} && OneLiner(pkg)
    ensures var i1, i2 := ImportLines(Deps(pkg), OnlySelf(hs)), ImportLines(Deps(pkg), AllDeps(hs));
            |i1| == |i2| && forall i :: 0 <= i < |i1| ==> IsImport(i1[i]) && IsImport(i2[i])
  {
    hide IsImport, Deps;
    ImportsNewlineFree(Deps(pkg), OnlySelf(hs));
    ImportsNewlineFree(Deps(pkg), AllDeps(hs));
  }

  lemma LinesSplit(a: Package, hs: map<string, Results>, b: Package, js: map<string, Results>)
    requires Readable(a) && hs.Keys == a.imports.Keys - {UNSAFE} && OneLiner(a)
    requires Readable(b) && js.Keys == b.imports.Keys - {UNSAFE} && OneLiner(b)
    requires AllLines(a, hs) == AllLines(b, js)
    ensures SelfLines(a) == SelfLines(b)
    ensures ImportLines(Deps(a), AllDeps(hs)) == ImportLines(Deps(b), AllDeps(js))
  {
    hide SelfLines, Deps, IsImport, ImportLine;
    SelfLinesKind(a);
    SelfLinesKind(b);
    ImportsKind(a, hs);
    ImportsKind(b, js);
    SplitThrice(SelfLines(a), ImportLines(Deps(a), OnlySelf(hs)), ImportLines(Deps(a), AllDeps(hs)),
                SelfLines(b), ImportLines(Deps(b), OnlySelf(js)), ImportLines(Deps(b), AllDeps(js)));
  }

  /** Everything that enters the lines can be read back from them. */
  lemma AllLinesInjective(a: Package, hs: map<string, Results>, b: Package, js: map<string, Results>)
    requires Readable(a) && hs.Keys == a.imports.Keys - {UNSAFE} && OneLiner(a)
    requires Readable(b) && js.Keys == b.imports.Keys - {UNSAFE} && OneLiner(b)
    requires AllLines(a, hs) == AllLines(b, js)
    ensures a.path == b.path && SourceOf(a) == SourceOf(b) && hs.Keys == js.Keys
    ensures forall k :: k in hs ==> hs[k].allDeps == js[k].allDeps
  {
    hide SelfLines, SourceOf, ImportLines, AllLines, Deps;
    LinesSplit(a, hs, b, js);
    SelfLinesInjective(a, b);
    ImportLinesInjective(Deps(a), AllDeps(hs), Deps(b), AllDeps(js));
    forall k | k in hs
      ensures hs[k].allDeps == js[k].allDeps
    {
      assert k in Elements(Deps(a));
    }
  }

  lemma SelfLinesKind(pkg: Package)
    requires Readable(pkg)
    ensures forall i :: 0 <= i < |SelfLines(pkg)| ==> !IsImport(SelfLines(pkg)[i])
  {
    KindsOfLines(pkg.path, Sum([]));
    SourceLinesKind(SourceOf(pkg));
  }

  lemma SelfLinesInjective(a: Package, b: Package)
    requires Readable(a) && Readable(b) && SelfLines(a) == SelfLines(b)
    ensures a.path == b.path && SourceOf(a) == SourceOf(b)
  {
    assert SelfLines(a)[0] == SelfLines(b)[0];
    SuffixInjective(Text("pkgpath "), a.path, b.path);
    assert SourceLines(SourceOf(a)) == SelfLines(a)[1..] && SourceLines(SourceOf(b)) == SelfLines(b)[1..];
    SourceLinesInjective(SourceOf(a), SourceOf(b));
  }

  // ----- The theorem

  ghost predicate OneLiners(g: Graph) {
    forall p :: p in g.pkgs ==> OneLiner(g.pkgs[p])
  }

  lemma EqualTexts(salt: string, a: Package, hs: map<string, Results>, b: Package, js: map<string, Results>)
    requires Readable(a) && hs.Keys == a.imports.Keys - {UNSAFE} && OneLiner(a)
    requires Readable(b) && js.Keys == b.imports.Keys - {UNSAFE} && OneLiner(b)
    requires Combine(a, salt, hs).allDeps == Combine(b, salt, js).allDeps
    ensures AllLines(a, hs) == AllLines(b, js)
  {
    hide SelfLines, Deps, ImportLines, Flat;
    var x, y := Flat(AllLines(a, hs)), Flat(AllLines(b, js));
    assert x == (Text(salt) + x)[|salt|..] && y == (Text(salt) + y)[|salt|..];
    AllLinesNewlineFree(a, hs);
    AllLinesNewlineFree(b, js);
    FlatInjective(AllLines(a, hs), AllLines(b, js));
  }

  /** Two packages, possibly of different runs over different trees, have
      equal all-dependencies hashes exactly when they have the same path, the
      same sources, and the same import closure, package by package. */
  lemma {:induction false} EqualHashIffEqualClosure(g: Graph, h: Graph, salt: string, p: Id, q: Id)
    requires g.Valid() && OneLiners(g) && p in g.pkgs && Hashes(g, salt, p).Some?
    requires h.Valid() && OneLiners(h) && q in h.pkgs && Hashes(h, salt, q).Some?
    ensures Hashes(g, salt, p).value.allDeps == Hashes(h, salt, q).value.allDeps
            <==> ClosureOf(g, salt, p) == ClosureOf(h, salt, q)
    decreases g.rank(p)
  {
    if Hashes(g, salt, p).value.allDeps == Hashes(h, salt, q).value.allDeps {
      EqualHash(g, h, salt, p, q);
    } else if ClosureOf(g, salt, p) == ClosureOf(h, salt, q) {
      EqualClosure(g, h, salt, p, q);
    }
  }

  lemma {:induction false} EqualHash(g: Graph, h: Graph, salt: string, p: Id, q: Id)
    requires g.Valid() && OneLiners(g) && p in g.pkgs && Hashes(g, salt, p).Some?
    requires h.Valid() && OneLiners(h) && q in h.pkgs && Hashes(h, salt, q).Some?
    requires Hashes(g, salt, p).value.allDeps == Hashes(h, salt, q).value.allDeps
    ensures ClosureOf(g, salt, p) == ClosureOf(h, salt, q)
    decreases g.rank(p)
  {
    hide Hashes, DepHashes, Combine, AllLines, SourceOf;
    var a, b := g.pkgs[p], h.pkgs[q];
    var hs, js := DepHashes(g, salt, p), DepHashes(h, salt, q);
    HashesNeedDeps(g, salt, p);
    HashesNeedDeps(h, salt, q);
    EqualTexts(salt, a, hs, b, js);
    AllLinesInjective(a, hs, b, js);
    forall k | k in hs
      ensures ClosureOf(g, salt, a.imports[k]) == ClosureOf(h, salt, b.imports[k])
    {
      EqualHash(g, h, salt, a.imports[k], b.imports[k]);
    }
    ClosureDeps(g, salt, p);
    ClosureDeps(h, salt, q);
  }

  lemma ClosureDeps(g: Graph, salt: string, p: Id)
    requires g.Valid() && p in g.pkgs && Hashes(g, salt, p).Some?
    ensures var c := ClosureOf(g, salt, p);
            && c.deps.Keys == g.pkgs[p].imports.Keys - {UNSAFE}
            && forall k :: k in c.deps ==> Hashes(g, salt, g.pkgs[p].imports[k]).Some?
                                           && c.deps[k] == ClosureOf(g, salt, g.pkgs[p].imports[k])
  {
    hide Hashes, DepHashes, Combine, SourceOf;
    HashesNeedDeps(g, salt, p);
  }

  /** Equal closures give equal hashes in every mode. */
  lemma {:induction false} EqualClosure(g: Graph, h: Graph, salt: string, p: Id, q: Id)
    requires g.Valid() && p in g.pkgs && Hashes(g, salt, p).Some?
    requires h.Valid() && q in h.pkgs && Hashes(h, salt, q).Some?
    requires ClosureOf(g, salt, p) == ClosureOf(h, salt, q)
    ensures Hashes(g, salt, p) == Hashes(h, salt, q)
    decreases g.rank(p)
  {
    hide Hashes, DepHashes, Combine, SourceOf;
    var a, b := g.pkgs[p], h.pkgs[q];
    var hs, js := DepHashes(g, salt, p), DepHashes(h, salt, q);
    HashesNeedDeps(g, salt, p);
    HashesNeedDeps(h, salt, q);
    var c, d := ClosureOf(g, salt, p), ClosureOf(h, salt, q);
    assert c.deps.Keys == hs.Keys && d.deps.Keys == js.Keys;
    forall k | k in hs
      ensures hs[k] == js[k]
    {
      assert c.deps[k] == d.deps[k];
      EqualClosure(g, h, salt, a.imports[k], b.imports[k]);
    }
    assert hs == js;
    SameInputs(a, b, salt, hs);
  }

  lemma SameInputs(a: Package, b: Package, salt: string, hs: map<string, Results>)
    requires Readable(a) && Readable(b) && a.path == b.path && SourceOf(a) == SourceOf(b)
    requires hs.Keys == a.imports.Keys - {UNSAFE} == b.imports.Keys - {UNSAFE}
    ensures Combine(a, salt, hs) == Combine(b, salt, hs)
  {
    SortedUnique(Deps(a), Deps(b));
  }

  const HONEST := Package("a", "b", false, [], map[])
  const BROKEN := Package("a\nbuildid b", "", false, [], map[])

  lemma CollidingTexts()
    ensures Readable(HONEST) && Readable(BROKEN)
    ensures Flat(SelfLines(HONEST)) == Flat(SelfLines(BROKEN))
  {
    CollidingSelf();
    CollidingLines();
    FlatTwo(PathLine("a"), BuildLine("b"));
    FlatOne(PathLine("a\nbuildid b"));
    hide *;
  }

  lemma CollidingSelf()
    ensures Readable(HONEST) && Readable(BROKEN)
    ensures SelfLines(HONEST) == [PathLine("a"), BuildLine("b")]
    ensures SelfLines(BROKEN) == [PathLine("a\nbuildid b")]
  {
  }

  lemma FlatOne(a: Line)
    ensures Flat([a]) == a + [NEWLINE]
  {
    FlatSnoc([], a);
  }

  lemma FlatTwo(a: Line, b: Line)
    ensures Flat([a, b]) == a + [NEWLINE] + b + [NEWLINE]
  {
    FlatOne(a);
    FlatSnoc([a], b);
    assert [a] + [b] == [a, b];
  }

  lemma CollidingLines()
    ensures PathLine("a") + [NEWLINE] + BuildLine("b") == PathLine("a\nbuildid b")
  {
  }

  lemma NoImports(pkg: Package, salt: string)
    requires pkg.imports == map[] && Readable(pkg)
    ensures var d := Sum(Text(salt) + Flat(SelfLines(pkg))); Combine(pkg, salt, map[]) == Results(d, d, d)
  {
    assert Elements(Deps(pkg)) == {};
    SortedUnique(Deps(pkg), []);
    var l := SelfLines(pkg);
    assert l + ImportLines([], OnlySelf(map[])) == l && l + ImportLines([], AllDeps(map[])) == l;
  }

  /** With a line break in a field, different packages can collide: here one
      pretends, in its path, to have the build ID the other has. */
  lemma LineBreaksCollide(salt: string)
    ensures var g := Graph(map[0 := HONEST, 1 := BROKEN], (p: Id) => p);
            && g.Valid() && HONEST.path != BROKEN.path
            && Hashes(g, salt, 0).Some? && Hashes(g, salt, 0) == Hashes(g, salt, 1)
  {
    hide SelfLines, Combine;
    var g := Graph(map[0 := HONEST, 1 := BROKEN], (p: Id) => p);
    CollidingTexts();
    NoImports(HONEST, salt);
    NoImports(BROKEN, salt);
    assert DepHashes(g, salt, 0) == map[] && DepHashes(g, salt, 1) == map[];
  }

  // ----- The memoised computation

  function ModeOf(r: Results, mode: int): Option<Digest> {
    if mode == 0 then Some(r.onlySelf)
    else if mode == 1 then Some(r.directDeps)
    else if mode == 2 then Some(r.allDeps)
    else None
  }

  /** The digests that enter the import lines of depth `mode`. */
  ghost function Projection(hs: map<string, Results>, mode: int): map<string, Digest> {
    if mode == 0 then OnlySelf(hs) else AllDeps(hs)
  }

  lemma BuildText(pkg: Package, text: seq<Sym>)
    requires UsesBuildID(pkg)
    ensures text + BuildLine(pkg.buildID) + [NEWLINE] == text + Flat(SourceLines(SourceOf(pkg)))
  {
    hide BuildLine;
    FlatSnoc([], BuildLine(pkg.buildID));
    FlatEnds([]);
    assert SourceLines(SourceOf(pkg)) == [] + [BuildLine(pkg.buildID)];
    hide Flat;
  }

  lemma FilesText(pkg: Package, done: seq<Line>)
    requires !UsesBuildID(pkg) && Readable(pkg) && |done| == |pkg.files|
    requires forall k :: 0 <= k < |done| ==> done[k] == FileLine(pkg.files[k].name, FileSum(pkg.files[k].contents.value))
    ensures done == SourceLines(SourceOf(pkg))
  {
    hide FileLine, FileSum;
  }

  class Cache {
    const g: Graph
    const salt: string
    var pkgHashes: map<Id, Results>

    /** Whatever is remembered is right. */
    ghost predicate Valid()
      reads this
    {
      g.Valid() && forall p :: p in pkgHashes ==> p in g.pkgs && Hashes(g, salt, p) == Some(pkgHashes[p])
    }

    constructor (g: Graph, salt: string)
      requires g.Valid()
      ensures this.g == g && this.salt == salt && Valid()
    {
      this.g, this.salt, pkgHashes := g, salt, map[];
    }

    /** The hash of `p` in `mode`; fails for an unknown mode, and if a file
        that enters the hash cannot be read. */
    method PackageHash(p: Id, mode: int) returns (r: Option<Digest>)
      requires Valid() && p in g.pkgs
      modifies this
      ensures Valid()
      ensures r == if Hashes(g, salt, p).Some? then ModeOf(Hashes(g, salt, p).value, mode) else None
      ensures r.Some? <==> Hashes(g, salt, p).Some? && 0 <= mode <= 2
      ensures r.Some? ==> var h := Hashes(g, salt, p).value; r.value == [h.onlySelf, h.directDeps, h.allDeps][mode]
      decreases g.rank(p), 4
    {
      hide Hashes;
      if p in pkgHashes {
        return ModeOf(pkgHashes[p], mode);
      }
      var computed := ComputePkgHash(p);
      if computed.None? {
        return None;
      }
      r := ModeOf(computed.value, mode);
      if r.None? {
        return;
      }
      pkgHashes := pkgHashes[p := computed.value];
    }

    method ComputePkgHash(p: Id) returns (r: Option<Results>)
      requires Valid() && p in g.pkgs
      modifies this
      ensures Valid() && r == Hashes(g, salt, p)
      decreases g.rank(p), 3
    {
      hide Combine, DepHashes, Readable, SourceOf, Deps;
      var pkg := g.pkgs[p];
      ghost var hs := DepHashes(g, salt, p);
      var own := HashSources(pkg, Text(salt) + PathLine(pkg.path) + [NEWLINE]);
      if own.None? {
        return None;
      }
      var imps := SortedKeys(pkg.imports.Keys);
      var direct := ComputeDepsHash(p, 0, imps, own.value);
      if direct.None? {
        MissingDep(g, salt, p);
        return None;
      }
      var all := ComputeDepsHash(p, 2, imps, direct.value);
      if all.None? {
        MissingDep(g, salt, p);
        return None;
      }
      r := Some(Results(Sum(own.value), Sum(direct.value), Sum(all.value)));
      CombinedTexts(pkg, salt, hs, imps, own.value, direct.value, all.value);
    }

    /** Append the identity of the package's own sources. */
    static method HashSources(pkg: Package, text: seq<Sym>) returns (r: Option<seq<Sym>>)
      ensures r.Some? <==> Readable(pkg)
      ensures r.Some? <==> (pkg.currentModule || pkg.buildID == "" ==>
                              forall i :: 0 <= i < |pkg.files| ==> pkg.files[i].contents.Some?)
      ensures r.Some? ==> r.value == text + Flat(SourceLines(SourceOf(pkg)))
    {
      hide Flat, SourceLines, FileLine, BuildLine, FileSum, SourceOf;
      if pkg.buildID != "" && !pkg.currentModule {
        BuildText(pkg, text);
        return Some(text + BuildLine(pkg.buildID) + [NEWLINE]);
      }
      ghost var done;
      r, done := HashFiles(pkg.files, text);
      if r.Some? {
        FilesText(pkg, done);
      }
    }

    static method HashFiles(files: seq<File>, text: seq<Sym>) returns (r: Option<seq<Sym>>, ghost done: seq<Line>)
      ensures r.Some? <==> forall i :: 0 <= i < |files| ==> files[i].contents.Some?
      ensures r.Some? ==>
                && |done| == |files| && r.value == text + Flat(done)
                && forall k :: 0 <= k < |files| ==>
                     done[k] == FileLine(files[k].name, FileSum(files[k].contents.value))
    {
      hide FileLine, Flat;
      var t := text;
      done := [];
      FlatEnds([]);
      for i := 0 to |files|
        invariant forall k :: 0 <= k < i ==> files[k].contents.Some?
        invariant |done| == i && t == text + Flat(done)
        invariant forall k :: 0 <= k < i ==>
          done[k] == FileLine(files[k].name, FileSum(files[k].contents.value))
      {
        var f := files[i];
        if f.contents.None? {
          return None, [];
        }
        var line := FileLine(f.name, FileSum(f.contents.value));
        FlatSnoc(done, line);
        t := t + line + [NEWLINE];
        done := done + [line];
      }
      r := Some(t);
    }

    /** Append the hashes of the imports, in order and without `unsafe`. */
    method ComputeDepsHash(p: Id, depMode: int, imps: seq<string>, text: seq<Sym>) returns (r: Option<seq<Sym>>)
      requires Valid() && p in g.pkgs && depMode in {0, 2}
      requires forall k :: k in imps ==> k in g.pkgs[p].imports
      modifies this
      ensures Valid()
      ensures r.Some? <==> forall k :: k in imps && k != UNSAFE ==> k in DepHashes(g, salt, p)
      ensures r.Some? ==>
                && (forall k :: k in WithoutUnsafe(imps) ==> k in DepHashes(g, salt, p))
                && r.value == text + Flat(ImportLines(WithoutUnsafe(imps), Projection(DepHashes(g, salt, p), depMode)))
      decreases g.rank(p), 2
    {
      hide Hashes, DepHashes, Flat, ImportLines, ImportLine;
      var t := text;
      ghost var digests := Projection(DepHashes(g, salt, p), depMode);
      assert ImportLines([], digests) == [];
      FlatEnds([]);
      for i := 0 to |imps|
        invariant Valid()
        invariant forall k :: 0 <= k < i && imps[k] != UNSAFE ==> imps[k] in digests
        invariant forall k :: k in WithoutUnsafe(imps[..i]) ==> k in digests
        invariant t == text + Flat(ImportLines(WithoutUnsafe(imps[..i]), digests))
      {
        assert imps[..i + 1][..i] == imps[..i];
        if imps[i] == UNSAFE {
          continue;
        }
        var more := HashImport(p, imps[i], depMode);
        if more.None? {
          return None;
        }
        MoreImports(WithoutUnsafe(imps[..i]), imps[i], digests);
        t := t + more.value;
      }
      assert imps[..|imps|] == imps;
      r := Some(t);
    }

    method HashImport(p: Id, dep: string, depMode: int) returns (r: Option<seq<Sym>>)
      requires Valid() && p in g.pkgs && depMode in {0, 2} && dep in g.pkgs[p].imports && dep != UNSAFE
      modifies this
      ensures Valid()
      ensures r.Some? <==> dep in DepHashes(g, salt, p)
      ensures r.Some? ==>
                r.value == ImportLine(dep, Projection(DepHashes(g, salt, p), depMode)[dep]) + [NEWLINE]
      decreases g.rank(p), 1
    {
      hide Hashes, DepHashes, ImportLine;
      var depHash := PackageHash(g.pkgs[p].imports[dep], depMode);
      r := if depHash.None? then None else Some(ImportLine(dep, depHash.value) + [NEWLINE]);
    }
  }

  lemma FlatSnoc(lines: seq<Line>, line: Line)
    ensures Flat(lines + [line]) == Flat(lines) + line + [NEWLINE]
  {
    assert (lines + [line])[..|lines|] == lines;
  }

  lemma MoreImports(paths: seq<string>, dep: string, digests: map<string, Digest>)
    requires dep in digests && forall k :: k in paths ==> k in digests
    ensures Flat(ImportLines(paths + [dep], digests)) ==
            Flat(ImportLines(paths, digests)) + (ImportLine(dep, digests[dep]) + [NEWLINE])
  {
    assert ImportLines(paths + [dep], digests) == ImportLines(paths, digests) + [ImportLine(dep, digests[dep])];
    FlatSnoc(ImportLines(paths, digests), ImportLine(dep, digests[dep]));
  }

  lemma MissingDep(g: Graph, salt: string, p: Id)
    requires g.Valid() && p in g.pkgs
    ensures (exists k :: k in g.pkgs[p].imports && k != UNSAFE && k !in DepHashes(g, salt, p)) ==> Hashes(g, salt, p).None?
  {
  }

  lemma CombinedTexts(pkg: Package, salt: string, hs: map<string, Results>, imps: seq<string>,
                      own: seq<Sym>, direct: seq<Sym>, all: seq<Sym>)
    requires Readable(pkg) && imps == SortedSeq(pkg.imports.Keys)
    requires forall k :: k in WithoutUnsafe(imps) ==> k in hs
    requires own == Text(salt) + PathLine(pkg.path) + [NEWLINE] + Flat(SourceLines(SourceOf(pkg)))
    requires direct == own + Flat(ImportLines(WithoutUnsafe(imps), OnlySelf(hs)))
    requires all == direct + Flat(ImportLines(WithoutUnsafe(imps), AllDeps(hs)))
    requires hs.Keys == pkg.imports.Keys - {UNSAFE}
    ensures Combine(pkg, salt, hs) == Results(Sum(own), Sum(direct), Sum(all))
  {
    hide SourceOf, SourceLines, ImportLines, PathLine, Flat, SelfLines;
    SelfText(pkg, Text(salt));
    Appended(Text(salt), SelfLines(pkg), ImportLines(Deps(pkg), OnlySelf(hs)), ImportLines(Deps(pkg), AllDeps(hs)));
  }

  lemma SelfText(pkg: Package, start: seq<Sym>)
    requires Readable(pkg)
    ensures start + PathLine(pkg.path) + [NEWLINE] + Flat(SourceLines(SourceOf(pkg))) == start + Flat(SelfLines(pkg))
  {
    hide SourceOf, SourceLines, PathLine;
    FlatSnoc([], PathLine(pkg.path));
    assert [] + [PathLine(pkg.path)] == [PathLine(pkg.path)];
    FlatConcat([PathLine(pkg.path)], SourceLines(SourceOf(pkg)));
  }

  lemma Appended(start: seq<Sym>, self: seq<Line>, i1: seq<Line>, i2: seq<Line>)
    ensures start + Flat(self) + Flat(i1) == start + Flat(self + i1)
    ensures start + Flat(self) + Flat(i1) + Flat(i2) == start + Flat(self + i1 + i2)
  {
    FlatConcat(self, i1);
    FlatConcat(self + i1, i2);
  }
}
