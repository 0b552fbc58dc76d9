/** A fact cache over many runs, with sources edited in between. Entries are
    filed under the hash of a package and all its imports, and each run has its
    own packages. */
module FactHistory {
  import opened Options
  import opened FactSpec
  import PackageHash
  import HashText

  type Cache = map<HashText.Digest, Facts>

  /** The sources of one run and its analysis. */
  datatype Run = Run(g: PackageHash.Graph, w: World) {
    /** The analysis follows the imports in the sources, and the analyzer does
        not look at facts that a restore loses. */
    ghost predicate Valid() {
      && g.Valid() && PackageHash.OneLiners(g) && w.Valid() && w.Robust()
      && (forall p :: p in w.imports ==> p in g.pkgs)
      && (forall p, d :: p in w.imports ==> (d in w.imports[p] <==> Imports(p, d)))
    }

    ghost predicate Imports(p: Pkg, d: Pkg) {
      p in g.pkgs && exists k :: k in g.pkgs[p].imports && k != PackageHash.UNSAFE && g.pkgs[p].imports[k] == d
    }

    /** `p` is analysed and has a hash. */
    ghost predicate Hashed(salt: string, p: Pkg) {
      g.Valid() && p in w.imports && p in g.pkgs && PackageHash.Hashes(g, salt, p).Some?
    }

    ghost function Digest(salt: string, p: Pkg): HashText.Digest
      requires Hashed(salt, p)
    {
      PackageHash.Hashes(g, salt, p).value.allDeps
    }

    ghost function Closure(salt: string, p: Pkg): PackageHash.Closure
      requires Hashed(salt, p)
    {
      PackageHash.ClosureOf(g, salt, p)
    }
  }

  /** The analyzer and the objects of `p` are the same. */
  ghost predicate SameBehaviour(v: World, w: World, p: Pkg) {
    && (forall m :: v.run(p, m) == w.run(p, m))
    && (forall o: Obj :: o.pkg == p ==> v.pathOf(o) == w.pathOf(o))
    && (forall path :: v.resolve(p, path) == w.resolve(p, path))
  }

  /** Packages of all runs are named by their import closures, and what an
      analyzer does with the facts it inherits depends on the closure only. */
  ghost predicate Determined(a: Run, b: Run, salt: string) {
    && (forall p, q :: a.Hashed(salt, p) && b.Hashed(salt, q) ==> (p == q <==> a.Closure(salt, p) == b.Closure(salt, q)))
    && (forall p :: a.Hashed(salt, p) && b.Hashed(salt, p) ==> SameBehaviour(a.w, b.w, p))
  }

  // ----- Equal closures have equal facts

  lemma SameImport(a: Run, b: Run, salt: string, p: Pkg, d: Pkg)
    requires a.Valid() && b.Valid() && Determined(a, b, salt) && a.Hashed(salt, p) && b.Hashed(salt, p)
    requires d in a.w.imports[p]
    ensures d in b.w.imports[p] && a.Hashed(salt, d) && b.Hashed(salt, d)
  {
    assert a.Imports(p, d);
    var k :| k in a.g.pkgs[p].imports && k != PackageHash.UNSAFE && a.g.pkgs[p].imports[k] == d;
    PackageHash.ClosureDeps(a.g, salt, p);
    PackageHash.ClosureDeps(b.g, salt, p);
    hide PackageHash.Hashes, PackageHash.ClosureOf, World.RobustAt;
    assert a.Closure(salt, p) == b.Closure(salt, p);
    assert k in a.Closure(salt, p).deps && k in b.Closure(salt, p).deps;
    var e := b.g.pkgs[p].imports[k];
    assert b.Imports(p, e);
    assert e in b.w.imports[p] && e in b.w.imports;
    assert d in a.w.imports;
    assert a.Closure(salt, d) == b.Closure(salt, e);
  }

  lemma {:induction false} SameFromSource(a: Run, b: Run, salt: string, p: Pkg)
    requires a.Valid() && b.Valid() && Determined(a, b, salt) && Determined(b, a, salt)
    requires a.Hashed(salt, p) && b.Hashed(salt, p)
    ensures FromSource(a.w, p) == FromSource(b.w, p)
    decreases a.w.rank(p)
  {
    hide PackageHash.Hashes, PackageHash.ClosureOf, World.RobustAt, Held, Run.Imports;
    forall d | d in a.w.imports[p]
      ensures d in b.w.imports[p] && d in a.w.imports && d in b.w.imports && FromSource(a.w, d) == FromSource(b.w, d)
    {
      SameImport(a, b, salt, p, d);
      SameFromSource(a, b, salt, d);
    }
    forall d | d in b.w.imports[p]
      ensures d in a.w.imports[p]
    {
      SameImport(b, a, salt, p, d);
    }
    SameHeld(a.w, b.w, p);
  }

  /** The imports of `p` are the same and end with the same facts. */
  ghost predicate SameImports(v: World, w: World, p: Pkg)
    requires v.Valid() && w.Valid() && p in v.imports && p in w.imports
  {
    && (forall d :: d in v.imports[p] <==> d in w.imports[p])
    && (forall d :: d in v.imports[p] ==> d in v.imports && d in w.imports && FromSource(v, d) == FromSource(w, d))
  }

  lemma OfferedInBoth(v: World, w: World, p: Pkg, k: Key)
    requires v.Valid() && w.Valid() && p in v.imports && p in w.imports && SameImports(v, w, p)
    requires Offered(v, map[], p, |v.imports[p]|, k)
    ensures Offered(w, map[], p, |w.imports[p]|, k)
    ensures k.Owner() in v.imports && k.Owner() in w.imports
    ensures At(Held(v, map[], k.Owner()), k) == At(Held(w, map[], k.Owner()), k)
  {
    hide Held, World.RobustAt, World.Valid, Passes;
    var i :| 0 <= i < |v.imports[p]| && Passes(k, v.imports[p][i]) && k in Held(v, map[], v.imports[p][i]);
    var d := v.imports[p][i];
    assert d in v.imports[p];
    var j :| 0 <= j < |w.imports[p]| && w.imports[p][j] == d;
    assert FromSource(v, d) == FromSource(w, d);
    HeldFromOwner(v, map[], d, k);
    HeldFromOwner(w, map[], d, k);
  }

  lemma SameInherited(v: World, w: World, p: Pkg)
    requires v.Valid() && w.Valid() && p in v.imports && p in w.imports && SameImports(v, w, p) && SameImports(w, v, p)
    ensures Inherited(v, map[], p, map[], |v.imports[p]|) == Inherited(w, map[], p, map[], |w.imports[p]|)
  {
    hide Held, World.RobustAt, World.Valid, Passes, Inherited, SameImports, Offered;
    var m, n := Inherited(v, map[], p, map[], |v.imports[p]|), Inherited(w, map[], p, map[], |w.imports[p]|);
    forall k
      ensures At(m, k) == At(n, k)
    {
      InheritedIsOffered(v, map[], p, map[], |v.imports[p]|, k);
      InheritedIsOffered(w, map[], p, map[], |w.imports[p]|, k);
      if Offered(v, map[], p, |v.imports[p]|, k) {
        OfferedInBoth(v, w, p, k);
      }
      if Offered(w, map[], p, |w.imports[p]|, k) {
        OfferedInBoth(w, v, p, k);
      }
    }
    SameMap(m, n);
  }

  lemma SameHeld(v: World, w: World, p: Pkg)
    requires v.Valid() && w.Valid() && p in v.imports && p in w.imports && SameImports(v, w, p)
    requires forall m :: v.run(p, m) == w.run(p, m)
    ensures FromSource(v, p) == FromSource(w, p)
  {
    hide World.RobustAt, World.Valid, Inherited;
    assert SameImports(w, v, p);
    SameInherited(v, w, p);
  }

  lemma SameCacheable(v: World, w: World, m: Facts, p: Pkg)
    requires SameBehaviour(v, w, p)
    ensures v.Cacheable(m, p) == w.Cacheable(m, p)
  {
    assert forall k: Key :: k.Owner() == p ==> (v.Addressable(k) <==> w.Addressable(k));
  }

  // ----- The cache over a history of runs

  /** What a run restores: for each chosen package the entry under its hash. */
  ghost function Restored(r: Run, salt: string, cache: Cache, chosen: set<Pkg>): map<Pkg, Facts> {
    map p | p in chosen && r.Hashed(salt, p) && r.Digest(salt, p) in cache :: cache[r.Digest(salt, p)]
  }

  /** Each entry of the cache afterwards is an old one, or was stored for a
      package that this run analysed; entries may also have disappeared. */
  ghost predicate AfterRun(r: Run, salt: string, cache: Cache, chosen: set<Pkg>, cache': Cache)
    requires r.Valid()
  {
    forall d :: d in cache' ==> (d in cache && cache'[d] == cache[d]) || Stored(r, salt, cache, chosen, d, cache'[d])
  }

  ghost predicate Stored(r: Run, salt: string, cache: Cache, chosen: set<Pkg>, d: HashText.Digest, facts: Facts)
    requires r.Valid()
  {
    exists p :: r.Hashed(salt, p) && r.Digest(salt, p) == d && p !in Restored(r, salt, cache, chosen)
                && facts == r.w.Cacheable(Held(r.w, Restored(r, salt, cache, chosen), p), p)
  }

  /** The entry is what an analysis of `p` from source stores in run `r`. */
  ghost predicate TrueOf(r: Run, salt: string, p: Pkg, d: HashText.Digest, facts: Facts)
    requires r.Valid()
  {
    r.Hashed(salt, p) && r.Digest(salt, p) == d && facts == r.w.Cacheable(FromSource(r.w, p), p)
  }

  ghost predicate AllValid(runs: seq<Run>, salt: string) {
    && (forall i :: 0 <= i < |runs| ==> runs[i].Valid())
    && (forall i, j :: 0 <= i < |runs| && 0 <= j < |runs| ==> Determined(runs[i], runs[j], salt))
  }

  /** Every entry is true of some package of one of the first `n` runs. */
  ghost predicate CacheTrue(runs: seq<Run>, salt: string, n: nat, cache: Cache)
    requires AllValid(runs, salt) && n <= |runs|
  {
    forall d :: d in cache ==> exists j, q :: 0 <= j < n && TrueOf(runs[j], salt, q, d, cache[d])
  }

  /** Equal hashes of two runs are equal closures, so the entry of one is right
      for the other. */
  lemma TrueInBoth(a: Run, b: Run, salt: string, p: Pkg, q: Pkg, facts: Facts)
    requires a.Valid() && b.Valid() && Determined(a, b, salt) && Determined(b, a, salt)
    requires a.Hashed(salt, p) && TrueOf(b, salt, q, a.Digest(salt, p), facts)
    ensures TrueOf(a, salt, p, a.Digest(salt, p), facts)
  {
    hide PackageHash.Hashes, PackageHash.ClosureOf, World.RobustAt, Held, Run.Imports;
    PackageHash.EqualHashIffEqualClosure(a.g, b.g, salt, p, q);
    assert a.Closure(salt, p) == b.Closure(salt, q);
    assert p == q;
    SameFromSource(a, b, salt, p);
    SameCacheable(a.w, b.w, FromSource(a.w, p), p);
  }

  /** No run restores stale facts. */
  lemma RestoredIsCoherent(runs: seq<Run>, salt: string, i: nat, cache: Cache, chosen: set<Pkg>)
    requires AllValid(runs, salt) && i < |runs| && CacheTrue(runs, salt, i, cache)
    ensures Coherent(runs[i].w, Restored(runs[i], salt, cache, chosen))
  {
    hide PackageHash.Hashes, World.RobustAt, Held, Determined, Run.Digest;
    var r := runs[i];
    forall p | p in Restored(r, salt, cache, chosen)
      ensures TrueOf(r, salt, p, r.Digest(salt, p), cache[r.Digest(salt, p)])
    {
      var d := r.Digest(salt, p);
      var j, q :| 0 <= j < i && TrueOf(runs[j], salt, q, d, cache[d]);
      TrueInBoth(r, runs[j], salt, p, q, cache[d]);
    }
  }

  lemma RunKeepsTrue(runs: seq<Run>, salt: string, i: nat, cache: Cache, chosen: set<Pkg>, cache': Cache)
    requires AllValid(runs, salt) && i < |runs| && CacheTrue(runs, salt, i, cache)
    requires AfterRun(runs[i], salt, cache, chosen, cache')
    ensures CacheTrue(runs, salt, i + 1, cache')
  {
    RestoredIsCoherent(runs, salt, i, cache, chosen);
    hide PackageHash.Hashes, World.RobustAt, Held, Determined, Run.Digest, Restored, Coherent;
    var r, used := runs[i], Restored(runs[i], salt, cache, chosen);
    forall d | d in cache'
      ensures exists j, q :: 0 <= j < i + 1 && TrueOf(runs[j], salt, q, d, cache'[d])
    {
      if d in cache && cache'[d] == cache[d] {
        var j, q :| 0 <= j < i && TrueOf(runs[j], salt, q, d, cache[d]);
        assert TrueOf(runs[j], salt, q, d, cache'[d]);
      } else {
        var p :| r.Hashed(salt, p) && r.Digest(salt, p) == d && p !in used && cache'[d] == r.w.Cacheable(Held(r.w, used, p), p);
        CacheAgreesWithSource(r.w, used, p);
        AgreeingCacheable(r.w, Held(r.w, used, p), FromSource(r.w, p), p);
        assert TrueOf(runs[i], salt, p, d, cache'[d]);
      }
    }
  }

  /** A history of runs that share a cache, which is empty at first. */
  ghost predicate History(runs: seq<Run>, salt: string, caches: seq<Cache>, chosen: seq<set<Pkg>>)
    requires AllValid(runs, salt)
  {
    && |caches| == |runs| + 1 && |chosen| == |runs| && caches[0] == map[]
    && forall i :: 0 <= i < |runs| ==> AfterRun(runs[i], salt, caches[i], chosen[i], caches[i + 1])
  }

  lemma {:induction false} HistoryTrue(runs: seq<Run>, salt: string, caches: seq<Cache>, chosen: seq<set<Pkg>>, i: nat)
    requires AllValid(runs, salt) && History(runs, salt, caches, chosen) && i <= |runs|
    ensures CacheTrue(runs, salt, i, caches[i])
  {
    hide AllValid, AfterRun;
    if i > 0 {
      HistoryTrue(runs, salt, caches, chosen, i - 1);
      RunKeepsTrue(runs, salt, i - 1, caches[i - 1], chosen[i - 1], caches[i]);
    }
  }

  /** Whatever is edited between the runs, and whatever each of them restores,
      stores or loses: every action of every run ends with the facts of an
      analysis of that run's sources. */
  lemma EveryRunAgrees(runs: seq<Run>, salt: string, caches: seq<Cache>, chosen: seq<set<Pkg>>, i: nat, p: Pkg)
    requires AllValid(runs, salt) && History(runs, salt, caches, chosen) && i < |runs| && p in runs[i].w.imports
    ensures var w := runs[i].w; w.Agree(Held(w, Restored(runs[i], salt, caches[i], chosen[i]), p), FromSource(w, p))
  {
    HistoryTrue(runs, salt, caches, chosen, i);
    RestoredIsCoherent(runs, salt, i, caches[i], chosen[i]);
    hide Held, World.RobustAt, World.Agree, History, Restored, Determined, Run.Imports, Coherent;
    CacheAgreesWithSource(runs[i].w, Restored(runs[i], salt, caches[i], chosen[i]), p);
  }
}
