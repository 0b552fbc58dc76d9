/** Which analyzers the fact cache is right for: exactly those that are robust,
    that is, whose addressable exports do not depend on facts that a restore
    loses. */
module FactRobust {
  import opened Options
  import opened FactSpec

  // ----- An analyzer that looks at unaddressable objects

  /** Package 1 imports package 0. The analyzer marks a local variable of
      package 0 and, in package 1, reports whether it can see that mark. */
  ghost function SensitiveWorld(): World {
    World(map[0 := [], 1 := [0]],
          (p: Pkg, m: Facts) =>
            if p == 0 then [ObjectFact(Obj(0, 0, Var(false)), Fact(0, 7))]
            else if p == 1 && OnObj(Obj(0, 0, Var(false)), 0) in m then [PackageFact(Fact(0, 1))]
            else [],
          (o: Obj) => None,
          (p: Pkg, path: string) => None,
          (p: Pkg) => p)
  }

  /** For such an analyzer the choice matters: with package 0 restored from a
      coherent cache, package 1 misses a fact it has otherwise. */
  lemma SensitiveAnalyzerDiffers()
    ensures var w := SensitiveWorld();
            var cache := map[0 := w.Cacheable(FromSource(w, 0), 0)];
            w.Valid() && Coherent(w, cache)
            && At(FromSource(w, 1), OnPkg(1, 0)) == Some(Fact(0, 1))
            && At(Held(w, cache, 1), OnPkg(1, 0)) == None
  {
    var w := SensitiveWorld();
    var cache := map[0 := w.Cacheable(FromSource(w, 0), 0)];
    var mark := OnObj(Obj(0, 0, Var(false)), 0);
    assert w.run(0, map[]) == [ObjectFact(Obj(0, 0, Var(false)), Fact(0, 7))];
    assert Exported(map[], 0, w.run(0, map[])) == map[mark := Fact(0, 7)] by {
      assert Exported(map[], 0, []) == map[];
    }
    assert FromSource(w, 0) == map[mark := Fact(0, 7)];
    assert cache[0] == map[];
    var seen := Inherited(w, map[], 1, map[], 1);
    assert seen == Inherit(map[], FromSource(w, 0), 0);
    assert mark in seen;
    var unseen := Inherited(w, cache, 1, map[], 1);
    assert unseen == Inherit(map[], Held(w, cache, 0), 0);
    assert mark !in unseen;
    assert w.run(1, seen) == [PackageFact(Fact(0, 1))] && w.run(1, unseen) == [];
  }

  // ----- Exactly the robust analyzers

  ghost function Order<T(!new)>(s: set<T>): (r: seq<T>)
    ensures forall x :: x in r <==> x in s
  {
    if s == {} then [] else var x :| x in s; Order(s - {x}) + [x]
  }

  function ExportOf(k: Key, fact: Fact): Export {
    match k
    case OnObj(o, _) => ObjectFact(o, fact)
    case OnPkg(_, _) => PackageFact(fact)
  }

  /** Calls that export the facts of `m` under `keys`. */
  ghost function Listing(m: Facts, keys: set<Key>): seq<Export>
    requires keys <= m.Keys
  {
    if keys == {} then [] else var k :| k in keys; Listing(m, keys - {k}) + [ExportOf(k, m[k])]
  }

  ghost function OwnKeys(m: Facts, q: Pkg): set<Key> { set k | k in m && k.Owner() == q }

  lemma {:induction false} ListingAt(m: Facts, keys: set<Key>, q: Pkg, k: Key)
    requires keys <= m.Keys && Typed(m) && forall j :: j in keys ==> j.Owner() == q
    ensures At(Exported(map[], q, Listing(m, keys)), k) == if k in keys then Some(m[k]) else None
    ensures forall i :: 0 <= i < |Listing(m, keys)| && Listing(m, keys)[i].ObjectFact? ==> Listing(m, keys)[i].obj.pkg == q
    decreases |keys|
  {
    if keys != {} {
      var l := Listing(m, keys);
      var j :| j in keys && l == Listing(m, keys - {j}) + [ExportOf(j, m[j])];
      ListingAt(m, keys - {j}, q, k);
      assert l[..|l| - 1] == Listing(m, keys - {j});
      assert ExportOf(j, m[j]).Key(q) == j && ExportOf(j, m[j]).fact == m[j];
    }
  }

  ghost function Owners(m: Facts): set<Pkg> { set k | k in m :: k.Owner() }

  /** A world in which `p` imports the owners of `m`, who export just that, and
      in which `p` itself is analysed as in `w`. */
  ghost function Witness(w: World, p: Pkg, m: Facts): World {
    World(map q | q in Owners(m) + {p} :: if q == p then Order(Owners(m)) else [],
          (q: Pkg, n: Facts) => if q == p then w.run(p, n) else Listing(m, OwnKeys(m, q)),
          w.pathOf, w.resolve,
          (q: Pkg) => if q == p then 1 else 0)
  }

  lemma WitnessValid(w: World, p: Pkg, m: Facts)
    requires w.Valid() && Inheritable(p, m)
    ensures Witness(w, p, m).Valid()
  {
    hide Listing, World.RobustAt, Passes;
    var v := Witness(w, p, m);
    forall q, n, i | 0 <= i < |v.run(q, n)| && v.run(q, n)[i].ObjectFact?
      ensures v.run(q, n)[i].obj.pkg == q
    {
      if q != p {
        ListingAt(m, OwnKeys(m, q), q, OnPkg(q, 0));
      } else {
        assert v.run(q, n) == w.run(q, n);
      }
    }
    forall q, j | q in v.imports && 0 <= j < |v.imports[q]|
      ensures v.imports[q][j] in v.imports && v.rank(v.imports[q][j]) < v.rank(q)
    {
      assert q == p && v.imports[q][j] in Owners(m);
      assert p !in Owners(m);
    }
  }

  /** What the owner `q` holds. */
  lemma WitnessOwner(w: World, v: World, p: Pkg, m: Facts, restored: map<Pkg, Facts>, q: Pkg, k: Key)
    requires Inheritable(p, m) && q in Owners(m) && v == Witness(w, p, m) && v.Valid()
    ensures q in v.imports
    ensures At(Held(v, restored, q), k) ==
            if q in restored then At(restored[q], k) else if k.Owner() == q then At(m, k) else None
  {
    hide Listing, World.RobustAt, World.Valid;
    assert q != p && v.imports[q] == [];
    assert v.run(q, map[]) == Listing(m, OwnKeys(m, q));
    ListingAt(m, OwnKeys(m, q), q, k);
  }

  /** Each import of `p` holds its part of `shown` and no more. */
  ghost predicate Shows(v: World, restored: map<Pkg, Facts>, p: Pkg, shown: Facts)
    requires v.Valid() && p in v.imports
  {
    && (forall k :: k in shown ==> k.Owner() in v.imports[p] && Passes(k, k.Owner()))
    && (forall q, k :: q in v.imports[p] ==> HoldsPart(v, restored, shown, q, k))
  }

  ghost predicate HoldsPart(v: World, restored: map<Pkg, Facts>, shown: Facts, q: Pkg, k: Key)
    requires v.Valid()
  {
    q in v.imports && At(Held(v, restored, q), k) == if k.Owner() == q then At(shown, k) else None
  }

  lemma InheritsShownAt(v: World, restored: map<Pkg, Facts>, p: Pkg, shown: Facts, k: Key)
    requires v.Valid() && p in v.imports && OwnOnly(restored) && Shows(v, restored, p, shown)
    ensures At(Inherited(v, restored, p, map[], |v.imports[p]|), k) == At(shown, k)
  {
    hide Held, Inherited, World.RobustAt, World.Valid, Passes;
    var n := |v.imports[p]|;
    InheritedIsOffered(v, restored, p, map[], n, k);
    if k in shown {
      var i :| 0 <= i < n && v.imports[p][i] == k.Owner();
      assert HoldsPart(v, restored, shown, k.Owner(), k);
      assert Offered(v, restored, p, n, k);
    } else {
      forall i | 0 <= i < n
        ensures HoldsPart(v, restored, shown, v.imports[p][i], k)
      {
      }
    }
  }

  lemma InheritsShown(v: World, restored: map<Pkg, Facts>, p: Pkg, shown: Facts)
    requires v.Valid() && p in v.imports && OwnOnly(restored) && Shows(v, restored, p, shown)
    ensures Inherited(v, restored, p, map[], |v.imports[p]|) == shown
  {
    hide Held, Inherited, World.RobustAt, World.Valid, Shows;
    forall k
      ensures At(Inherited(v, restored, p, map[], |v.imports[p]|), k) == At(shown, k)
    {
      InheritsShownAt(v, restored, p, shown, k);
    }
    SameMap(Inherited(v, restored, p, map[], |v.imports[p]|), shown);
  }

  /** The entries of the owners, as a run from source stores them. */
  ghost function WitnessCache(v: World, m: Facts): map<Pkg, Facts>
    requires v.Valid()
  {
    map q | q in Owners(m) && q in v.imports :: v.Cacheable(FromSource(v, q), q)
  }

  lemma WitnessImports(w: World, v: World, p: Pkg, m: Facts)
    requires Inheritable(p, m) && v == Witness(w, p, m)
    ensures p in v.imports && (forall q :: q in v.imports[p] <==> q in Owners(m))
    ensures forall k :: k in m ==> k.Owner() in v.imports[p] && Passes(k, k.Owner())
  {
    hide Listing, Passes;
  }

  lemma SourceShows(w: World, v: World, p: Pkg, m: Facts)
    requires Inheritable(p, m) && v == Witness(w, p, m) && v.Valid()
    ensures p in v.imports && Shows(v, map[], p, m)
  {
    WitnessImports(w, v, p, m);
    hide HoldsPart, Held, World.RobustAt, World.Valid, Passes, Witness, Owners, Inheritable;
    forall q, k | q in v.imports[p]
      ensures HoldsPart(v, map[], m, q, k)
    {
      SourceOwner(w, v, p, m, q, k);
    }
  }

  lemma SourceOwner(w: World, v: World, p: Pkg, m: Facts, q: Pkg, k: Key)
    requires Inheritable(p, m) && q in Owners(m) && v == Witness(w, p, m) && v.Valid()
    ensures HoldsPart(v, map[], m, q, k)
  {
    WitnessOwner(w, v, p, m, map[], q, k);
    hide Held, World.RobustAt, World.Valid, Passes, Witness, Owners, Inheritable;
  }

  lemma CachedOwner(w: World, v: World, p: Pkg, m: Facts, q: Pkg, k: Key)
    requires Inheritable(p, m) && q in Owners(m) && v == Witness(w, p, m) && v.Valid()
    ensures HoldsPart(v, WitnessCache(v, m), v.Reduced(m), q, k)
  {
    WitnessOwner(w, v, p, m, map[], q, k);
    WitnessOwner(w, v, p, m, WitnessCache(v, m), q, k);
    hide Held, World.RobustAt, World.Valid, Passes, Witness, Owners, Inheritable;
  }

  lemma CacheShows(w: World, v: World, p: Pkg, m: Facts)
    requires Inheritable(p, m) && v == Witness(w, p, m) && v.Valid()
    ensures p in v.imports && Shows(v, WitnessCache(v, m), p, v.Reduced(m))
  {
    WitnessImports(w, v, p, m);
    assert forall k :: k in v.Reduced(m) ==> k in m;
    hide HoldsPart, Held, World.RobustAt, World.Valid, World.Reduced, World.Addressable, Passes, Witness, Owners, Inheritable,
         WitnessCache;
    forall q, k | q in v.imports[p]
      ensures HoldsPart(v, WitnessCache(v, m), v.Reduced(m), q, k)
    {
      CachedOwner(w, v, p, m, q, k);
    }
  }

  lemma WitnessCoherent(w: World, v: World, p: Pkg, m: Facts)
    requires Inheritable(p, m) && v == Witness(w, p, m) && v.Valid()
    ensures Coherent(v, WitnessCache(v, m)) && p !in WitnessCache(v, m)
  {
    hide Held, World.RobustAt, World.Valid, Passes;
  }

  /** From source, the action of `p` sees `m`; from the cache, only what is
      addressable in it. */
  lemma WitnessHolds(w: World, v: World, p: Pkg, m: Facts)
    requires Inheritable(p, m) && v == Witness(w, p, m) && v.Valid()
    ensures p in v.imports && FromSource(v, p) == Exported(m, p, w.run(p, m))
    ensures Held(v, WitnessCache(v, m), p) == Exported(v.Reduced(m), p, w.run(p, v.Reduced(m)))
  {
    SourceShows(w, v, p, m);
    CacheShows(w, v, p, m);
    WitnessCoherent(w, v, p, m);
    CoherentOwnOnly(v, WitnessCache(v, m));
    WitnessSetting(w, v, p, m);
    hide *;
    AnalysedShown(w, v, map[], p, m);
    AnalysedShown(w, v, WitnessCache(v, m), p, v.Reduced(m));
    SourceIsHeld(v, p);
  }

  lemma SourceIsHeld(v: World, p: Pkg)
    requires v.Valid() && p in v.imports
    ensures FromSource(v, p) == Held(v, map[], p)
  {
    hide Held;
  }

  lemma AnalysedShown(w: World, v: World, restored: map<Pkg, Facts>, p: Pkg, shown: Facts)
    requires v.Valid() && p in v.imports && OwnOnly(restored) && Shows(v, restored, p, shown) && p !in restored && SameAt(w, v, p)
    ensures Held(v, restored, p) == Exported(shown, p, w.run(p, shown))
  {
    InheritsShown(v, restored, p, shown);
    hide Inherited, World.RobustAt, World.Valid, Shows, OwnOnly, Exported;
  }

  /** `v` has the same objects and analyses `p` in the same way. */
  ghost predicate SameAt(w: World, v: World, p: Pkg) {
    v.pathOf == w.pathOf && v.resolve == w.resolve && forall m :: v.run(p, m) == w.run(p, m)
  }

  ghost predicate OthersRobust(v: World, p: Pkg) { forall q :: q != p ==> v.RobustAt(q) }

  /** In every world around `p`, from every coherent cache, the action of `p`
      ends as it does from source. */
  ghost predicate AlwaysAgrees(w: World, p: Pkg) {
    forall v: World, cache ::
      v.Valid() && SameAt(w, v, p) && OthersRobust(v, p) && p in v.imports && Coherent(v, cache)
      ==> v.Agree(Held(v, cache, p), FromSource(v, p))
  }

  lemma WitnessSetting(w: World, v: World, p: Pkg, m: Facts)
    requires v == Witness(w, p, m)
    ensures SameAt(w, v, p) && OthersRobust(v, p)
  {
    hide Listing, Exported;
  }

  /** If hiding unaddressable facts in `m` changes an addressable export, so
      does the cache in some world. */
  lemma WitnessDisagrees(w: World, p: Pkg, m: Facts)
    requires w.Valid() && Inheritable(p, m)
    requires !w.Agree(Exported(map[], p, w.run(p, m)), Exported(map[], p, w.run(p, w.Reduced(m))))
    ensures !AlwaysAgrees(w, p)
  {
    var v, n := Witness(w, p, m), w.Reduced(m);
    WitnessValid(w, p, m);
    WitnessHolds(w, v, p, m);
    WitnessCoherent(w, v, p, m);
    WitnessSetting(w, v, p, m);
    var k :| w.Addressable(k) && At(Exported(map[], p, w.run(p, m)), k) != At(Exported(map[], p, w.run(p, n)), k);
    assert v.Addressable(k) && v.Reduced(m) == n;
    ExportsDiffer(w, p, m, n, k);
    hide Held, Inherited, World.RobustAt, World.Valid, World.Addressable, World.Reduced, Passes, Witness, WitnessCache,
         Exported, Coherent, OthersRobust, SameAt, Inheritable;
    assert !v.Agree(Held(v, WitnessCache(v, m), p), FromSource(v, p));
  }

  lemma ExportsDiffer(w: World, p: Pkg, m: Facts, n: Facts, k: Key)
    requires w.Valid() && Inheritable(p, m) && n.Keys <= m.Keys
    requires At(Exported(map[], p, w.run(p, m)), k) != At(Exported(map[], p, w.run(p, n)), k)
    ensures At(Exported(m, p, w.run(p, m)), k) != At(Exported(n, p, w.run(p, n)), k)
  {
    ExportedAt(map[], map[], p, w.run(p, m), k);
    ExportedAt(map[], map[], p, w.run(p, n), k);
    ExportedOver(m, p, w.run(p, m), k);
    ExportedOver(n, p, w.run(p, n), k);
    hide Exported, Passes, World.Valid, World.RobustAt;
    assert k.Owner() == p;
    assert k !in m;
  }

  lemma RobustTransfers(w: World, v: World, p: Pkg)
    requires w.RobustAt(p) && SameAt(w, v, p)
    ensures v.RobustAt(p)
  {
    hide Exported, Inheritable;
    forall m | Inheritable(p, m)
      ensures v.Agree(Exported(map[], p, v.run(p, m)), Exported(map[], p, v.run(p, v.Reduced(m))))
    {
      assert v.Reduced(m) == w.Reduced(m);
      assert w.Agree(Exported(map[], p, w.run(p, m)), Exported(map[], p, w.run(p, w.Reduced(m))));
    }
  }

  /** The analysis of `p` agrees with the cache in every world exactly if it is
      robust at `p`. */
  lemma RobustIffAlwaysAgrees(w: World, p: Pkg)
    requires w.Valid()
    ensures w.RobustAt(p) <==> AlwaysAgrees(w, p)
  {
    if w.RobustAt(p) {
      hide World.RobustAt, World.Valid, Held, Coherent, SameAt;
      forall v: World, cache | v.Valid() && SameAt(w, v, p) && OthersRobust(v, p) && p in v.imports && Coherent(v, cache)
        ensures v.Agree(Held(v, cache, p), FromSource(v, p))
      {
        RobustTransfers(w, v, p);
        CacheAgreesWithSource(v, cache, p);
      }
    } else {
      var m :| Inheritable(p, m) && !w.Agree(Exported(map[], p, w.run(p, m)), Exported(map[], p, w.run(p, w.Reduced(m))));
      WitnessDisagrees(w, p, m);
    }
  }
}
