/** Analyzer facts over an import graph. An action holds the facts its own
    package exported and those it inherited from the actions of the imported
    packages. A package is either analysed from source or restored from the
    cache, which keeps only the package's own facts. */
module FactSpec {
  import opened Options

  type Pkg = nat

  datatype ObjKind =
    | Func(exported: bool, hasReceiver: bool)
    | Var(isField: bool)
    | TypeName
    | Const
    | Other  // nil, builtins, labels and package names

  /** A type-checker object of a package. */
  datatype Obj = Obj(pkg: Pkg, id: nat, kind: ObjKind)

  /** A fact value with its type. */
  datatype Fact = Fact(typ: nat, value: nat)

  /** The keys of an action's `objectFacts` and `packageFacts`. The two maps
      are kept as one map over both kinds of keys. */
  datatype Key =
    | OnObj(obj: Obj, typ: nat)
    | OnPkg(pkg: Pkg, typ: nat)
  {
    /** The package that exports facts under this key. */
    function Owner(): Pkg { if OnObj? then obj.pkg else pkg }
  }

  type Facts = map<Key, Fact>

  function At(m: Facts, k: Key): Option<Fact> { if k in m then Some(m[k]) else None }

  /** A call of `Pass.ExportObjectFact` or `Pass.ExportPackageFact`. */
  datatype Export =
    | ObjectFact(obj: Obj, fact: Fact)
    | PackageFact(fact: Fact)
  {
    function Key(p: Pkg): Key {
      match this
      case ObjectFact(o, f) => OnObj(o, f.typ)
      case PackageFact(f) => OnPkg(p, f.typ)
    }
  }

  /** May an importer of `p` see `o`? An overapproximation by kind. */
  predicate ExportedFrom(o: Obj, p: Pkg) {
    match o.kind
    case Func(exported, hasReceiver) => (exported && o.pkg == p) || hasReceiver
    case Var(isField) => isField || o.pkg == p
    case TypeName => true
    case Const => true
    case Other => false
  }

  /** Facts that pass from the action of `d` to an importer of `d`. */
  predicate Passes(k: Key, d: Pkg) { k.OnObj? ==> ExportedFrom(k.obj, d) }

  /** An action of `p` might inherit `m`. */
  ghost predicate Inheritable(p: Pkg, m: Facts) {
    Typed(m) && forall k :: k in m ==> k.Owner() != p && Passes(k, k.Owner())
  }

  /** Every fact is filed under its own type. */
  ghost predicate Typed(m: Facts) {
    forall k :: k in m ==> m[k].typ == k.typ
  }

  /** What `act` holds after inheriting from `dep`, the action of package `d`. */
  ghost function Inherit(act: Facts, dep: Facts, d: Pkg): Facts {
    act + map k | k in dep && Passes(k, d) :: dep[k]
  }

  /** Exports clobber earlier entries under the same key. */
  ghost function Exported(m: Facts, p: Pkg, exports: seq<Export>): Facts {
    if exports == [] then m
    else
      var last := exports[|exports| - 1];
      Exported(m, p, exports[..|exports| - 1])[last.Key(p) := last.fact]
  }

  /** The packages, the analyzer and the object paths of one analysis.
      `imports[p]` lists the packages whose actions the action of `p` depends
      on; `run` is the analyzer, which reads the inherited facts and exports
      its own; `pathOf` is the object path of an object, if it has one, and
      `resolve` looks a path up in a package restored from export data; `rank`
      witnesses that imports are acyclic. */
  datatype World = World(
    imports: map<Pkg, seq<Pkg>>,
    run: (Pkg, Facts) -> seq<Export>,
    pathOf: Obj -> Option<string>,
    resolve: (Pkg, string) -> Option<Obj>,
    rank: Pkg -> nat)
  {
    /** Imports are acyclic; an analyzer sets facts on objects of its own
        package only; a path that resolves leads back to its object. */
    ghost predicate Valid() {
      && (forall p, j :: p in imports && 0 <= j < |imports[p]| ==>
            imports[p][j] in imports && rank(imports[p][j]) < rank(p))
      && (forall p, m, i :: 0 <= i < |run(p, m)| && run(p, m)[i].ObjectFact? ==> run(p, m)[i].obj.pkg == p)
      && (forall o :: pathOf(o).Some? ==>
            pathOf(o).value != "" && (resolve(o.pkg, pathOf(o).value).Some? ==> resolve(o.pkg, pathOf(o).value).value == o))
    }

    /** Package facts, and facts on objects whose path exists and still
        resolves after a restore. */
    predicate Addressable(k: Key) {
      k.OnObj? ==> pathOf(k.obj).Some? && resolve(k.obj.pkg, pathOf(k.obj).value) == Some(k.obj)
    }

    /** The same package facts, and the same facts on addressable objects. */
    ghost predicate Agree(m: Facts, n: Facts) {
      forall k :: Addressable(k) ==> At(m, k) == At(n, k)
    }

    /** `m` without the facts on objects that a restore cannot find. */
    ghost function Reduced(m: Facts): Facts {
      map k | k in m && Addressable(k) :: m[k]
    }

    /** Hiding the facts on unaddressable objects from the analyzer does not
        change the addressable facts that it exports for `p`. */
    ghost predicate RobustAt(p: Pkg) {
      forall m :: Inheritable(p, m) ==> Agree(Exported(map[], p, run(p, m)), Exported(map[], p, run(p, Reduced(m))))
    }

    ghost predicate Robust() { forall p :: RobustAt(p) }

    /** The part of `m` that the cache can give back for package `p`. */
    ghost function Cacheable(m: Facts, p: Pkg): Facts {
      map k | k in m && k.Owner() == p && Addressable(k) :: m[k]
    }
  }

  /** The facts the action of `p` ends with when the packages in `restored`
      start from these cached facts and all others run the analyzer. */
  ghost function Held(w: World, restored: map<Pkg, Facts>, p: Pkg): Facts
    requires w.Valid() && p in w.imports
    decreases w.rank(p), |w.imports[p]| + 1
  {
    if p in restored then Inherited(w, restored, p, restored[p], |w.imports[p]|)
    else
      var inherited := Inherited(w, restored, p, map[], |w.imports[p]|);
      Exported(inherited, p, w.run(p, inherited))
  }

  /** `base` after inheriting from the first `n` imports of `p`. */
  ghost function Inherited(w: World, restored: map<Pkg, Facts>, p: Pkg, base: Facts, n: nat): Facts
    requires w.Valid() && p in w.imports && n <= |w.imports[p]|
    decreases w.rank(p), n
  {
    if n == 0 then base
    else
      var d := w.imports[p][n - 1];
      Inherit(Inherited(w, restored, p, base, n - 1), Held(w, restored, d), d)
  }

  // ----- Every held fact is the one its owner exported

  /** Cached facts of a package are about that package. */
  ghost predicate OwnOnly(restored: map<Pkg, Facts>) {
    forall p, k :: p in restored && k in restored[p] ==> k.Owner() == p
  }

  lemma InheritAt(act: Facts, dep: Facts, d: Pkg, k: Key)
    ensures At(Inherit(act, dep, d), k) == if k in dep && Passes(k, d) then At(dep, k) else At(act, k)
  {
  }

  /** Of the facts of a dependency `d`, every package fact is inherited, and
      object facts by the kind of the object: on types and constants always, on
      variables if they are fields or belong to `d`, on functions if they have a
      receiver or are exported by `d`, on anything else never. */
  lemma InheritByKind(act: Facts, dep: Facts, d: Pkg, k: Key)
    ensures k !in dep ==> At(Inherit(act, dep, d), k) == At(act, k)
    ensures k in dep && k.OnPkg? ==> At(Inherit(act, dep, d), k) == Some(dep[k])
    ensures k in dep && k.OnObj? ==>
              At(Inherit(act, dep, d), k) == if MayPass(k.obj, d) then Some(dep[k]) else At(act, k)
  {
  }

  /** `o` is a type, a constant, a field or other variable of `d`, a method, or
      a function that `d` exports: as one condition on its fields. */
  ghost predicate MayPass(o: Obj, d: Pkg) {
    || o.kind.TypeName?
    || o.kind.Const?
    || (o.kind.Var? && (o.kind.isField || o.pkg == d))
    || (o.kind.Func? && (o.kind.hasReceiver || (o.kind.exported && o.pkg == d)))
  }

  /** Exports change only entries of `p`, and to values that do not depend on
      what was there. */
  lemma {:induction false} ExportedAt(m: Facts, n: Facts, p: Pkg, exports: seq<Export>, k: Key)
    requires forall i :: 0 <= i < |exports| && exports[i].ObjectFact? ==> exports[i].obj.pkg == p
    ensures k.Owner() != p ==> At(Exported(m, p, exports), k) == At(m, k)
    ensures At(m, k) == At(n, k) ==> At(Exported(m, p, exports), k) == At(Exported(n, p, exports), k)
  {
    if exports != [] {
      ExportedAt(m, n, p, exports[..|exports| - 1], k);
    }
  }

  lemma {:induction false} ExportedOver(m: Facts, p: Pkg, exports: seq<Export>, k: Key)
    ensures At(Exported(m, p, exports), k) ==
            if At(Exported(map[], p, exports), k).Some? then At(Exported(map[], p, exports), k) else At(m, k)
  {
    if exports != [] {
      ExportedOver(m, p, exports[..|exports| - 1], k);
    }
  }

  /** `v` is what the owner of `k`, which ranks at most `bound`, holds. */
  ghost predicate FromOwner(w: World, restored: map<Pkg, Facts>, k: Key, v: Option<Fact>, bound: nat)
    requires w.Valid()
  {
    k.Owner() in w.imports && w.rank(k.Owner()) <= bound && v == At(Held(w, restored, k.Owner()), k)
  }

  lemma {:induction false} InheritedFromOwner(w: World, restored: map<Pkg, Facts>, p: Pkg, base: Facts, n: nat, k: Key)
    requires w.Valid() && OwnOnly(restored) && p in w.imports && n <= |w.imports[p]|
    requires k in base ==> k.Owner() == p
    ensures var v := At(Inherited(w, restored, p, base, n), k);
            if k.Owner() == p then v == At(base, k)
            else v.Some? ==> w.rank(p) > 0 && FromOwner(w, restored, k, v, w.rank(p) - 1)
    decreases w.rank(p), n
  {
    hide Held, World.RobustAt;
    if n > 0 {
      var d := w.imports[p][n - 1];
      InheritedFromOwner(w, restored, p, base, n - 1, k);
      HeldFromOwner(w, restored, d, k);
      InheritAt(Inherited(w, restored, p, base, n - 1), Held(w, restored, d), d, k);
    }
  }

  /** A fact held by the action of `p` is the one its owning package ended
      with, and its owner is `p` or ranks below `p`. */
  lemma {:induction false} HeldFromOwner(w: World, restored: map<Pkg, Facts>, p: Pkg, k: Key)
    requires w.Valid() && OwnOnly(restored) && p in w.imports
    ensures k in Held(w, restored, p) ==>
              FromOwner(w, restored, k, At(Held(w, restored, p), k), w.rank(p))
              && (k.Owner() != p ==> w.rank(k.Owner()) < w.rank(p))
    decreases w.rank(p), |w.imports[p]| + 1
  {
    var n := |w.imports[p]|;
    if p in restored {
      InheritedFromOwner(w, restored, p, restored[p], n, k);
    } else {
      InheritedFromOwner(w, restored, p, map[], n, k);
      var inherited := Inherited(w, restored, p, map[], n);
      ExportedAt(inherited, inherited, p, w.run(p, inherited), k);
    }
  }

  lemma {:induction false} ExportedTyped(m: Facts, p: Pkg, exports: seq<Export>)
    requires Typed(m)
    ensures Typed(Exported(m, p, exports))
  {
    if exports != [] {
      ExportedTyped(m, p, exports[..|exports| - 1]);
    }
  }

  lemma {:induction false} InheritedTyped(w: World, restored: map<Pkg, Facts>, p: Pkg, base: Facts, n: nat)
    requires w.Valid() && p in w.imports && n <= |w.imports[p]| && Typed(base)
    requires forall q :: q in restored ==> Typed(restored[q])
    ensures Typed(Inherited(w, restored, p, base, n))
    decreases w.rank(p), n
  {
    hide Held, World.RobustAt;
    if n > 0 {
      InheritedTyped(w, restored, p, base, n - 1);
      HeldTyped(w, restored, w.imports[p][n - 1]);
    }
  }

  lemma {:induction false} HeldTyped(w: World, restored: map<Pkg, Facts>, p: Pkg)
    requires w.Valid() && p in w.imports
    requires forall q :: q in restored ==> Typed(restored[q])
    ensures Typed(Held(w, restored, p))
    decreases w.rank(p), |w.imports[p]| + 1
  {
    InheritedTyped(w, restored, p, if p in restored then restored[p] else map[], |w.imports[p]|);
    if p !in restored {
      var inherited := Inherited(w, restored, p, map[], |w.imports[p]|);
      ExportedTyped(inherited, p, w.run(p, inherited));
    }
  }

  /** What an action inherits was passed on by its owner in the first place. */
  lemma {:induction false} InheritedPasses(w: World, restored: map<Pkg, Facts>, p: Pkg, base: Facts, n: nat, k: Key)
    requires w.Valid() && OwnOnly(restored) && p in w.imports && n <= |w.imports[p]|
    requires forall j :: j in base ==> j.Owner() == p
    ensures k in Inherited(w, restored, p, base, n) && k.Owner() != p ==> Passes(k, k.Owner())
    decreases w.rank(p), n
  {
    hide Held, World.RobustAt, Passes;
    if n > 0 {
      var d := w.imports[p][n - 1];
      InheritedPasses(w, restored, p, base, n - 1, k);
      HeldPasses(w, restored, d, k);
      InheritAt(Inherited(w, restored, p, base, n - 1), Held(w, restored, d), d, k);
    }
  }

  lemma {:induction false} HeldPasses(w: World, restored: map<Pkg, Facts>, p: Pkg, k: Key)
    requires w.Valid() && OwnOnly(restored) && p in w.imports
    ensures k in Held(w, restored, p) && k.Owner() != p ==> Passes(k, k.Owner())
    decreases w.rank(p), |w.imports[p]| + 1
  {
    hide Passes, World.RobustAt;
    var n := |w.imports[p]|;
    InheritedPasses(w, restored, p, if p in restored then restored[p] else map[], n, k);
    if p !in restored {
      var inherited := Inherited(w, restored, p, map[], n);
      ExportedAt(inherited, inherited, p, w.run(p, inherited), k);
    }
  }

  lemma InheritedIsInheritable(w: World, restored: map<Pkg, Facts>, p: Pkg)
    requires w.Valid() && OwnOnly(restored) && p in w.imports && forall q :: q in restored ==> Typed(restored[q])
    ensures Inheritable(p, Inherited(w, restored, p, map[], |w.imports[p]|))
  {
    hide Held, Inherited, World.RobustAt, Passes;
    var n := |w.imports[p]|;
    InheritedTyped(w, restored, p, map[], n);
    forall k | k in Inherited(w, restored, p, map[], n)
      ensures k.Owner() != p && Passes(k, k.Owner())
    {
      InheritedFromOwner(w, restored, p, map[], n, k);
      InheritedPasses(w, restored, p, map[], n, k);
    }
  }

  // ----- The order of imports does not matter

  /** The same analysis with the imports of each package in another order. */
  ghost predicate Reordered(w: World, v: World) {
    && v.run == w.run && v.pathOf == w.pathOf && v.resolve == w.resolve && v.rank == w.rank
    && v.imports.Keys == w.imports.Keys
    && forall p, d :: p in w.imports ==> (d in v.imports[p] <==> d in w.imports[p])
  }

  /** Some import among the first `n` holds `k` and passes it on. */
  ghost predicate Offered(w: World, restored: map<Pkg, Facts>, p: Pkg, n: nat, k: Key)
    requires w.Valid() && p in w.imports && n <= |w.imports[p]|
  {
    exists i :: 0 <= i < n && Passes(k, w.imports[p][i]) && k in Held(w, restored, w.imports[p][i])
  }

  /** Inheriting takes what is offered, with the owner's value, and keeps the
      rest; this no longer mentions the order. */
  lemma {:induction false} InheritedIsOffered(w: World, restored: map<Pkg, Facts>, p: Pkg, base: Facts, n: nat, k: Key)
    requires w.Valid() && OwnOnly(restored) && p in w.imports && n <= |w.imports[p]|
    requires k in base ==> k.Owner() == p
    ensures At(Inherited(w, restored, p, base, n), k) ==
            if Offered(w, restored, p, n, k) && k.Owner() in w.imports then At(Held(w, restored, k.Owner()), k)
            else At(base, k)
    ensures Offered(w, restored, p, n, k) ==> k.Owner() in w.imports && w.rank(k.Owner()) < w.rank(p)
  {
    hide Held, World.RobustAt;
    if n > 0 {
      var d := w.imports[p][n - 1];
      InheritedIsOffered(w, restored, p, base, n - 1, k);
      HeldFromOwner(w, restored, d, k);
      InheritAt(Inherited(w, restored, p, base, n - 1), Held(w, restored, d), d, k);
      assert Offered(w, restored, p, n, k) <==>
        Offered(w, restored, p, n - 1, k) || (Passes(k, d) && k in Held(w, restored, d));
    }
  }

  /** Whatever the order in which dependencies are inherited, an action ends
      with the same facts. */
  lemma {:induction false} OrderIrrelevant(w: World, v: World, restored: map<Pkg, Facts>, p: Pkg)
    requires w.Valid() && v.Valid() && Reordered(w, v) && OwnOnly(restored) && p in w.imports
    ensures Held(v, restored, p) == Held(w, restored, p)
    decreases w.rank(p)
  {
    var base: Facts := if p in restored then restored[p] else map[];
    var a := Inherited(w, restored, p, base, |w.imports[p]|);
    var b := Inherited(v, restored, p, base, |v.imports[p]|);
    forall k
      ensures At(a, k) == At(b, k)
    {
      SameOffers(w, v, restored, p, base, k);
    }
    SameMap(a, b);
  }

  lemma SameMap(a: Facts, b: Facts)
    requires forall k :: At(a, k) == At(b, k)
    ensures a == b
  {
    assert forall k :: k in a <==> At(a, k).Some?;
    assert forall k :: k in b <==> At(b, k).Some?;
    assert forall k :: k in a ==> At(a, k) == Some(a[k]);
  }

  lemma {:induction false} SameOffers(w: World, v: World, restored: map<Pkg, Facts>, p: Pkg, base: Facts, k: Key)
    requires w.Valid() && v.Valid() && Reordered(w, v) && OwnOnly(restored) && p in w.imports
    requires k in base ==> k.Owner() == p
    ensures At(Inherited(w, restored, p, base, |w.imports[p]|), k) == At(Inherited(v, restored, p, base, |v.imports[p]|), k)
    decreases w.rank(p), 0
  {
    hide Held, Inherited, World.RobustAt;
    forall d | d in w.imports && w.rank(d) < w.rank(p)
      ensures Held(v, restored, d) == Held(w, restored, d)
    {
      OrderIrrelevant(w, v, restored, d);
    }
    InheritedIsOffered(w, restored, p, base, |w.imports[p]|, k);
    InheritedIsOffered(v, restored, p, base, |v.imports[p]|, k);
    assert Offered(w, restored, p, |w.imports[p]|, k) <==> Offered(v, restored, p, |v.imports[p]|, k) by {
      OfferMoves(w, v, restored, p, k);
      OfferMoves(v, w, restored, p, k);
    }
  }

  lemma OfferMoves(w: World, v: World, restored: map<Pkg, Facts>, p: Pkg, k: Key)
    requires w.Valid() && v.Valid() && Reordered(w, v) && p in w.imports
    requires forall d :: d in w.imports && w.rank(d) < w.rank(p) ==> Held(v, restored, d) == Held(w, restored, d)
    ensures Offered(w, restored, p, |w.imports[p]|, k) ==> Offered(v, restored, p, |v.imports[p]|, k)
  {
    hide Held;
    if Offered(w, restored, p, |w.imports[p]|, k) {
      var i :| 0 <= i < |w.imports[p]| && Passes(k, w.imports[p][i]) && k in Held(w, restored, w.imports[p][i]);
      assert w.imports[p][i] in v.imports[p];
      var j :| 0 <= j < |v.imports[p]| && v.imports[p][j] == w.imports[p][i];
    }
  }

  // ----- Restored packages agree with analysed ones

  /** What each package would end with if everything were analysed from source. */
  ghost function FromSource(w: World, p: Pkg): Facts
    requires w.Valid() && p in w.imports
  {
    Held(w, map[], p)
  }

  /** Every cached entry is what analysing from source would have stored. */
  ghost predicate Coherent(w: World, cache: map<Pkg, Facts>)
    requires w.Valid()
  {
    forall p :: p in cache ==> p in w.imports && cache[p] == w.Cacheable(FromSource(w, p), p)
  }

  lemma CoherentOwnOnly(w: World, cache: map<Pkg, Facts>)
    requires w.Valid() && Coherent(w, cache)
    ensures OwnOnly(cache) && OwnOnly(map[])
    ensures forall p :: p in cache ==> Typed(cache[p])
  {
    hide Held, World.RobustAt;
    forall p | p in cache
      ensures Typed(cache[p])
    {
      HeldTyped(w, map[], p);
    }
  }

  lemma {:induction false} InheritedAgree(w: World, cache: map<Pkg, Facts>, p: Pkg, a: Facts, b: Facts, n: nat, k: Key)
    requires w.Valid() && w.Robust() && Coherent(w, cache) && p in w.imports && n <= |w.imports[p]|
    requires w.Addressable(k) && At(a, k) == At(b, k)
    ensures At(Inherited(w, cache, p, a, n), k) == At(Inherited(w, map[], p, b, n), k)
    decreases w.rank(p), n
  {
    hide Held, World.RobustAt, Coherent;
    if n > 0 {
      var d := w.imports[p][n - 1];
      InheritedAgree(w, cache, p, a, b, n - 1, k);
      CacheAgreesWithSource(w, cache, d);
      InheritAt(Inherited(w, cache, p, a, n - 1), Held(w, cache, d), d, k);
      InheritAt(Inherited(w, map[], p, b, n - 1), Held(w, map[], d), d, k);
    }
  }

  /** For every choice of packages to restore from a coherent cache, every
      action ends with the package facts, and the facts on addressable objects,
      of a run that analyses everything from source. */
  lemma {:induction false} CacheAgreesWithSource(w: World, cache: map<Pkg, Facts>, p: Pkg)
    requires w.Valid() && w.Robust() && Coherent(w, cache) && p in w.imports
    ensures w.Agree(Held(w, cache, p), FromSource(w, p))
    decreases w.rank(p), |w.imports[p]| + 2
  {
    forall k | w.Addressable(k)
      ensures At(Held(w, cache, p), k) == At(FromSource(w, p), k)
    {
      if p in cache {
        RestoredAgrees(w, cache, p, k);
      } else {
        AnalysedAgrees(w, cache, p, k);
      }
    }
  }

  lemma {:induction false} AnalysedAgrees(w: World, cache: map<Pkg, Facts>, p: Pkg, k: Key)
    requires w.Valid() && w.Robust() && Coherent(w, cache) && p in w.imports && p !in cache && w.Addressable(k)
    ensures At(Held(w, cache, p), k) == At(FromSource(w, p), k)
    decreases w.rank(p), |w.imports[p]| + 1
  {
    hide Coherent, Inherited, Exported;
    var n := |w.imports[p]|;
    var a, b := Inherited(w, cache, p, map[], n), Inherited(w, map[], p, map[], n);
    forall j | w.Addressable(j)
      ensures At(a, j) == At(b, j)
    {
      InheritedAgree(w, cache, p, map[], map[], n, j);
    }
    CoherentOwnOnly(w, cache);
    InheritedIsInheritable(w, cache, p);
    InheritedIsInheritable(w, map[], p);
    RobustExports(w, p, a, b, k);
    ExportedOver(a, p, w.run(p, a), k);
    ExportedOver(b, p, w.run(p, b), k);
  }

  /** From inherited facts that agree, a robust analyzer exports facts that
      agree. */
  lemma RobustExports(w: World, p: Pkg, a: Facts, b: Facts, k: Key)
    requires w.RobustAt(p) && Inheritable(p, a) && Inheritable(p, b) && w.Agree(a, b) && w.Addressable(k)
    ensures At(Exported(map[], p, w.run(p, a)), k) == At(Exported(map[], p, w.run(p, b)), k)
  {
    hide Inheritable, Exported, World.Addressable;
    forall j
      ensures At(w.Reduced(a), j) == At(w.Reduced(b), j)
    {
      assert w.Addressable(j) ==> At(a, j) == At(b, j);
    }
    SameMap(w.Reduced(a), w.Reduced(b));
  }

  lemma {:induction false} RestoredAgrees(w: World, cache: map<Pkg, Facts>, p: Pkg, k: Key)
    requires w.Valid() && w.Robust() && Coherent(w, cache) && p in cache && w.Addressable(k)
    ensures p in w.imports && At(Held(w, cache, p), k) == At(FromSource(w, p), k)
    decreases w.rank(p), |w.imports[p]| + 1
  {
    hide Inherited, Exported, World.RobustAt;
    var n := |w.imports[p]|;
    CoherentOwnOnly(w, cache);
    var b := Inherited(w, map[], p, map[], n);
    if k.Owner() == p {
      InheritedFromOwner(w, cache, p, cache[p], n, k);
    } else {
      InheritedAgree(w, cache, p, cache[p], map[], n, k);
      ExportedAt(b, b, p, w.run(p, b), k);
    }
  }

  lemma AgreeingCacheable(w: World, m: Facts, n: Facts, p: Pkg)
    requires w.Agree(m, n)
    ensures w.Cacheable(m, p) == w.Cacheable(n, p)
  {
    assert forall k :: w.Addressable(k) ==> (k in m <==> k in n) by {
      forall k | w.Addressable(k)
        ensures k in m <==> k in n
      {
        assert At(m, k) == At(n, k);
      }
    }
    forall k | k in m && k in n && w.Addressable(k)
      ensures m[k] == n[k]
    {
      assert At(m, k) == At(n, k);
    }
  }
}
