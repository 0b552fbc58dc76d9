/** What is held, passed on and cached, in terms of the objects and packages the
    facts are about. */
module FactMeaning {
  import opened Options
  import opened FactSpec

  /** The action of `p` holds a fact about another package exactly if the action
      of some import holds it and it is a package fact or on an object that may
      pass from there; and then with the same value. */
  lemma HeldByKind(w: World, restored: map<Pkg, Facts>, p: Pkg, k: Key)
    requires w.Valid() && OwnOnly(restored) && p in w.imports && k.Owner() != p
    ensures k in Held(w, restored, p) <==>
            exists d :: d in w.imports[p] && d in w.imports && k in Held(w, restored, d) && (k.OnPkg? || MayPass(k.obj, d))
    ensures forall d :: d in w.imports[p] && d in w.imports && k in Held(w, restored, d) && k in Held(w, restored, p) ==>
              Held(w, restored, p)[k] == Held(w, restored, d)[k]
  {
    HeldIsOffered(w, restored, p, k);
    PassesMeans(k);
    hide Held, World.RobustAt, Passes, MayPass;
    var n := |w.imports[p]|;
    if Offered(w, restored, p, n, k) {
      var i :| 0 <= i < n && Passes(k, w.imports[p][i]) && k in Held(w, restored, w.imports[p][i]);
      assert w.imports[p][i] in w.imports[p];
    }
    forall d | d in w.imports[p] && d in w.imports && k in Held(w, restored, d)
      ensures Passes(k, d) ==> Offered(w, restored, p, n, k)
      ensures k in Held(w, restored, p) ==> Held(w, restored, p)[k] == Held(w, restored, d)[k]
    {
      var i :| 0 <= i < n && w.imports[p][i] == d;
      HeldFromOwner(w, restored, d, k);
      HeldFromOwner(w, restored, p, k);
    }
  }

  lemma PassesMeans(k: Key)
    ensures forall d :: Passes(k, d) <==> k.OnPkg? || MayPass(k.obj, d)
  {
  }

  lemma HeldIsOffered(w: World, restored: map<Pkg, Facts>, p: Pkg, k: Key)
    requires w.Valid() && OwnOnly(restored) && p in w.imports && k.Owner() != p
    ensures k in Held(w, restored, p) <==> Offered(w, restored, p, |w.imports[p]|, k)
  {
    hide World.RobustAt, Inherited, Exported, Offered;
    var n := |w.imports[p]|;
    var base: Facts := if p in restored then restored[p] else map[];
    InheritedIsOffered(w, restored, p, base, n, k);
    if Offered(w, restored, p, n, k) {
      OfferedIsHeld(w, restored, p, n, k);
    }
    var inherited := Inherited(w, restored, p, base, n);
    if p !in restored {
      ExportedAt(inherited, inherited, p, w.run(p, inherited), k);
    }
  }

  lemma OfferedIsHeld(w: World, restored: map<Pkg, Facts>, p: Pkg, n: nat, k: Key)
    requires w.Valid() && OwnOnly(restored) && p in w.imports && n <= |w.imports[p]| && Offered(w, restored, p, n, k)
    ensures k.Owner() in w.imports && k in Held(w, restored, k.Owner())
  {
    hide Held, World.RobustAt, Passes;
    var i :| 0 <= i < n && Passes(k, w.imports[p][i]) && k in Held(w, restored, w.imports[p][i]);
    HeldFromOwner(w, restored, w.imports[p][i], k);
  }

  /** The last of the exports under a key is the fact held under it: for a fact
      on the package under that package, for a fact on an object under that
      object. */
  lemma {:induction false} LastExportHeld(m: Facts, p: Pkg, exports: seq<Export>, i: nat)
    requires i < |exports| && forall j :: i < j < |exports| ==> exports[j].Key(p) != exports[i].Key(p)
    ensures exports[i].PackageFact? ==> At(Exported(m, p, exports), OnPkg(p, exports[i].fact.typ)) == Some(exports[i].fact)
    ensures exports[i].ObjectFact? ==>
              At(Exported(m, p, exports), OnObj(exports[i].obj, exports[i].fact.typ)) == Some(exports[i].fact)
  {
    if i < |exports| - 1 {
      LastExportHeld(m, p, exports[..|exports| - 1], i);
    }
  }

  /** Facts agree exactly if all package facts do, and all facts on objects whose
      path leads back to them. */
  lemma AgreeMeans(w: World, m: Facts, n: Facts)
    ensures w.Agree(m, n) <==>
            && (forall q: Pkg, typ: nat :: At(m, OnPkg(q, typ)) == At(n, OnPkg(q, typ)))
            && (forall o: Obj, typ: nat :: w.pathOf(o).Some? && w.resolve(o.pkg, w.pathOf(o).value) == Some(o) ==>
                  At(m, OnObj(o, typ)) == At(n, OnObj(o, typ)))
  {
    if w.Agree(m, n) {
      forall q: Pkg, typ: nat
        ensures At(m, OnPkg(q, typ)) == At(n, OnPkg(q, typ))
      {
        assert w.Addressable(OnPkg(q, typ));
      }
      forall o: Obj, typ: nat | w.pathOf(o).Some? && w.resolve(o.pkg, w.pathOf(o).value) == Some(o)
        ensures At(m, OnObj(o, typ)) == At(n, OnObj(o, typ))
      {
        assert w.Addressable(OnObj(o, typ));
      }
    }
  }

  /** Whatever is restored, the action of `p` ends with the package facts, and
      the facts on objects with a path, that it has from source. */
  lemma CachedFactsAgree(w: World, cache: map<Pkg, Facts>, p: Pkg)
    requires w.Valid() && w.Robust() && Coherent(w, cache) && p in w.imports
    ensures forall q: Pkg, typ: nat :: At(Held(w, cache, p), OnPkg(q, typ)) == At(FromSource(w, p), OnPkg(q, typ))
    ensures forall o: Obj, typ: nat :: w.pathOf(o).Some? && w.resolve(o.pkg, w.pathOf(o).value) == Some(o) ==>
              At(Held(w, cache, p), OnObj(o, typ)) == At(FromSource(w, p), OnObj(o, typ))
  {
    CacheAgreesWithSource(w, cache, p);
    hide Held, World.Agree, World.RobustAt;
    AgreeMeans(w, Held(w, cache, p), FromSource(w, p));
  }
}
