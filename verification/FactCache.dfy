/** The action methods that move facts around: inheriting from dependencies,
    storing a package's own facts, restoring them, and analysing from source. */
module FactCache {
  import opened Options
  import opened FactSpec

  /** A stored fact; `path` is empty for package facts. */
  datatype Record = Record(path: string, fact: Fact)

  /** The record stored under `k`, if `k` has one. */
  function RecordOf(w: World, k: Key, fact: Fact): Option<Record> {
    match k
    case OnPkg(_, _) => Some(Record("", fact))
    case OnObj(o, _) => if w.pathOf(o).Some? then Some(Record(w.pathOf(o).value, fact)) else None
  }

  /** The key a record is restored to, if its path resolves. */
  function KeyOf(w: World, p: Pkg, r: Record): Option<Key> {
    if r.path == "" then Some(OnPkg(p, r.fact.typ))
    else if w.resolve(p, r.path).Some? then Some(OnObj(w.resolve(p, r.path).value, r.fact.typ))
    else None
  }

  /** `records` holds, in any order, a record for each own fact of `p` that
      has one. */
  ghost predicate Stores(w: World, m: Facts, p: Pkg, records: seq<Record>) {
    && (forall r :: r in records ==> exists k :: k in m && k.Owner() == p && RecordOf(w, k, m[k]) == Some(r))
    && (forall k :: k in m && k.Owner() == p && RecordOf(w, k, m[k]).Some? ==> RecordOf(w, k, m[k]).value in records)
  }

  ghost function Applied(w: World, m: Facts, p: Pkg, records: seq<Record>): Facts {
    if records == [] then m
    else
      var before, last := Applied(w, m, p, records[..|records| - 1]), records[|records| - 1];
      if KeyOf(w, p, last).Some? then before[KeyOf(w, p, last).value := last.fact] else before
  }

  lemma {:induction false} AppliedAt(w: World, m: Facts, p: Pkg, records: seq<Record>, k: Key)
    ensures k in Applied(w, m, p, records) <==>
            k in m || exists i :: 0 <= i < |records| && KeyOf(w, p, records[i]) == Some(k)
    ensures k in Applied(w, m, p, records) && k !in m ==>
              exists i :: 0 <= i < |records| && KeyOf(w, p, records[i]) == Some(k)
                          && Applied(w, m, p, records)[k] == records[i].fact
  {
    if records != [] {
      var init, last := records[..|records| - 1], records[|records| - 1];
      AppliedAt(w, m, p, init, k);
      assert forall i :: 0 <= i < |init| ==> init[i] == records[i];
      if KeyOf(w, p, last) == Some(k) {
        assert records[|records| - 1] == last;
      }
    }
  }

  /** A record leads back to its own key, or nowhere. */
  lemma RecordLeadsBack(w: World, p: Pkg, k: Key, fact: Fact)
    requires w.Valid() && k.Owner() == p && fact.typ == k.typ && RecordOf(w, k, fact).Some?
    ensures KeyOf(w, p, RecordOf(w, k, fact).value) == if w.Addressable(k) then Some(k) else None
  {
    hide World.RobustAt;
  }

  /** Restoring what was stored gives back exactly the package facts and the
      facts on addressable objects of `p`, in whatever order they were stored. */
  lemma StoreRestore(w: World, m: Facts, p: Pkg, records: seq<Record>)
    requires w.Valid() && Typed(m) && Stores(w, m, p, records)
    ensures Applied(w, map[], p, records) == w.Cacheable(m, p)
  {
    forall k
      ensures At(Applied(w, map[], p, records), k) == At(w.Cacheable(m, p), k)
    {
      StoreRestoreAt(w, m, p, records, k);
    }
    SameMap(Applied(w, map[], p, records), w.Cacheable(m, p));
  }

  lemma StoreRestoreAt(w: World, m: Facts, p: Pkg, records: seq<Record>, k: Key)
    requires w.Valid() && Typed(m) && Stores(w, m, p, records)
    ensures At(Applied(w, map[], p, records), k) == At(w.Cacheable(m, p), k)
  {
    hide World.RobustAt, Applied;
    AppliedAt(w, map[], p, records, k);
    if k in Applied(w, map[], p, records) {
      var i :| 0 <= i < |records| && KeyOf(w, p, records[i]) == Some(k)
               && Applied(w, map[], p, records)[k] == records[i].fact;
      assert records[i] in records;
      var j :| j in m && j.Owner() == p && RecordOf(w, j, m[j]) == Some(records[i]);
      RecordLeadsBack(w, p, j, m[j]);
    } else if k in w.Cacheable(m, p) {
      RecordLeadsBack(w, p, k, m[k]);
    }
  }

  class Action {
    const pkg: Pkg
    var facts: Facts
    var cachedFacts: Option<seq<Record>>

    constructor (pkg: Pkg)
      ensures this.pkg == pkg && facts == map[] && cachedFacts == None
    {
      this.pkg, facts, cachedFacts := pkg, map[], None;
    }

    /** Copy the facts of `dep` that importers may see, in any order. */
    method InheritFacts(dep: Action)
      requires dep != this
      modifies `facts
      ensures facts == Inherit(old(facts), dep.facts, dep.pkg)
      ensures forall k :: k in dep.facts && k.OnPkg? ==> At(facts, k) == Some(dep.facts[k])
      ensures forall k :: k in dep.facts && k.OnObj? ==>
                At(facts, k) == if MayPass(k.obj, dep.pkg) then Some(dep.facts[k]) else At(old(facts), k)
      ensures forall k :: k !in dep.facts ==> At(facts, k) == At(old(facts), k)
    {
      ghost var before := facts;
      var left := dep.facts.Keys;
      ghost var seen: Facts := map[];
      assert Inherit(before, map[], dep.pkg) == before;
      while left != {}
        invariant left <= dep.facts.Keys && seen.Keys == dep.facts.Keys - left
        invariant forall k :: k in seen ==> seen[k] == dep.facts[k]
        invariant facts == Inherit(before, seen, dep.pkg)
        decreases left
      {
        var k :| k in left;
        left := left - {k};
        InheritMore(before, seen, dep.pkg, k, dep.facts[k]);
        seen := seen[k := dep.facts[k]];
        if !Passes(k, dep.pkg) {
          continue;
        }
        facts := facts[k := dep.facts[k]];
      }
      assert seen == dep.facts;
      forall k
        ensures InheritedRight(before, dep.facts, facts, dep.pkg, k)
      {
        InheritByKind(before, dep.facts, dep.pkg, k);
      }
    }

    /** The records of this package's own facts, in any order. */
    method PersistedFacts(w: World) returns (records: seq<Record>)
      ensures Stores(w, facts, pkg, records)
    {
      records := [];
      var left := facts.Keys;
      ghost var seen: Facts := map[];
      while left != {}
        invariant left <= facts.Keys && seen.Keys == facts.Keys - left
        invariant forall k :: k in seen ==> seen[k] == facts[k]
        invariant Stores(w, seen, pkg, records)
        decreases left
      {
        var k :| k in left;
        left := left - {k};
        StoresMore(w, seen, pkg, records, k, facts[k]);
        seen := seen[k := facts[k]];
        if k.Owner() != pkg || RecordOf(w, k, facts[k]).None? {
          continue;
        }
        records := records + [RecordOf(w, k, facts[k]).value];
      }
      assert seen == facts;
    }

    method ApplyPersistedFacts(w: World, records: seq<Record>)
      modifies `facts
      ensures facts == Applied(w, old(facts), pkg, records)
    {
      for i := 0 to |records|
        invariant facts == Applied(w, old(facts), pkg, records[..i])
      {
        assert records[..i + 1][..i] == records[..i];
        var key := KeyOf(w, pkg, records[i]);
        if key.None? {
          continue;
        }
        facts := facts[key.value := records[i].fact];
      }
      assert records[..|records|] == records;
    }

    /** Inherit from the actions of the imported packages, in order. */
    method InheritAll(w: World, deps: seq<Action>, ghost restored: map<Pkg, Facts>)
      requires w.Valid() && pkg in w.imports && DepsHold(w, restored, pkg, deps) && this !in deps
      modifies `facts
      ensures facts == Inherited(w, restored, pkg, old(facts), |w.imports[pkg]|)
    {
      hide Held, World.Valid, World.RobustAt;
      ghost var before := facts;
      for i := 0 to |deps|
        invariant facts == Inherited(w, restored, pkg, before, i)
        invariant DepsHold(w, restored, pkg, deps)
      {
        InheritFacts(deps[i]);
      }
    }

    /** Apply the facts read from the cache, then rebuild the inherited ones. */
    method ApplyCachedFacts(w: World, deps: seq<Action>, ghost restored: map<Pkg, Facts>)
      requires w.Valid() && pkg in w.imports && DepsHold(w, restored, pkg, deps) && this !in deps
      requires facts == map[] && cachedFacts.Some? && pkg in restored
      requires Applied(w, map[], pkg, cachedFacts.value) == restored[pkg]
      modifies `facts, `cachedFacts
      ensures facts == Held(w, restored, pkg) && cachedFacts == None
    {
      ApplyPersistedFacts(w, cachedFacts.value);
      cachedFacts := None;
      InheritAll(w, deps, restored);
    }

    /** Start from empty maps, inherit, run the analyzer, record its exports. */
    method Analyze(w: World, deps: seq<Action>, ghost restored: map<Pkg, Facts>)
      requires w.Valid() && pkg in w.imports && DepsHold(w, restored, pkg, deps) && this !in deps
      requires pkg !in restored
      modifies `facts
      ensures facts == Held(w, restored, pkg)
    {
      facts := map[];
      InheritAll(w, deps, restored);
      ghost var inherited := facts;
      var exports := w.run(pkg, facts);
      for i := 0 to |exports|
        invariant facts == Exported(inherited, pkg, exports[..i])
      {
        assert exports[..i + 1][..i] == exports[..i];
        facts := facts[exports[i].Key(pkg) := exports[i].fact];
      }
      assert exports[..|exports|] == exports;
    }
  }

  /** `deps` are the actions of the imports of `p`, already settled. */
  ghost predicate DepsHold(w: World, restored: map<Pkg, Facts>, p: Pkg, deps: seq<Action>)
    requires w.Valid() && p in w.imports
    reads deps
  {
    && |deps| == |w.imports[p]|
    && forall i :: 0 <= i < |deps| ==>
         deps[i].pkg == w.imports[p][i] && deps[i].facts == Held(w, restored, w.imports[p][i])
  }

  /** `after` has under `k` what inheriting from `dep` gives. */
  ghost predicate InheritedRight(before: Facts, dep: Facts, after: Facts, d: Pkg, k: Key) {
    At(after, k) ==
    if k in dep && (k.OnPkg? || MayPass(k.obj, d)) then Some(dep[k]) else At(before, k)
  }

  lemma StoresMore(w: World, m: Facts, p: Pkg, records: seq<Record>, k: Key, fact: Fact)
    requires Stores(w, m, p, records) && k !in m
    ensures Stores(w, m[k := fact], p,
                   if k.Owner() == p && RecordOf(w, k, fact).Some? then records + [RecordOf(w, k, fact).value] else records)
  {
    var n := m[k := fact];
    assert forall j :: j in m ==> j in n && n[j] == m[j];
    forall r | r in records
      ensures exists j :: j in n && j.Owner() == p && RecordOf(w, j, n[j]) == Some(r)
    {
      var j :| j in m && j.Owner() == p && RecordOf(w, j, m[j]) == Some(r);
      assert j in n && n[j] == m[j];
    }
    if k.Owner() == p && RecordOf(w, k, fact).Some? {
      assert k in n && RecordOf(w, k, n[k]) == Some(RecordOf(w, k, fact).value);
    }
  }

  lemma InheritMore(act: Facts, seen: Facts, d: Pkg, k: Key, fact: Fact)
    requires k !in seen
    ensures Inherit(act, seen[k := fact], d) ==
            if Passes(k, d) then Inherit(act, seen, d)[k := fact] else Inherit(act, seen, d)
  {
    SameMap(Inherit(act, seen[k := fact], d),
            if Passes(k, d) then Inherit(act, seen, d)[k := fact] else Inherit(act, seen, d));
  }

  /** What a run stores for a package are the cacheable facts of its action. */
  lemma StoredEntry(w: World, restored: map<Pkg, Facts>, p: Pkg, records: seq<Record>)
    requires w.Valid() && p in w.imports && (forall q :: q in restored ==> Typed(restored[q]))
    requires Stores(w, Held(w, restored, p), p, records)
    ensures Applied(w, map[], p, records) == w.Cacheable(Held(w, restored, p), p)
    ensures Typed(Applied(w, map[], p, records))
  {
    hide Held, Applied, World.Valid, World.RobustAt, Stores;
    HeldTyped(w, restored, p);
    StoreRestore(w, Held(w, restored, p), p, records);
  }
}
