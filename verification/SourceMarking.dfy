/** Which actions of an imported package must be analysed from source: those
    whose facts are not in the cache, and whatever they require on the same
    package. The graph of dependencies may be any graph. */
module SourceMarking {
  import opened FiniteSets

  class Action {
    const pkg: nat
    const deps: seq<Action>
    var needAnalyzeSource: bool

    constructor (pkg: nat, deps: seq<Action>, isInitial: bool)
      ensures this.pkg == pkg && this.deps == deps && needAnalyzeSource == isInitial
    {
      this.pkg, this.deps, needAnalyzeSource := pkg, deps, isInitial;
    }

    /** Marks what this action requires; `grey` are the actions whose own
        requirements are still being marked. */
    method MarkDepsForAnalyzingSource(ghost all: set<Action>, ghost grey: set<Action>, ghost seeds: set<Action>)
      requires Complete(all) && this in grey && grey <= all
      requires forall g :: g in grey ==> g.needAnalyzeSource
      requires ClosedBut(all, grey) && Sound(all, seeds)
      modifies all`needAnalyzeSource
      ensures forall a :: a in all && old(a.needAnalyzeSource) ==> a.needAnalyzeSource
      ensures ClosedBut(all, grey - {this}) && Sound(all, seeds)
      decreases |Unmarked(all)|
    {
      for i := 0 to |deps|
        invariant forall a :: a in all && old(a.needAnalyzeSource) ==> a.needAnalyzeSource
        invariant ClosedBut(all, grey) && Sound(all, seeds)
        invariant forall j :: 0 <= j < i && deps[j].pkg == pkg ==> deps[j].needAnalyzeSource
        invariant Unmarked(all) <= old(Unmarked(all))
      {
        var dep := deps[i];
        if dep.pkg == pkg && !dep.needAnalyzeSource {
          assert Same(this, dep) && dep in all;
          NeededToo(all, seeds, this, dep);
          ghost var left := Unmarked(all);
          dep.needAnalyzeSource := true;
          assert Unmarked(all) == left - {dep};
          Fewer(left, old(Unmarked(all)), dep);
          dep.MarkDepsForAnalyzingSource(all, grey + {dep}, seeds);
          assert grey + {dep} - {dep} == grey;
        }
      }
    }
  }

  /** `d` is a dependency of `a` on the same package. */
  ghost predicate Same(a: Action, d: Action) { d in a.deps && d.pkg == a.pkg }

  /** `all` may be the actions of one package. */
  ghost predicate Complete(all: set<Action>) {
    forall a, d :: a in all && d in a.deps && Same(a, d) ==> d in all
  }

  ghost function Unmarked(all: set<Action>): set<Action>
    reads all
  {
    set a | a in all && !a.needAnalyzeSource
  }

  ghost function Marked(all: set<Action>): set<Action>
    reads all
  {
    set a | a in all && a.needAnalyzeSource
  }

  lemma Fewer(left: set<Action>, before: set<Action>, a: Action)
    requires left <= before && a in left
    ensures |left - {a}| < |before|
  {
    SubsetSize(left, before);
  }

  ghost predicate Closed(s: set<Action>) {
    forall a, d :: a in s && d in a.deps && Same(a, d) ==> d in s
  }

  /** Every closed set that holds `seeds` holds `a`. */
  ghost predicate Needed(all: set<Action>, seeds: set<Action>, a: Action) {
    forall s :: s <= all && seeds <= s && Closed(s) ==> a in s
  }

  lemma NeededToo(all: set<Action>, seeds: set<Action>, a: Action, d: Action)
    requires Needed(all, seeds, a) && Same(a, d)
    ensures Needed(all, seeds, d)
  {
  }

  ghost predicate Sound(all: set<Action>, seeds: set<Action>)
    reads all
  {
    forall a :: a in all && a.needAnalyzeSource ==> Needed(all, seeds, a)
  }

  /** Outside `grey`, the marked actions have all they need marked. */
  ghost predicate ClosedBut(all: set<Action>, grey: set<Action>)
    reads all
  {
    forall a, d :: a in all && d in all && a !in grey && a.needAnalyzeSource && Same(a, d) ==> d.needAnalyzeSource
  }

  /** `set a | a in actions && a !in hits`, for a list of actions. */
  ghost function Misses(actions: seq<Action>, hits: set<Action>): set<Action> {
    set a | a in actions && a !in hits
  }

  lemma MissesSnoc(actions: seq<Action>, i: nat, hits: set<Action>)
    requires i < |actions|
    ensures Misses(actions[..i + 1], hits) == Misses(actions[..i], hits) + if actions[i] in hits then {} else {actions[i]}
  {
    assert actions[..i + 1] == actions[..i] + [actions[i]];
  }

  lemma SoundGrows(all: set<Action>, seeds: set<Action>, more: set<Action>)
    requires Sound(all, seeds) && seeds <= more
    ensures Sound(all, more)
  {
  }

  /** After loading an imported package, the marked actions are the least set
      that holds every cache miss and is closed under dependencies on the same
      package. */
  method LoadImportedPackageWithFacts(actions: seq<Action>, hits: set<Action>, ghost all: set<Action>)
      returns (needLoadFromSource: bool)
    requires Complete(all) && (forall a :: a in actions ==> a in all)
    requires forall a :: a in all ==> !a.needAnalyzeSource
    modifies all`needAnalyzeSource
    ensures needLoadFromSource <==> exists a :: a in actions && a !in hits
    ensures Misses(actions, hits) <= Marked(all) && Closed(Marked(all))
    ensures forall a :: a in actions && a !in hits ==> a.needAnalyzeSource
    ensures forall a, d :: a in all && a.needAnalyzeSource && d in a.deps && d.pkg == a.pkg ==> d.needAnalyzeSource
    ensures forall s :: s <= all && Misses(actions, hits) <= s && Closed(s) ==> Marked(all) <= s
  {
    needLoadFromSource := false;
    for i := 0 to |actions|
      invariant ClosedBut(all, {}) && Sound(all, Misses(actions[..i], hits))
      invariant Misses(actions[..i], hits) <= Marked(all)
      invariant needLoadFromSource <==> exists a :: a in actions[..i] && a !in hits
    {
      var act := actions[i];
      MissesSnoc(actions, i, hits);
      SoundGrows(all, Misses(actions[..i], hits), Misses(actions[..i + 1], hits));
      assert actions[..i + 1] == actions[..i] + [act];
      if act in hits {
        continue;
      }
      act.needAnalyzeSource := true;
      needLoadFromSource := true;
      act.MarkDepsForAnalyzingSource(all, {act}, Misses(actions[..i + 1], hits));
      assert {act} - {act} == {};
    }
    assert actions[..|actions|] == actions;
    assert forall a :: a in actions && a !in hits ==> a in Misses(actions, hits);
  }
}
