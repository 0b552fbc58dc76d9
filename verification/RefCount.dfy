/** Reference counting of loaded packages. Every package starts with one use
    of its own and one use per import edge that leads to it; `decUse` gives one
    use back and, at zero, frees the package and gives back its uses of the
    packages it imports. Goroutines interleave these calls freely, so the
    protocol is a transition system and the theorems hold for every run. */
module RefCount {

  type Pkg = nat

  /** `imports[p]` has one entry per import path of `p`; `initial` are the
      packages whose analysis is requested directly. */
  datatype Graph = Graph(imports: map<Pkg, seq<Pkg>>, pkgs: set<Pkg>, initial: set<Pkg>) {
    ghost predicate Valid() {
      && pkgs <= imports.Keys
      && initial <= pkgs
      && forall p, j :: p in pkgs && 0 <= j < |imports[p]| ==> imports[p][j] in pkgs
    }

    /** Every package is requested directly or imported by another one. */
    ghost predicate Rooted() {
      forall p :: p in pkgs && p !in initial ==> exists q :: q in pkgs && q in imports && p in imports[q]
    }
  }

  /** Imports are acyclic: they lead to packages of lower rank. */
  ghost predicate Ranked(g: Graph, rank: Pkg -> nat)
    requires g.Valid()
  {
    forall p, j :: p in g.pkgs && 0 <= j < |g.imports[p]| ==> rank(g.imports[p][j]) < rank(p)
  }

  /** One unit of a package's reference count. */
  datatype Use =
    | Self(pkg: Pkg)
    | Edge(importer: Pkg, index: nat)

  ghost predicate IsUse(g: Graph, u: Use)
    requires g.Valid()
  {
    match u
    case Self(p) => p in g.pkgs
    case Edge(q, j) => q in g.pkgs && j < |g.imports[q]|
  }

  ghost function Target(g: Graph, u: Use): Pkg
    requires g.Valid() && IsUse(g, u)
  {
    match u
    case Self(p) => p
    case Edge(q, j) => g.imports[q][j]
  }

  ghost function Uses(g: Graph): (r: set<Use>)
    requires g.Valid()
    ensures forall u :: u in r <==> IsUse(g, u)
  {
    (set p | p in g.pkgs :: Self(p)) + (set q, j | q in g.pkgs && 0 <= j < |g.imports[q]| :: Edge(q, j))
  }

  ghost function UsesOf(g: Graph, p: Pkg): set<Use>
    requires g.Valid()
  {
    set u | u in Uses(g) && Target(g, u) == p
  }

  ghost function EdgesFrom(g: Graph, q: Pkg): (r: set<Use>)
    requires g.Valid() && q in g.pkgs
    ensures forall u :: u in r <==> u.Edge? && u.importer == q && u.index < |g.imports[q]|
  {
    set j | 0 <= j < |g.imports[q]| :: Edge(q, j)
  }

  // ----- The protocol

  /** `pending` are the `decUse` calls that were issued and have not run,
      `released` those that ran; `freed` lists packages in the order in which
      their count reached zero. */
  datatype State = State(
    dependents: map<Pkg, int>,
    invoked: set<Pkg>, started: set<Pkg>, finished: set<Pkg>, skipped: set<Pkg>,
    pending: set<Use>, released: set<Use>, freed: seq<Pkg>, cancelled: bool)

  datatype Step =
    | Invoke(pkg: Pkg)   // an initial package, or an import of an invoked one, begins analyzeRecursive
    | Start(pkg: Pkg)    // all imports have returned and a load slot is free
    | Skip(pkg: Pkg)     // the same, but the cancelled context wins the select
    | Finish(pkg: Pkg)   // the analysis ends and the deferred decUse is due
    | Release(use: Use)  // one decUse call runs
    | Cancel

  ghost predicate Returned(g: Graph, s: State, p: Pkg)
    requires g.Valid() && p in g.pkgs
  {
    forall j :: 0 <= j < |g.imports[p]| ==> g.imports[p][j] in s.finished + s.skipped
  }

  ghost predicate Enabled(g: Graph, s: State, step: Step)
    requires g.Valid()
  {
    match step
    case Invoke(p) =>
      && p in g.pkgs - s.invoked
      && (p in g.initial || exists q :: q in s.invoked && q in g.imports && p in g.imports[q])
    case Start(p) => p in g.pkgs && p in s.invoked - s.started - s.skipped && Returned(g, s, p)
    case Skip(p) => s.cancelled && p in g.pkgs && p in s.invoked - s.started - s.skipped && Returned(g, s, p)
    case Finish(p) => p in s.started - s.finished
    case Release(u) => u in s.pending
    case Cancel => !s.cancelled
  }

  ghost function Decremented(g: Graph, s: State, u: Use): State
    requires g.Valid() && IsUse(g, u) && Target(g, u) in s.dependents
  {
    var p := Target(g, u);
    var left := s.dependents[p] - 1;
    var counted := s.(dependents := s.dependents[p := left], pending := s.pending - {u}, released := s.released + {u});
    if left != 0 || p !in g.pkgs then counted
    else counted.(freed := s.freed + [p], pending := counted.pending + EdgesFrom(g, p))
  }

  /** The state after `step`; `Release` of something that is no use, or of a
      package without a counter, cannot happen in a reachable state. */
  ghost function Next(g: Graph, s: State, step: Step): State
    requires g.Valid()
  {
    match step
    case Invoke(p) => s.(invoked := s.invoked + {p})
    case Start(p) => s.(started := s.started + {p})
    case Skip(p) => s.(skipped := s.skipped + {p})
    case Finish(p) => s.(finished := s.finished + {p}, pending := s.pending + {Self(p)})
    case Release(u) => if IsUse(g, u) && Target(g, u) in s.dependents then Decremented(g, s, u) else s
    case Cancel => s.(cancelled := true)
  }

  ghost function Init(g: Graph): State
    requires g.Valid()
  {
    State(map p | p in g.pkgs :: |UsesOf(g, p)|, {}, {}, {}, {}, {}, {}, [], false)
  }

  /** The state that `steps` lead to from `s`, and whether each of them was
      enabled in its turn. */
  ghost function From(g: Graph, s: State, steps: seq<Step>): State
    requires g.Valid()
  {
    if steps == [] then s
    else Next(g, From(g, s, steps[..|steps| - 1]), steps[|steps| - 1])
  }

  ghost predicate RunFrom(g: Graph, s: State, steps: seq<Step>)
    requires g.Valid()
  {
    steps == [] ||
    (RunFrom(g, s, steps[..|steps| - 1]) && Enabled(g, From(g, s, steps[..|steps| - 1]), steps[|steps| - 1]))
  }

  ghost function After(g: Graph, steps: seq<Step>): State
    requires g.Valid()
  {
    From(g, Init(g), steps)
  }

  ghost predicate IsRun(g: Graph, steps: seq<Step>)
    requires g.Valid()
  {
    RunFrom(g, Init(g), steps)
  }

  // ----- The invariant

  ghost predicate CountsOk(g: Graph, s: State) {
    match s
    case State(dependents, _, _, _, _, _, released, _, _) =>
      && g.Valid()
      && dependents.Keys == g.pkgs
      && forall p :: p in g.pkgs ==> dependents[p] == |UsesOf(g, p) - released|
  }

  ghost predicate PlacesOk(g: Graph, s: State) {
    match s
    case State(_, _, _, finished, _, pending, released, freed, _) =>
      && g.Valid()
      && pending !! released
      && (forall u :: u in pending + released <==>
            IsUse(g, u) && (match u case Self(p) => p in finished case Edge(q, _) => q in freed))
  }

  ghost predicate FreedOk(g: Graph, s: State) {
    match s
    case State(_, _, _, _, _, _, released, freed, _) =>
      && g.Valid()
      && (forall i, j :: 0 <= i < j < |freed| ==> freed[i] != freed[j])
      && (forall p :: p in freed <==> p in g.pkgs && UsesOf(g, p) <= released)
  }

  ghost predicate OrderOk(g: Graph, s: State) {
    match s
    case State(_, invoked, started, finished, skipped, _, _, _, cancelled) =>
      && g.Valid()
      && finished <= started <= invoked <= g.pkgs
      && skipped <= invoked && skipped !! started
      && (skipped != {} ==> cancelled)
      && (forall p :: p in started ==> Returned(g, s, p))
  }

  ghost predicate Inv(g: Graph, s: State) {
    CountsOk(g, s) && PlacesOk(g, s) && FreedOk(g, s) && OrderOk(g, s)
  }

  lemma InitInv(g: Graph)
    requires g.Valid()
    ensures Inv(g, Init(g))
  {
    InitCounts(g);
    NoneFreed(g);
    hide CountsOk, FreedOk;
  }

  lemma InitCounts(g: Graph)
    requires g.Valid()
    ensures CountsOk(g, Init(g))
  {
    assert forall p :: UsesOf(g, p) - {} == UsesOf(g, p);
  }

  lemma NoneFreed(g: Graph)
    requires g.Valid()
    ensures FreedOk(g, Init(g))
  {
    forall p | p in g.pkgs
      ensures !(UsesOf(g, p) <= {})
    {
      assert Self(p) in UsesOf(g, p);
    }
  }

  /** A pending use is part of its target's count: the count is positive and
      the target is not yet freed. */
  lemma PendingIsCounted(g: Graph, s: State, u: Use)
    requires Inv(g, s) && u in s.pending
    ensures IsUse(g, u) && Target(g, u) in g.pkgs && Target(g, u) in s.dependents
    ensures s.dependents[Target(g, u)] >= 1
    ensures u !in s.released && Target(g, u) !in s.freed
  {
    assert u in s.pending + s.released;
    assert u in UsesOf(g, Target(g, u)) - s.released;
  }

  /** Releasing `u` takes one from the uses left of its target only. */
  lemma UsesLeft(g: Graph, released: set<Use>, u: Use, p: Pkg)
    requires g.Valid() && IsUse(g, u) && u !in released
    ensures |UsesOf(g, p) - (released + {u})| == |UsesOf(g, p) - released| - if p == Target(g, u) then 1 else 0
    ensures p != Target(g, u) ==> (UsesOf(g, p) <= released + {u} <==> UsesOf(g, p) <= released)
  {
    if p == Target(g, u) {
      assert UsesOf(g, p) - (released + {u}) == (UsesOf(g, p) - released) - {u};
    } else {
      assert UsesOf(g, p) - (released + {u}) == UsesOf(g, p) - released;
    }
  }

  lemma ReleaseKeepsCounts(g: Graph, s: State, u: Use)
    requires CountsOk(g, s) && u !in s.released && IsUse(g, u) && Target(g, u) in g.pkgs
    ensures CountsOk(g, Decremented(g, s, u))
  {
    hide Uses, UsesOf, EdgesFrom;
    var t := Target(g, u);
    forall p | p in g.pkgs
      ensures s.dependents[t := s.dependents[t] - 1][p] == |UsesOf(g, p) - (s.released + {u})|
    {
      UsesLeft(g, s.released, u, p);
    }
  }

  lemma LastUse(g: Graph, s: State, u: Use)
    requires CountsOk(g, s) && u !in s.released && IsUse(g, u) && Target(g, u) in g.pkgs
    ensures s.dependents[Target(g, u)] == 1 <==> UsesOf(g, Target(g, u)) <= s.released + {u}
  {
    UsesLeft(g, s.released, u, Target(g, u));
    var left := UsesOf(g, Target(g, u)) - (s.released + {u});
    assert |left| == 0 <==> left == {};
  }

  lemma ReleaseKeepsPlaces(g: Graph, s: State, u: Use)
    requires PlacesOk(g, s) && u in s.pending && IsUse(g, u)
    requires Target(g, u) in s.dependents && Target(g, u) in g.pkgs && Target(g, u) !in s.freed
    ensures PlacesOk(g, Decremented(g, s, u))
  {
  }

  lemma ReleaseKeepsFreed(g: Graph, s: State, u: Use)
    requires CountsOk(g, s) && FreedOk(g, s) && u !in s.released && IsUse(g, u)
    requires Target(g, u) in g.pkgs && Target(g, u) in s.dependents && Target(g, u) !in s.freed
    ensures FreedOk(g, Decremented(g, s, u))
  {
    hide Uses, UsesOf, CountsOk;
    var after := Decremented(g, s, u);
    forall p
      ensures p in after.freed <==> p in g.pkgs && UsesOf(g, p) <= after.released
    {
      UsesLeft(g, s.released, u, p);
      LastUse(g, s, u);
    }
  }

  lemma ReleaseKeepsInv(g: Graph, s: State, u: Use)
    requires Inv(g, s) && u in s.pending
    ensures IsUse(g, u) && Target(g, u) in s.dependents && Inv(g, Decremented(g, s, u))
  {
    PendingIsCounted(g, s, u);
    ReleaseKeepsCounts(g, s, u);
    ReleaseKeepsPlaces(g, s, u);
    ReleaseKeepsFreed(g, s, u);
  }

  /** The counting part of the invariant depends on these fields only. */
  lemma SameUses(g: Graph, s: State, t: State)
    requires CountsOk(g, s) && FreedOk(g, s)
    requires t.dependents == s.dependents && t.released == s.released && t.freed == s.freed
    ensures CountsOk(g, t) && FreedOk(g, t)
  {
  }

  lemma SamePlaces(g: Graph, s: State, t: State)
    requires PlacesOk(g, s)
    requires t.finished == s.finished && t.pending == s.pending && t.released == s.released && t.freed == s.freed
    ensures PlacesOk(g, t)
  {
  }

  lemma OrderKept(g: Graph, s: State, step: Step)
    requires OrderOk(g, s) && Enabled(g, s, step) && !step.Release?
    ensures OrderOk(g, Next(g, s, step))
  {
  }

  lemma FinishKeepsPlaces(g: Graph, s: State, p: Pkg)
    requires PlacesOk(g, s) && p in g.pkgs && p !in s.finished
    ensures PlacesOk(g, Next(g, s, Finish(p)))
  {
    assert Self(p) !in s.pending + s.released;
  }

  lemma StepKeepsInv(g: Graph, s: State, step: Step)
    requires Inv(g, s) && Enabled(g, s, step)
    ensures Inv(g, Next(g, s, step))
  {
    hide CountsOk, FreedOk, PlacesOk;
    var t := Next(g, s, step);
    if step.Release? {
      ReleaseKeepsInv(g, s, step.use);
    } else {
      OrderKept(g, s, step);
      SameUses(g, s, t);
      if step.Finish? {
        FinishKeepsPlaces(g, s, step.pkg);
      } else {
        SamePlaces(g, s, t);
      }
    }
  }

  /** The invariant holds in every reachable state. */
  lemma {:induction false} RunInv(g: Graph, steps: seq<Step>)
    requires g.Valid() && IsRun(g, steps)
    ensures Inv(g, After(g, steps))
  {
    hide Inv;
    if steps == [] {
      InitInv(g);
    } else {
      RunInv(g, steps[..|steps| - 1]);
      StepKeepsInv(g, After(g, steps[..|steps| - 1]), steps[|steps| - 1]);
    }
  }

  // ----- What every run guarantees

  /** The import edges to `p` that have not been given back. */
  ghost function OpenEdges(g: Graph, s: State, p: Pkg): set<Use>
    requires g.Valid()
  {
    set u | u in UsesOf(g, p) && u.Edge? && u !in s.released
  }

  ghost predicate CountExact(g: Graph, s: State, p: Pkg)
    requires g.Valid()
  {
    && p in s.dependents
    && s.dependents[p] == (if Self(p) in s.released then 0 else 1) + |OpenEdges(g, s, p)|
    && (p in s.freed <==> s.dependents[p] == 0)
    && (forall u :: u in s.pending && IsUse(g, u) && Target(g, u) == p ==> s.dependents[p] >= 1 && p !in s.freed)
  }

  /** The counter of a package is its own use, if not yet given back, plus the
      import edges whose importer has not given them back; so it is never
      negative, and a `decUse` that is due finds its package not yet freed. */
  lemma CountIsOutstandingUses(g: Graph, steps: seq<Step>, p: Pkg)
    requires g.Valid() && IsRun(g, steps) && p in g.pkgs
    ensures CountExact(g, After(g, steps), p)
  {
    hide *;
    RunInv(g, steps);
    CountMeans(g, After(g, steps), p);
  }

  lemma CountMeans(g: Graph, s: State, p: Pkg)
    requires g.Valid() && Inv(g, s) && p in g.pkgs
    ensures CountExact(g, s, p)
  {
    hide Uses, UsesOf, OpenEdges, PlacesOk, OrderOk;
    LeftSplits(g, s, p);
    NothingLeft(UsesOf(g, p), s.released);
    forall u | u in s.pending && IsUse(g, u) && Target(g, u) == p
      ensures s.dependents[p] >= 1 && p !in s.freed
    {
      PendingIsCounted(g, s, u);
    }
  }

  lemma NothingLeft<T>(all: set<T>, gone: set<T>)
    ensures |all - gone| == 0 <==> all <= gone
  {
    if all - gone == {} {
      forall x | x in all
        ensures x in gone
      {
        assert x !in all - gone;
      }
    } else {
      var x :| x in all - gone;
    }
  }

  lemma LeftSplits(g: Graph, s: State, p: Pkg)
    requires g.Valid() && p in g.pkgs
    ensures |UsesOf(g, p) - s.released| == (if Self(p) in s.released then 0 else 1) + |OpenEdges(g, s, p)|
  {
    var left := UsesOf(g, p) - s.released;
    assert Self(p) in UsesOf(g, p);
    assert forall u :: u in UsesOf(g, p) && u.Self? ==> u == Self(p);
    assert left == OpenEdges(g, s, p) + if Self(p) in s.released then {} else {Self(p)};
  }

  /** `w` follows import edges from its first to its last package. */
  ghost predicate ImportPath(g: Graph, w: seq<Pkg>) {
    && w != []
    && (forall i :: 0 <= i < |w| ==> w[i] in g.pkgs && w[i] in g.imports)
    && (forall i :: 0 <= i < |w| - 1 ==> w[i + 1] in g.imports[w[i]])
  }

  /** A package is freed only after every direct and transitive importer was
      analysed and freed; so whatever is still being analysed has all of its
      imports at hand. */
  lemma FreedAfterImporters(g: Graph, steps: seq<Step>, w: seq<Pkg>, i: nat)
    requires g.Valid() && IsRun(g, steps) && ImportPath(g, w) && i < |w|
    requires w[|w| - 1] in After(g, steps).freed
    ensures w[i] in After(g, steps).freed && w[i] in After(g, steps).finished
  {
    hide Inv;
    RunInv(g, steps);
    FreedPath(g, After(g, steps), w, i);
  }

  lemma {:induction false} FreedPath(g: Graph, s: State, w: seq<Pkg>, i: nat)
    requires g.Valid() && Inv(g, s) && ImportPath(g, w) && i < |w| && w[|w| - 1] in s.freed
    ensures w[i] in s.freed && w[i] in s.finished
    decreases |w| - i
  {
    hide Inv;
    if i < |w| - 1 {
      FreedPath(g, s, w, i + 1);
      FreedMeans(g, s, w[i + 1]);
    }
    FreedMeans(g, s, w[i]);
  }

  lemma FreedMeans(g: Graph, s: State, p: Pkg)
    requires g.Valid() && Inv(g, s) && p in s.freed
    ensures p in s.finished
    ensures forall q :: q in g.pkgs && p in g.imports[q] ==> q in s.freed
  {
    UseGone(g, s, Self(p), p);
    SelfGone(g, s, p);
    forall q | q in g.pkgs && p in g.imports[q]
      ensures q in s.freed
    {
      var j :| 0 <= j < |g.imports[q]| && g.imports[q][j] == p;
      UseGone(g, s, Edge(q, j), p);
      EdgeGone(g, s, q, j);
    }
  }

  /** A freed package has no use left. */
  lemma UseGone(g: Graph, s: State, u: Use, p: Pkg)
    requires g.Valid() && FreedOk(g, s) && p in s.freed && IsUse(g, u) && Target(g, u) == p
    ensures u in s.released
  {
    assert u in UsesOf(g, p);
  }

  lemma SelfGone(g: Graph, s: State, p: Pkg)
    requires g.Valid() && PlacesOk(g, s) && Self(p) in s.released
    ensures p in s.finished
  {
    assert Self(p) in s.pending + s.released;
  }

  lemma EdgeGone(g: Graph, s: State, q: Pkg, j: nat)
    requires g.Valid() && PlacesOk(g, s) && Edge(q, j) in s.released
    ensures q in s.freed
  {
    assert Edge(q, j) in s.pending + s.released;
  }

  lemma PendingIsAnalysed(g: Graph, s: State, u: Use)
    requires g.Valid() && Inv(g, s) && u in s.pending
    ensures IsUse(g, u) && Target(g, u) in s.finished + s.skipped && Target(g, u) !in s.started - s.finished
  {
    assert u in s.pending + s.released;
    if u.Edge? {
      FreedMeans(g, s, u.importer);
      StartedHasImports(g, s, u.importer, u.index);
    }
  }

  lemma StartedHasImports(g: Graph, s: State, q: Pkg, j: nat)
    requires g.Valid() && OrderOk(g, s) && q in s.finished && q in g.pkgs && j < |g.imports[q]|
    ensures g.imports[q][j] in s.finished + s.skipped && g.imports[q][j] !in s.started - s.finished
  {
    assert Returned(g, s, q);
  }

  /** Every `decUse` that can run clears a package whose own analysis is over:
      it clears syntax, passes and dependencies on every call, not only at zero. */
  lemma ClearedAfterAnalysis(g: Graph, steps: seq<Step>, u: Use)
    requires g.Valid() && IsRun(g, steps) && Enabled(g, After(g, steps), Release(u))
    ensures var s := After(g, steps);
            IsUse(g, u) && Target(g, u) in s.finished + s.skipped && Target(g, u) !in s.started - s.finished
  {
    RunInv(g, steps);
    hide Inv;
    PendingIsAnalysed(g, After(g, steps), u);
  }

  // ----- Runs end, and an uncancelled run frees everything

  /** Each step uses up one of finitely many possibilities. */
  ghost function Budget(g: Graph, s: State): int
    requires g.Valid()
  {
    |g.pkgs - s.invoked| + |g.pkgs - s.started - s.skipped| + |g.pkgs - s.finished|
    + |Uses(g) - s.released| + if s.cancelled then 0 else 1
  }

  lemma Spent<T>(all: set<T>, gone: set<T>, x: T)
    requires x in all && x !in gone
    ensures |all - (gone + {x})| == |all - gone| - 1
  {
    assert all - (gone + {x}) == (all - gone) - {x};
  }

  lemma StepSpends(g: Graph, s: State, step: Step)
    requires g.Valid() && Inv(g, s) && Enabled(g, s, step)
    ensures Budget(g, Next(g, s, step)) < Budget(g, s)
  {
    hide CountsOk, FreedOk, PlacesOk, UsesOf, Uses, Returned;
    match step
    case Invoke(p) => Spent(g.pkgs, s.invoked, p);
    case Start(p) =>
      Spent(g.pkgs, s.started + s.skipped, p);
      SlotTaken(g.pkgs, s.started, s.skipped, p);
    case Skip(p) =>
      Spent(g.pkgs, s.started + s.skipped, p);
      SlotTaken(g.pkgs, s.started, s.skipped, p);
    case Finish(p) => Spent(g.pkgs, s.finished, p);
    case Release(u) => ReleaseSpends(g, s, u);
    case Cancel =>
  }

  lemma SlotTaken(all: set<Pkg>, started: set<Pkg>, skipped: set<Pkg>, p: Pkg)
    ensures all - started - skipped == all - (started + skipped)
    ensures all - (started + {p}) - skipped == all - (started + skipped + {p})
    ensures all - started - (skipped + {p}) == all - (started + skipped + {p})
  {
  }

  lemma ReleaseSpends(g: Graph, s: State, u: Use)
    requires g.Valid() && Inv(g, s) && u in s.pending
    ensures Budget(g, Next(g, s, Release(u))) < Budget(g, s)
  {
    hide Inv, UsesOf, EdgesFrom;
    PendingIsCounted(g, s, u);
    Spent(Uses(g), s.released, u);
  }

  lemma InitBudget(g: Graph)
    requires g.Valid()
    ensures Budget(g, Init(g)) == 3 * |g.pkgs| + |Uses(g)| + 1
  {
    hide UsesOf;
    assert g.pkgs - {} == g.pkgs && g.pkgs - {} - {} == g.pkgs && Uses(g) - {} == Uses(g);
  }

  lemma BudgetLeft(g: Graph, s: State)
    requires g.Valid()
    ensures Budget(g, s) >= 0
  {
  }

  /** No run is longer than the initial budget. */
  lemma {:induction false} RunsEnd(g: Graph, steps: seq<Step>)
    requires g.Valid() && IsRun(g, steps)
    ensures |steps| + Budget(g, After(g, steps)) <= 3 * |g.pkgs| + |Uses(g)| + 1
    ensures |steps| <= 3 * |g.pkgs| + |Uses(g)| + 1
  {
    hide Inv, Init, Next, Enabled, Uses, Budget;
    BudgetLeft(g, After(g, steps));
    InitBudget(g);
    if steps != [] {
      var before := steps[..|steps| - 1];
      RunsEnd(g, before);
      RunInv(g, before);
      StepSpends(g, After(g, before), steps[|steps| - 1]);
    }
  }

  ghost predicate Terminal(g: Graph, s: State)
    requires g.Valid()
  {
    !s.cancelled && forall step :: Enabled(g, s, step) ==> step == Cancel
  }

  /** When an uncancelled run has nothing left to do, every package was
      analysed, and every package was freed exactly once. */
  lemma AllFreedOnce(g: Graph, steps: seq<Step>, rank: Pkg -> nat)
    requires g.Valid() && g.Rooted() && Ranked(g, rank)
    requires IsRun(g, steps) && Terminal(g, After(g, steps))
    ensures After(g, steps).finished == g.pkgs
    ensures multiset(After(g, steps).freed) == multiset(g.pkgs)
  {
    hide CountsOk, PlacesOk, FreedOk, OrderOk, Terminal, UsesOf;
    RunInv(g, steps);
    var s := After(g, steps);
    TerminalInvoked(g, s, rank);
    TerminalFinished(g, s, rank);
    TerminalFreed(g, s, rank);
    FreedDistinct(g, s);
  }

  lemma FreedDistinct(g: Graph, s: State)
    requires g.Valid() && Inv(g, s) && forall p :: p in g.pkgs ==> p in s.freed
    ensures multiset(s.freed) == multiset(g.pkgs)
  {
    hide UsesOf, CountsOk, PlacesOk, OrderOk;
    DistinctMultiset(s.freed, g.pkgs);
  }

  lemma {:induction false} DistinctMultiset(l: seq<Pkg>, all: set<Pkg>)
    requires forall i, j :: 0 <= i < j < |l| ==> l[i] != l[j]
    requires forall p :: p in l <==> p in all
    ensures multiset(l) == multiset(all)
  {
    if l != [] {
      var init, last := l[..|l| - 1], l[|l| - 1];
      DistinctMultiset(init, all - {last});
      assert l == init + [last];
      assert all == (all - {last}) + {last};
    }
  }

  lemma NotTerminal(g: Graph, s: State, step: Step)
    requires g.Valid() && Enabled(g, s, step) && step != Cancel
    ensures !Terminal(g, s)
  {
  }

  lemma NotCancelled(g: Graph, s: State)
    requires g.Valid() && Terminal(g, s)
    ensures !s.cancelled
  {
  }

  /** Everything was invoked, from the importers down, ... */
  lemma TerminalInvoked(g: Graph, s: State, rank: Pkg -> nat)
    requires g.Valid() && g.Rooted() && Ranked(g, rank) && Terminal(g, s)
    ensures g.pkgs <= s.invoked
  {
    hide UsesOf, Returned;
    NothingLeft(g.pkgs, s.invoked);
    if g.pkgs - s.invoked != {} {
      var p := Highest(g.pkgs - s.invoked, rank);
      assert !Enabled(g, s, Invoke(p));
      var q :| q in g.pkgs && q in g.imports && p in g.imports[q];
      assert false;
    }
  }

  /** ... then analysed, from the imports up, ... */
  lemma TerminalFinished(g: Graph, s: State, rank: Pkg -> nat)
    requires g.Valid() && Ranked(g, rank) && OrderOk(g, s) && Terminal(g, s) && g.pkgs <= s.invoked
    ensures s.finished == g.pkgs
  {
    hide UsesOf, Terminal;
    NothingLeft(g.pkgs, s.finished);
    assert !s.cancelled by {
      NotCancelled(g, s);
    }
    if g.pkgs - s.finished != {} {
      var p := Lowest(g.pkgs - s.finished, rank);
      if p in s.started {
        NotTerminal(g, s, Finish(p));
      } else {
        NotTerminal(g, s, Start(p));
      }
    }
  }

  /** ... then freed: with no call pending, the highest package not yet freed
      would have no use left. */
  lemma TerminalFreed(g: Graph, s: State, rank: Pkg -> nat)
    requires g.Valid() && Ranked(g, rank) && PlacesOk(g, s) && FreedOk(g, s) && Terminal(g, s) && s.finished == g.pkgs
    ensures forall p :: p in g.pkgs ==> p in s.freed
  {
    hide PlacesOk, Terminal;
    var held := g.pkgs - (set p | p in s.freed);
    NothingLeft(g.pkgs, set p | p in s.freed);
    if held != {} {
      var p := Highest(held, rank);
      forall u | u in UsesOf(g, p)
        ensures u in s.released
      {
        if u.Edge? {
          assert rank(u.importer) > rank(p);
        }
        UseReleased(g, s, u);
      }
    }
  }

  lemma UseReleased(g: Graph, s: State, u: Use)
    requires g.Valid() && PlacesOk(g, s) && Terminal(g, s) && s.finished == g.pkgs
    requires IsUse(g, u) && (u.Edge? ==> u.importer in s.freed)
    ensures u in s.released
  {
    assert !Enabled(g, s, Release(u));
    assert u in s.pending + s.released;
  }

  lemma {:induction false} Highest(s: set<Pkg>, rank: Pkg -> nat) returns (p: Pkg)
    requires s != {}
    ensures p in s && forall q :: q in s ==> rank(q) <= rank(p)
  {
    var first :| first in s;
    p := first;
    if s - {first} != {} {
      var r := Highest(s - {first}, rank);
      p := if rank(r) > rank(first) then r else first;
    }
    forall q | q in s
      ensures rank(q) <= rank(p)
    {
      assert q == first || q in s - {first};
    }
  }

  lemma {:induction false} Lowest(s: set<Pkg>, rank: Pkg -> nat) returns (p: Pkg)
    requires s != {}
    ensures p in s && forall q :: q in s ==> rank(p) <= rank(q)
  {
    var first :| first in s;
    p := first;
    if s - {first} != {} {
      var r := Lowest(s - {first}, rank);
      p := if rank(r) < rank(first) then r else first;
    }
    forall q | q in s
      ensures rank(p) <= rank(q)
    {
      assert q == first || q in s - {first};
    }
  }

  // ----- The code: filling the counters and the cascading release

  ghost function Source(u: Use): Pkg {
    match u
    case Self(p) => p
    case Edge(q, _) => q
  }

  ghost function UsesFrom(g: Graph, from: set<Pkg>): set<Use>
    requires g.Valid()
  {
    set u | u in Uses(g) && Source(u) in from
  }

  ghost function CountedFor(g: Graph, counted: set<Use>, p: Pkg): set<Use>
    requires g.Valid()
  {
    set u | u in counted && IsUse(g, u) && Target(g, u) == p
  }

  /** Each counter is the number of uses counted so far. */
  ghost predicate Tallied(g: Graph, dependents: map<Pkg, int>, counted: set<Use>)
    requires g.Valid()
  {
    && (forall p :: p in dependents ==> dependents[p] == |CountedFor(g, counted, p)|)
    && (forall u :: u in counted ==> IsUse(g, u) && Target(g, u) in dependents)
  }

  lemma Tally(g: Graph, dependents: map<Pkg, int>, counted: set<Use>, u: Use)
    requires g.Valid() && Tallied(g, dependents, counted) && IsUse(g, u) && u !in counted
    requires u.Self? ==> u.pkg !in dependents
    requires u.Edge? ==> Target(g, u) in dependents
    ensures var p := Target(g, u);
            Tallied(g, dependents[p := if u.Self? then 1 else dependents[p] + 1], counted + {u})
  {
    var p := Target(g, u);
    assert CountedFor(g, counted + {u}, p) == CountedFor(g, counted, p) + {u};
    if u.Self? {
      assert CountedFor(g, counted, p) == {};
    }
    forall q | q != p
      ensures CountedFor(g, counted + {u}, q) == CountedFor(g, counted, q)
    {
    }
  }

  /** `to` extends `from` by packages whose imports are all present and whose
      rank is below `bound`. */
  ghost predicate Extends(g: Graph, from: set<Pkg>, to: set<Pkg>, rank: Pkg -> nat, bound: nat)
    requires g.Valid()
  {
    && from <= to <= g.pkgs
    && forall n :: n in to - from ==> rank(n) < bound && forall j :: 0 <= j < |g.imports[n]| ==> g.imports[n][j] in to
  }

  /** Only visited packages and packages still being visited, which rank
      above `bound`, have contributed uses. */
  ghost predicate Visited(counted: set<Use>, keys: set<Pkg>, rank: Pkg -> nat, bound: nat) {
    forall u :: u in counted ==> Source(u) in keys || rank(Source(u)) > bound
  }

  /** Some package of `to` imports `q`. */
  ghost predicate ImportedIn(g: Graph, to: set<Pkg>, q: Pkg) {
    exists r :: r in to && r in g.imports && q in g.imports[r]
  }

  /** What `to` has beyond `from` is in `roots` or imported by something in it. */
  ghost predicate Introduced(g: Graph, from: set<Pkg>, to: set<Pkg>, roots: set<Pkg>) {
    forall q :: q in to - from ==> q in roots || ImportedIn(g, to, q)
  }

  lemma IntroducedThen(g: Graph, from: set<Pkg>, mid: set<Pkg>, to: set<Pkg>, a: set<Pkg>, b: set<Pkg>)
    requires mid <= to && Introduced(g, from, mid, a) && Introduced(g, mid, to, b)
    ensures Introduced(g, from, to, a + b)
  {
    forall q | q in mid && ImportedIn(g, mid, q)
      ensures ImportedIn(g, to, q)
    {
    }
  }

  lemma IntroducedByImports(g: Graph, from: set<Pkg>, to: set<Pkg>, p: Pkg)
    requires g.Valid() && p in g.pkgs && Introduced(g, from, to, Imports(g, p, |g.imports[p]|))
    ensures Introduced(g, from, to + {p}, {p})
  {
    forall q | q in to - from
      ensures ImportedIn(g, to + {p}, q)
    {
      if q in Imports(g, p, |g.imports[p]|) {
        assert q in g.imports[p];
      } else {
        assert ImportedIn(g, to, q);
      }
    }
  }

  ghost function Imports(g: Graph, p: Pkg, n: nat): set<Pkg>
    requires p in g.imports && n <= |g.imports[p]|
  {
    set q | q in g.imports[p][..n]
  }

  lemma ImportsNext(g: Graph, p: Pkg, j: nat)
    requires p in g.imports && j < |g.imports[p]|
    ensures Imports(g, p, j + 1) == Imports(g, p, j) + {g.imports[p][j]}
  {
    assert g.imports[p][..j + 1] == g.imports[p][..j] + [g.imports[p][j]];
  }

  ghost function EdgesUpTo(p: Pkg, j: nat): (r: set<Use>)
    ensures forall u :: u in r <==> u.Edge? && u.importer == p && u.index < j
  {
    set i | 0 <= i < j :: Edge(p, i)
  }

  /** `dfs`: count the uses of and by every package reachable from `p` that
      has no entry yet. */
  method Dfs(g: Graph, p: Pkg, dependents: map<Pkg, int>, ghost counted: set<Use>, ghost rank: Pkg -> nat)
    returns (dependents': map<Pkg, int>, ghost counted': set<Use>)
    requires g.Valid() && Ranked(g, rank) && p in g.pkgs && dependents.Keys <= g.pkgs
    requires Tallied(g, dependents, counted) && Visited(counted, dependents.Keys, rank, rank(p))
    ensures p in dependents' && Tallied(g, dependents', counted')
    ensures Extends(g, dependents.Keys, dependents'.Keys, rank, rank(p) + 1)
    ensures counted' == counted + UsesFrom(g, dependents'.Keys - dependents.Keys)
    ensures Introduced(g, dependents.Keys, dependents'.Keys, {p})
    decreases rank(p), 1, 0
  {
    assert Introduced(g, dependents.Keys, dependents.Keys, {p});
    hide Tallied, UsesFrom, Extends, Introduced;
    dependents', counted' := dependents, counted;
    if p in dependents {
      NoneNew(g, dependents.Keys, counted, rank, rank(p) + 1);
      return;
    }
    dependents', counted' := DfsImports(g, p, dependents, counted, rank);
    SelfIsNew(g, p, dependents.Keys, dependents'.Keys, counted, counted', rank);
    IntroducedByImports(g, dependents.Keys, dependents'.Keys, p);
    Tally(g, dependents', counted', Self(p));
    assert dependents'[p := 1].Keys == dependents'.Keys + {p};
    dependents' := dependents'[p := 1];
    counted' := counted' + {Self(p)};
  }

  lemma NoneNew(g: Graph, keys: set<Pkg>, counted: set<Use>, rank: Pkg -> nat, bound: nat)
    requires g.Valid() && keys <= g.pkgs
    ensures Extends(g, keys, keys, rank, bound) && counted == counted + UsesFrom(g, keys - keys)
  {
  }

  lemma SelfIsNew(g: Graph, p: Pkg, from: set<Pkg>, to: set<Pkg>, counted: set<Use>, counted': set<Use>, rank: Pkg -> nat)
    requires g.Valid() && p in g.pkgs && p !in from && Extends(g, from, to, rank, rank(p))
    requires Visited(counted, from, rank, rank(p))
    requires forall i :: 0 <= i < |g.imports[p]| ==> g.imports[p][i] in to
    requires counted' == counted + UsesFrom(g, to - from) + EdgesUpTo(p, |g.imports[p]|)
    ensures p !in to && Self(p) !in counted'
    ensures Extends(g, from, to + {p}, rank, rank(p) + 1)
    ensures counted' + {Self(p)} == counted + UsesFrom(g, to + {p} - from)
  {
  }

  /** The loop of `dfs` over the imports of `p`. */
  method DfsImports(g: Graph, p: Pkg, dependents: map<Pkg, int>, ghost counted: set<Use>, ghost rank: Pkg -> nat)
    returns (dependents': map<Pkg, int>, ghost counted': set<Use>)
    requires g.Valid() && Ranked(g, rank) && p in g.pkgs && dependents.Keys <= g.pkgs && p !in dependents
    requires Tallied(g, dependents, counted) && Visited(counted, dependents.Keys, rank, rank(p))
    ensures Tallied(g, dependents', counted')
    ensures Extends(g, dependents.Keys, dependents'.Keys, rank, rank(p))
    ensures forall i :: 0 <= i < |g.imports[p]| ==> g.imports[p][i] in dependents'
    ensures counted' == counted + UsesFrom(g, dependents'.Keys - dependents.Keys) + EdgesUpTo(p, |g.imports[p]|)
    ensures Introduced(g, dependents.Keys, dependents'.Keys, Imports(g, p, |g.imports[p]|))
    decreases rank(p), 0, 1
  {
    dependents', counted' := dependents, counted;
    NoneNew(g, dependents.Keys, counted, rank, rank(p));
    assert ImportsDone(g, p, 0, dependents.Keys, dependents', counted, counted', rank) by {
      assert EdgesUpTo(p, 0) == {};
    }
    hide Tallied, UsesFrom, Extends, Visited, Introduced, ImportsDone;
    for j := 0 to |g.imports[p]|
      invariant ImportsDone(g, p, j, dependents.Keys, dependents', counted, counted', rank)
    {
      dependents', counted' := DfsImport(g, p, j, dependents.Keys, dependents', counted, counted', rank);
    }
    AllImportsDone(g, p, dependents.Keys, dependents', counted, counted', rank);
  }

  /** The first `j` imports of `p` are visited and their edges counted. */
  ghost predicate ImportsDone(g: Graph, p: Pkg, j: nat, from: set<Pkg>, dependents: map<Pkg, int>, counted: set<Use>,
                              counted': set<Use>, rank: Pkg -> nat)
    requires g.Valid() && p in g.pkgs
  {
    && j <= |g.imports[p]| && Tallied(g, dependents, counted') && Extends(g, from, dependents.Keys, rank, rank(p))
    && (forall i :: 0 <= i < j ==> g.imports[p][i] in dependents)
    && counted' == counted + UsesFrom(g, dependents.Keys - from) + EdgesUpTo(p, j)
    && Introduced(g, from, dependents.Keys, Imports(g, p, j))
  }

  lemma AllImportsDone(g: Graph, p: Pkg, from: set<Pkg>, dependents: map<Pkg, int>, counted: set<Use>, counted': set<Use>,
                       rank: Pkg -> nat)
    requires g.Valid() && p in g.pkgs && ImportsDone(g, p, |g.imports[p]|, from, dependents, counted, counted', rank)
    ensures Tallied(g, dependents, counted') && Extends(g, from, dependents.Keys, rank, rank(p))
    ensures forall i :: 0 <= i < |g.imports[p]| ==> g.imports[p][i] in dependents
    ensures counted' == counted + UsesFrom(g, dependents.Keys - from) + EdgesUpTo(p, |g.imports[p]|)
    ensures Introduced(g, from, dependents.Keys, Imports(g, p, |g.imports[p]|))
  {
    hide Tallied, UsesFrom, Extends, Introduced, Imports;
  }

  /** One turn of that loop. */
  method DfsImport(g: Graph, p: Pkg, j: nat, ghost from: set<Pkg>, before: map<Pkg, int>,
                   ghost counted: set<Use>, ghost before': set<Use>, ghost rank: Pkg -> nat)
    returns (dependents: map<Pkg, int>, ghost counted': set<Use>)
    requires g.Valid() && Ranked(g, rank) && p in g.pkgs && j < |g.imports[p]| && p !in from
    requires Visited(counted, from, rank, rank(p))
    requires ImportsDone(g, p, j, from, before, counted, before', rank)
    ensures ImportsDone(g, p, j + 1, from, dependents, counted, counted', rank)
    decreases rank(p), 0, 0
  {
    var imp := g.imports[p][j];
    EdgeIsNew(g, p, j, from, before.Keys, counted, before', rank);
    hide Tallied, UsesFrom, Extends, Visited, Introduced, Imports, ImportsDone;
    dependents, counted' := Dfs(g, imp, before, before', rank);
    ImportDone(g, p, j, from, before, dependents, counted, before', counted', rank);
    dependents := dependents[imp := dependents[imp] + 1];
    counted' := counted' + {Edge(p, j)};
  }

  lemma ImportDone(g: Graph, p: Pkg, j: nat, from: set<Pkg>, before: map<Pkg, int>, after: map<Pkg, int>,
                   counted: set<Use>, before': set<Use>, after': set<Use>, rank: Pkg -> nat)
    requires g.Valid() && Ranked(g, rank) && p in g.pkgs && j < |g.imports[p]| && p !in from
    requires Visited(counted, from, rank, rank(p)) && ImportsDone(g, p, j, from, before, counted, before', rank)
    requires g.imports[p][j] in after && Tallied(g, after, after')
    requires Extends(g, before.Keys, after.Keys, rank, rank(g.imports[p][j]) + 1)
    requires after' == before' + UsesFrom(g, after.Keys - before.Keys)
    requires Introduced(g, before.Keys, after.Keys, {g.imports[p][j]})
    ensures var imp := g.imports[p][j];
            ImportsDone(g, p, j + 1, from, after[imp := after[imp] + 1], counted, after' + {Edge(p, j)}, rank)
  {
    hide Tallied, UsesFrom, Extends, Visited, Introduced, Imports, EdgesUpTo, Uses;
    var imp := g.imports[p][j];
    MoreNew(g, p, j, from, before.Keys, after.Keys, counted, before', after', rank);
    IntroducedThen(g, from, before.Keys, after.Keys, Imports(g, p, j), {imp});
    ImportsNext(g, p, j);
    Tally(g, after, after', Edge(p, j));
    SameKeys(after, imp, after[imp] + 1);
  }

  lemma SameKeys(m: map<Pkg, int>, p: Pkg, n: int)
    requires p in m
    ensures m[p := n].Keys == m.Keys
  {
  }

  lemma EdgeIsNew(g: Graph, p: Pkg, j: nat, from: set<Pkg>, to: set<Pkg>, counted: set<Use>, counted': set<Use>,
                  rank: Pkg -> nat)
    requires g.Valid() && Ranked(g, rank) && p in g.pkgs && j < |g.imports[p]| && p !in from
    requires Extends(g, from, to, rank, rank(p)) && Visited(counted, from, rank, rank(p))
    requires counted' == counted + UsesFrom(g, to - from) + EdgesUpTo(p, j)
    ensures to <= g.pkgs && Visited(counted', to, rank, rank(g.imports[p][j]))
  {
  }

  lemma MoreNew(g: Graph, p: Pkg, j: nat, from: set<Pkg>, mid: set<Pkg>, to: set<Pkg>,
                counted: set<Use>, counted': set<Use>, counted'': set<Use>, rank: Pkg -> nat)
    requires g.Valid() && Ranked(g, rank) && p in g.pkgs && j < |g.imports[p]| && p !in from
    requires Extends(g, from, mid, rank, rank(p)) && Extends(g, mid, to, rank, rank(g.imports[p][j]) + 1)
    requires Visited(counted, from, rank, rank(p))
    requires counted' == counted + UsesFrom(g, mid - from) + EdgesUpTo(p, j)
    requires counted'' == counted' + UsesFrom(g, to - mid)
    ensures mid <= to && Extends(g, from, to, rank, rank(p)) && Edge(p, j) !in counted''
    ensures counted'' + {Edge(p, j)} == counted + UsesFrom(g, to - from) + EdgesUpTo(p, j + 1)
  {
  }

  /** Each of these packages is on an import path from an initial one of them. */
  ghost predicate FromInitial(g: Graph, actionPkgs: seq<Pkg>)
    requires g.Valid()
  {
    forall p :: p in actionPkgs ==> exists w :: LeadsTo(g, actionPkgs, w, p)
  }

  ghost predicate LeadsTo(g: Graph, actionPkgs: seq<Pkg>, w: seq<Pkg>, p: Pkg)
    requires g.Valid()
  {
    |w| > 0 && ImportPath(g, w) && w[0] in g.initial && w[0] in actionPkgs && w[|w| - 1] == p
  }

  /** The loop in `analyze` over the packages of all actions: what it counts
      is the initial state of the protocol on the packages it visits, and each
      of these is initial or imported by another one. */
  method FillImports(g: Graph, actionPkgs: seq<Pkg>, ghost rank: Pkg -> nat) returns (dependents: map<Pkg, int>)
    requires g.Valid() && Ranked(g, rank) && forall p :: p in actionPkgs ==> p in g.pkgs
    ensures forall p :: p in actionPkgs ==> p in dependents
    ensures var loaded := Graph(g.imports, dependents.Keys, g.initial * dependents.Keys);
            && loaded.Valid() && dependents == Init(loaded).dependents
            && (FromInitial(g, actionPkgs) ==> loaded.Rooted())
  {
    dependents := map[];
    ghost var counted: set<Use> := {};
    NothingCounted(g, rank);
    assert dependents.Keys == {} && Introduced(g, {}, {}, {});
    assert actionPkgs[..0] == [] && Elements([]) == {};
    assert Filled(g, actionPkgs[..0], dependents, counted);
    hide Filled, FromInitial, Graph.Rooted, Init;
    for i := 0 to |actionPkgs|
      invariant Filled(g, actionPkgs[..i], dependents, counted)
    {
      dependents, counted := FillFrom(g, actionPkgs, i, dependents, counted, rank);
    }
    assert actionPkgs[..|actionPkgs|] == actionPkgs;
    AllFilled(g, actionPkgs, dependents, counted);
  }

  /** The packages reachable from `roots` are visited. */
  ghost predicate Filled(g: Graph, roots: seq<Pkg>, dependents: map<Pkg, int>, counted: set<Use>)
    requires g.Valid()
  {
    && Elements(roots) <= dependents.Keys <= g.pkgs && Tallied(g, dependents, counted)
    && counted == UsesFrom(g, dependents.Keys) && Closed(g, dependents.Keys)
    && Introduced(g, {}, dependents.Keys, Elements(roots))
  }

  method FillFrom(g: Graph, actionPkgs: seq<Pkg>, i: nat, before: map<Pkg, int>, ghost before': set<Use>, ghost rank: Pkg -> nat)
    returns (dependents: map<Pkg, int>, ghost counted: set<Use>)
    requires g.Valid() && Ranked(g, rank) && i < |actionPkgs| && actionPkgs[i] in g.pkgs
    requires Filled(g, actionPkgs[..i], before, before')
    ensures Filled(g, actionPkgs[..i + 1], dependents, counted)
  {
    var p := actionPkgs[i];
    AllVisited(g, before.Keys, before', rank, rank(p));
    hide Tallied, UsesFrom, Extends, Visited, Introduced, Elements;
    dependents, counted := Dfs(g, p, before, before', rank);
    StillClosed(g, before.Keys, dependents.Keys, rank, rank(p) + 1);
    IntroducedThen(g, {}, before.Keys, dependents.Keys, Elements(actionPkgs[..i]), {p});
    ElementsNext(actionPkgs, i);
  }

  lemma AllFilled(g: Graph, actionPkgs: seq<Pkg>, dependents: map<Pkg, int>, counted: set<Use>)
    requires g.Valid() && Filled(g, actionPkgs, dependents, counted)
    ensures forall p :: p in actionPkgs ==> p in dependents
    ensures var loaded := Graph(g.imports, dependents.Keys, g.initial * dependents.Keys);
            && loaded.Valid() && dependents == Init(loaded).dependents
            && (FromInitial(g, actionPkgs) ==> loaded.Rooted())
  {
    assert forall p :: p in actionPkgs ==> p in Elements(actionPkgs);
    hide Tallied, UsesFrom, Introduced, FromInitial, Graph.Rooted, Init;
    CountedIsInit(g, dependents, counted);
    if FromInitial(g, actionPkgs) {
      LoadedIsRooted(g, dependents.Keys, actionPkgs);
    }
  }

  ghost function Elements(s: seq<Pkg>): set<Pkg> { set p | p in s }

  lemma ElementsNext(s: seq<Pkg>, i: nat)
    requires i < |s|
    ensures Elements(s[..i + 1]) == Elements(s[..i]) + {s[i]}
  {
    assert s[..i + 1] == s[..i] + [s[i]];
  }

  lemma {:induction false} PathStaysClosed(g: Graph, keys: set<Pkg>, w: seq<Pkg>, i: nat)
    requires g.Valid() && Closed(g, keys) && ImportPath(g, w) && i < |w| && w[0] in keys
    ensures w[i] in keys
  {
    if i > 0 {
      PathStaysClosed(g, keys, w, i - 1);
    }
  }

  lemma LastImported(g: Graph, keys: set<Pkg>, w: seq<Pkg>)
    requires g.Valid() && Closed(g, keys) && ImportPath(g, w) && w[0] in keys && |w| >= 2
    ensures ImportedIn(g, keys, w[|w| - 1])
  {
    PathStaysClosed(g, keys, w, |w| - 2);
    var q := w[|w| - 2];
    assert w[|w| - 2 + 1] in g.imports[q];
  }

  lemma LoadedImported(g: Graph, keys: set<Pkg>, actionPkgs: seq<Pkg>, p: Pkg)
    requires g.Valid() && Closed(g, keys) && FromInitial(g, actionPkgs) && (forall q :: q in actionPkgs ==> q in keys)
    requires Introduced(g, {}, keys, Elements(actionPkgs)) && p in keys && p !in g.initial
    ensures ImportedIn(g, keys, p)
  {
    hide ImportedIn, Closed;
    if p in actionPkgs {
      var w :| LeadsTo(g, actionPkgs, w, p);
      LastImported(g, keys, w);
    } else {
      assert p in keys - {} && p !in Elements(actionPkgs);
    }
  }

  lemma LoadedIsRooted(g: Graph, keys: set<Pkg>, actionPkgs: seq<Pkg>)
    requires g.Valid() && Closed(g, keys) && FromInitial(g, actionPkgs) && (forall p :: p in actionPkgs ==> p in keys)
    requires Introduced(g, {}, keys, Elements(actionPkgs))
    ensures Graph(g.imports, keys, g.initial * keys).Rooted()
  {
    hide Closed, FromInitial, Introduced, Elements;
    forall p | p in keys && p !in g.initial
      ensures ImportedIn(g, keys, p)
    {
      LoadedImported(g, keys, actionPkgs, p);
    }
  }

  ghost predicate Closed(g: Graph, keys: set<Pkg>)
    requires g.Valid()
  {
    keys <= g.pkgs && forall p, j :: p in keys && 0 <= j < |g.imports[p]| ==> g.imports[p][j] in keys
  }

  lemma NothingCounted(g: Graph, rank: Pkg -> nat)
    requires g.Valid()
    ensures Tallied(g, map[], {}) && UsesFrom(g, {}) == {} && Closed(g, {})
  {
  }

  lemma AllVisited(g: Graph, keys: set<Pkg>, counted: set<Use>, rank: Pkg -> nat, bound: nat)
    requires g.Valid() && counted == UsesFrom(g, keys)
    ensures Visited(counted, keys, rank, bound)
  {
  }

  lemma StillClosed(g: Graph, from: set<Pkg>, to: set<Pkg>, rank: Pkg -> nat, bound: nat)
    requires g.Valid() && Closed(g, from) && Extends(g, from, to, rank, bound)
    ensures from <= to && Closed(g, to) && UsesFrom(g, from) + UsesFrom(g, to - from) == UsesFrom(g, to)
  {
  }

  lemma CountedIsInit(g: Graph, dependents: map<Pkg, int>, counted: set<Use>)
    requires g.Valid() && Closed(g, dependents.Keys) && Tallied(g, dependents, counted)
    requires counted == UsesFrom(g, dependents.Keys)
    ensures var loaded := Graph(g.imports, dependents.Keys, g.initial * dependents.Keys);
            loaded.Valid() && dependents == Init(loaded).dependents
  {
    var loaded := Graph(g.imports, dependents.Keys, g.initial * dependents.Keys);
    forall p | p in dependents
      ensures UsesOf(loaded, p) == CountedFor(g, counted, p)
    {
      forall u
        ensures u in UsesOf(loaded, p) <==> u in CountedFor(g, counted, p)
      {
        assert IsUse(loaded, u) <==> IsUse(g, u) && Source(u) in dependents.Keys;
      }
    }
  }

  class LoadingPackages {
    const g: Graph
    var dependents: map<Pkg, int>
    var freed: seq<Pkg>
    ghost var state: State

    ghost predicate Valid()
      reads this
    {
      g.Valid() && Inv(g, state) && dependents == state.dependents && freed == state.freed
    }

    constructor (g: Graph, dependents: map<Pkg, int>)
      requires g.Valid() && dependents == Init(g).dependents
      ensures Valid() && this.g == g && state == Init(g)
    {
      hide Inv, Init;
      InitInv(g);
      InitFreed(g);
      this.g := g;
      this.dependents := dependents;
      freed := [];
      state := Init(g);
    }

    /** Give back the use `u` of package `p`; at zero, free `p` and give back
        its uses of its imports. Done without interruption, the cascade is one
        of the runs above, and leaves no call behind. */
    method DecUse(p: Pkg, ghost u: Use) returns (ghost steps: seq<Step>)
      requires Valid() && u in state.pending && IsUse(g, u) && Target(g, u) == p
      modifies `dependents, `freed, `state
      ensures Valid()
      ensures RunFrom(g, old(state), steps) && state == From(g, old(state), steps)
      ensures forall i :: 0 <= i < |steps| ==> steps[i].Release?
      ensures state.pending == old(state).pending - {u}
      ensures old(state).released + {u} <= state.released
      decreases |Uses(g) - state.released|
    {
      hide Inv, Uses, UsesOf, Enabled, From, RunFrom, Next;
      ghost var before := state;
      PendingIsCounted(g, state, u);
      ReleaseKeepsInv(g, state, u);
      OneRelease(g, state, u);
      Spent(Uses(g), state.released, u);
      steps := [Release(u)];
      state := Decremented(g, state, u);
      dependents := dependents[p := dependents[p] - 1];
      if dependents[p] != 0 {
        return;
      }
      freed := freed + [p];
      NoEdgeYet(g, before, p);
      assert EdgesBeyond(g, p, 0) == EdgesFrom(g, p);
      for j := 0 to |g.imports[p]|
        invariant Valid() && before.released + {u} <= state.released
        invariant RunFrom(g, before, steps) && state == From(g, before, steps)
        invariant forall i :: 0 <= i < |steps| ==> steps[i].Release?
        invariant state.pending == before.pending - {u} + EdgesBeyond(g, p, j)
      {
        Fewer(Uses(g), before.released, state.released, u);
        ghost var more := DecUse(g.imports[p][j], Edge(p, j));
        RunConcat(g, before, steps, more);
        steps := steps + more;
        assert EdgesBeyond(g, p, j) == EdgesBeyond(g, p, j + 1) + {Edge(p, j)};
      }
    }
  }

  ghost function EdgesBeyond(g: Graph, p: Pkg, j: nat): (r: set<Use>)
    requires g.Valid() && p in g.pkgs
    ensures forall u :: u in r <==> u.Edge? && u.importer == p && j <= u.index < |g.imports[p]|
  {
    set i | j <= i < |g.imports[p]| :: Edge(p, i)
  }

  lemma InitFreed(g: Graph)
    requires g.Valid()
    ensures Init(g).freed == []
  {
  }

  lemma Fewer<T>(all: set<T>, gone: set<T>, more: set<T>, x: T)
    requires x in all && x !in gone && gone + {x} <= more
    ensures |all - more| < |all - gone|
  {
    Spent(all, gone, x);
    assert all - (gone + {x}) == (all - more) + ((all - (gone + {x})) * more);
  }

  lemma OneRelease(g: Graph, s: State, u: Use)
    requires g.Valid() && IsUse(g, u) && Target(g, u) in s.dependents && u in s.pending
    ensures RunFrom(g, s, [Release(u)]) && From(g, s, [Release(u)]) == Decremented(g, s, u)
  {
    var steps := [Release(u)];
    assert steps[..|steps| - 1] == [];
    assert RunFrom(g, s, steps[..|steps| - 1]) && From(g, s, steps[..|steps| - 1]) == s;
    assert Enabled(g, s, steps[|steps| - 1]);
  }

  lemma NoEdgeYet(g: Graph, s: State, p: Pkg)
    requires g.Valid() && Inv(g, s) && p in g.pkgs && p !in s.freed
    ensures forall u: Use :: u.Edge? && u.importer == p ==> u !in s.pending
  {
    forall u: Use | u.Edge? && u.importer == p
      ensures u !in s.pending
    {
      assert u !in s.pending + s.released;
    }
  }

  lemma {:induction false} RunConcat(g: Graph, s: State, a: seq<Step>, b: seq<Step>)
    requires g.Valid() && RunFrom(g, s, a) && RunFrom(g, From(g, s, a), b)
    ensures RunFrom(g, s, a + b) && From(g, s, a + b) == From(g, From(g, s, a), b)
    decreases |b|
  {
    hide Next, Enabled;
    if b == [] {
      assert a + b == a;
    } else {
      var init := b[..|b| - 1];
      RunConcat(g, s, a, init);
      assert (a + b)[..|a + b| - 1] == a + init;
    }
  }
}
