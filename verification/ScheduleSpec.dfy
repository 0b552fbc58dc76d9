/** What a scheduler for one package's actions has to achieve, stated without
    any scheduler: the same-package dependency graph, the set of actions that
    can ever become ready, and the event traces that respect the graph. */
module ScheduleSpec {
  import opened Options
  import opened FiniteSets

  type Action = nat
  type Error = nat

  /** One action: the package it belongs to and everything it depends on,
      including actions of other packages. */
  datatype Node = Node(pkg: nat, deps: seq<Action>)

  datatype Graph = Graph(actions: seq<Action>, nodes: map<Action, Node>) {

    /** `actions` lists distinct nodes and every dependency edge leads to a node. */
    ghost predicate Valid() {
      && (forall i, j :: 0 <= i < j < |actions| ==> actions[i] != actions[j])
      && (forall a :: a in actions ==> a in nodes)
      && (forall a, d :: a in actions && d in nodes[a].deps ==> d in nodes)
    }

    /** The edges the executor counts: dependencies inside the same package,
        with multiplicity. */
    ghost function Edges(a: Action): seq<Action>
      requires Valid() && a in actions
    {
      Within(nodes[a].deps, nodes[a].pkg)
    }

    ghost function Within(deps: seq<Action>, pkg: nat): (r: seq<Action>)
      requires forall d :: d in deps ==> d in nodes
      ensures forall d :: d in r <==> d in deps && nodes[d].pkg == pkg
    {
      if deps == [] then []
      else
        var init, last := deps[..|deps| - 1], deps[|deps| - 1];
        Within(init, pkg) + (if nodes[last].pkg == pkg then [last] else [])
    }

    ghost function ActionSet(): set<Action> { set a | a in actions }
  }

  /** Each dependency in the same package is an edge as often as it is listed,
      and no other action is. */
  lemma EdgesMean(g: Graph, a: Action, d: Action)
    requires g.Valid() && a in g.actions
    ensures multiset(g.Edges(a))[d] ==
            if d in g.nodes && g.nodes[d].pkg == g.nodes[a].pkg then multiset(g.nodes[a].deps)[d] else 0
  {
    WithinCount(g, g.nodes[a].deps, g.nodes[a].pkg, d);
    assert d in multiset(g.nodes[a].deps) <==> d in g.nodes[a].deps;
  }

  lemma {:induction false} WithinCount(g: Graph, deps: seq<Action>, pkg: nat, d: Action)
    requires forall x :: x in deps ==> x in g.nodes
    ensures multiset(g.Within(deps, pkg))[d] == if d in g.nodes && g.nodes[d].pkg == pkg then multiset(deps)[d] else 0
  {
    if deps != [] {
      var init, last := deps[..|deps| - 1], deps[|deps| - 1];
      WithinCount(g, init, pkg, d);
      assert deps == init + [last];
    }
  }

  lemma ActionCount(g: Graph, s: set<Action>)
    requires g.Valid() && s <= g.ActionSet()
    ensures |s| <= |g.actions|
    ensures |s| == |g.actions| <==> s == g.ActionSet()
  {
    DistinctCount(g.actions);
    SubsetSize(s, g.ActionSet());
  }

  lemma {:induction false} DistinctCount<T>(s: seq<T>)
    requires forall i, j :: 0 <= i < j < |s| ==> s[i] != s[j]
    ensures |set x | x in s| == |s|
  {
    if s != [] {
      var init, last := s[..|s| - 1], s[|s| - 1];
      DistinctCount(init);
      assert (set x | x in s) == (set x | x in init) + {last};
    }
  }

  // ----- Which actions can ever run

  /** Actions whose same-package dependency chains all end within `n` links. */
  ghost function Layer(g: Graph, n: nat): set<Action>
    requires g.Valid()
  {
    if n == 0 then {}
    else set a | a in g.actions && forall d :: d in g.Edges(a) ==> d in Layer(g, n - 1)
  }

  /** The actions an unhindered run must complete. */
  ghost function Schedulable(g: Graph): set<Action>
    requires g.Valid()
  {
    Layer(g, |g.actions|)
  }

  lemma {:induction false} LayerGrows(g: Graph, n: nat)
    requires g.Valid()
    ensures Layer(g, n) <= Layer(g, n + 1) <= g.ActionSet()
  {
    hide Graph.Edges;
    if n > 0 {
      LayerGrows(g, n - 1);
    }
  }

  /** Each layer either adds an action or is already closed. */
  lemma {:induction false} LayerCount(g: Graph, n: nat)
    requires g.Valid()
    ensures |Layer(g, n)| >= n || Layer(g, n) == Layer(g, n + 1)
  {
    hide Graph.Edges;
    if n > 0 {
      LayerCount(g, n - 1);
      LayerGrows(g, n - 1);
      SubsetSize(Layer(g, n - 1), Layer(g, n));
    }
  }

  /** `Schedulable` contains an action exactly when it contains all of the
      action's same-package dependencies ... */
  lemma SchedulableIsFixpoint(g: Graph, a: Action)
    requires g.Valid()
    ensures a in Schedulable(g) <==>
            a in g.actions && forall d :: d in g.Edges(a) ==> d in Schedulable(g)
  {
    var n := |g.actions|;
    LayerCount(g, n);
    LayerGrows(g, n);
    SubsetSize(Layer(g, n), Layer(g, n + 1));
    ActionCount(g, Layer(g, n + 1));
  }

  /** ... and is the least such set. */
  lemma SchedulableIsLeast(g: Graph, s: set<Action>)
    requires g.Valid()
    requires forall a :: a in g.actions && (forall d :: d in g.Edges(a) ==> d in s) ==> a in s
    ensures Schedulable(g) <= s
  {
    LayerWithinClosed(g, |g.actions|, s);
  }

  lemma {:induction false} LayerWithinClosed(g: Graph, n: nat, s: set<Action>)
    requires g.Valid()
    requires forall a :: a in g.actions && (forall d :: d in g.Edges(a) ==> d in s) ==> a in s
    ensures Layer(g, n) <= s
  {
    hide Graph.Edges;
    if n > 0 {
      LayerWithinClosed(g, n - 1, s);
    }
  }

  /** `w` follows same-package dependency edges; only its last element may
      lie outside the package's actions. */
  ghost predicate Walk(g: Graph, w: seq<Action>)
    requires g.Valid()
  {
    && w != []
    && forall i :: 0 <= i < |w| - 1 ==> w[i] in g.actions && w[i + 1] in g.Edges(w[i])
  }

  ghost predicate Acyclic(g: Graph, a: Action)
    requires g.Valid()
  {
    forall w :: Walk(g, w) && w[0] == a ==>
      && (forall i :: 0 <= i < |w| ==> w[i] in g.actions)
      && (forall i, j :: 0 <= i < j < |w| ==> w[i] != w[j])
  }

  /** An action is schedulable exactly when no dependency walk from it leaves
      the package's actions or visits an action twice. */
  lemma SchedulableIffAcyclic(g: Graph, a: Action)
    requires g.Valid()
    ensures a in Schedulable(g) <==> Acyclic(g, a)
  {
    if a in Schedulable(g) {
      forall w | Walk(g, w) && w[0] == a
        ensures forall i :: 0 <= i < |w| ==> w[i] in g.actions
        ensures forall i, j :: 0 <= i < j < |w| ==> w[i] != w[j]
      {
        WalkDescends(g, w, |g.actions|);
      }
    } else if Acyclic(g, a) {
      assert Walk(g, [a]);
      var w := StuckWalk(g, a, |g.actions| + 1);
      DistinctCount(w);
      ActionCount(g, set x | x in w);
    }
  }

  /** Every step of a walk goes to a strictly lower layer. */
  lemma {:induction false} WalkDescends(g: Graph, w: seq<Action>, n: nat)
    requires g.Valid() && Walk(g, w) && w[0] in Layer(g, n)
    ensures forall i :: 0 <= i < |w| ==> w[i] in g.actions
    ensures forall i, j :: 0 <= i < j < |w| ==> w[i] != w[j]
    decreases n
  {
    hide Graph.Edges;
    if n > 1 && w[0] in Layer(g, n - 1) {
      WalkDescends(g, w, n - 1);
    } else if |w| > 1 {
      assert Walk(g, w[1..]);
      WalkDescends(g, w[1..], n - 1);
      forall j | 0 < j < |w|
        ensures w[j] != w[0]
      {
        WalkStaysLow(g, w[1..], n - 1, j - 1);
      }
    }
  }

  lemma {:induction false} WalkStaysLow(g: Graph, w: seq<Action>, n: nat, k: nat)
    requires g.Valid() && Walk(g, w) && w[0] in Layer(g, n) && k < |w|
    ensures w[k] in Layer(g, n)
  {
    if k > 0 {
      LayerGrows(g, n - 1);
      assert Walk(g, w[1..]);
      WalkStaysLow(g, w[1..], n, k - 1);
    }
  }

  /** From an unschedulable action one can walk on for any number of steps. */
  lemma {:induction false} StuckWalk(g: Graph, a: Action, n: nat) returns (w: seq<Action>)
    requires g.Valid() && n > 0
    requires a in g.actions && a !in Schedulable(g) && Acyclic(g, a)
    ensures |w| == n && w[0] == a && Walk(g, w)
    decreases n
  {
    if n == 1 {
      w := [a];
    } else {
      SchedulableIsFixpoint(g, a);
      var d :| d in g.Edges(a) && d !in Schedulable(g);
      AcyclicInherited(g, a, d);
      EdgeEndsInActions(g, a, d);
      var rest := StuckWalk(g, d, n - 1);
      w := [a] + rest;
      WalkCons(g, a, rest);
    }
  }

  lemma WalkCons(g: Graph, a: Action, w: seq<Action>)
    requires g.Valid() && Walk(g, w) && a in g.actions && w[0] in g.Edges(a)
    ensures Walk(g, [a] + w)
  {
  }

  lemma EdgeEndsInActions(g: Graph, a: Action, d: Action)
    requires g.Valid() && Acyclic(g, a) && a in g.actions && d in g.Edges(a)
    ensures d in g.actions
  {
    assert Walk(g, [a, d]);
    assert [a, d][1] == d;
  }

  lemma AcyclicInherited(g: Graph, a: Action, d: Action)
    requires g.Valid() && Acyclic(g, a) && a in g.actions && d in g.Edges(a)
    ensures Acyclic(g, d)
  {
    forall v | Walk(g, v) && v[0] == d
      ensures forall i :: 0 <= i < |v| ==> v[i] in g.actions
      ensures forall i, j :: 0 <= i < j < |v| ==> v[i] != v[j]
    {
      var u := [a] + v;
      WalkCons(g, a, v);
      assert u[0] == a;
      assert forall i :: 0 <= i < |v| ==> v[i] == u[i + 1];
    }
  }

  // ----- Traces

  /** What the executor does, in order: hand an action to a worker, take a
      worker's result off the channel. */
  datatype Event =
    | Launch(action: Action)
    | Finish(action: Action, err: Option<Error>)

  ghost function LaunchedIn(tr: seq<Event>): set<Action> {
    if tr == [] then {}
    else LaunchedIn(tr[..|tr| - 1]) + Launches(tr[|tr| - 1])
  }

  ghost function CompletedIn(tr: seq<Event>): set<Action> {
    if tr == [] then {}
    else CompletedIn(tr[..|tr| - 1]) + Completes(tr[|tr| - 1])
  }

  ghost function SucceededIn(tr: seq<Event>): set<Action> {
    if tr == [] then {}
    else SucceededIn(tr[..|tr| - 1]) + Succeeds(tr[|tr| - 1])
  }

  ghost function Launches(e: Event): set<Action> { if e.Launch? then {e.action} else {} }
  ghost function Completes(e: Event): set<Action> { if e.Finish? then {e.action} else {} }
  ghost function Succeeds(e: Event): set<Action> { if e.Finish? && e.err.None? then {e.action} else {} }

  lemma EventSetsMean(tr: seq<Event>, a: Action)
    ensures a in LaunchedIn(tr) <==> Launch(a) in tr
    ensures a in SucceededIn(tr) <==> Finish(a, None) in tr
    ensures a in CompletedIn(tr) <==> exists i :: 0 <= i < |tr| && tr[i].Finish? && tr[i].action == a
  {
    LaunchedMeans(tr, a);
    SucceededMeans(tr, a);
    CompletedMeans(tr, a);
  }

  lemma {:induction false} LaunchedMeans(tr: seq<Event>, a: Action)
    ensures a in LaunchedIn(tr) <==> Launch(a) in tr
  {
    if tr != [] {
      var init, last := tr[..|tr| - 1], tr[|tr| - 1];
      LaunchedMeans(init, a);
      assert tr == init + [last];
    }
  }

  lemma {:induction false} SucceededMeans(tr: seq<Event>, a: Action)
    ensures a in SucceededIn(tr) <==> Finish(a, None) in tr
  {
    if tr != [] {
      var init, last := tr[..|tr| - 1], tr[|tr| - 1];
      SucceededMeans(init, a);
      assert tr == init + [last];
    }
  }

  lemma {:induction false} CompletedMeans(tr: seq<Event>, a: Action)
    ensures a in CompletedIn(tr) <==> exists i :: 0 <= i < |tr| && tr[i].Finish? && tr[i].action == a
  {
    if tr != [] {
      var init, last := tr[..|tr| - 1], tr[|tr| - 1];
      CompletedMeans(init, a);
      if a in CompletedIn(init) {
        var i :| 0 <= i < |init| && init[i].Finish? && init[i].action == a;
        assert tr[i] == init[i];
      }
      if i :| 0 <= i < |init| && tr[i].Finish? && tr[i].action == a {
        assert init[i] == tr[i];
      }
    }
  }

  ghost function FirstError(tr: seq<Event>): Option<Error> {
    if tr == [] then None
    else
      var init, last := tr[..|tr| - 1], tr[|tr| - 1];
      if FirstError(init).Some? then FirstError(init)
      else if last.Finish? then last.err
      else None
  }

  lemma {:induction false} FirstErrorMeans(tr: seq<Event>)
    ensures FirstError(tr).None? <==> forall i :: 0 <= i < |tr| && tr[i].Finish? ==> tr[i].err.None?
    ensures FirstError(tr).Some? ==>
              exists i :: 0 <= i < |tr| && tr[i].Finish? && tr[i].err == FirstError(tr)
                          && forall j :: 0 <= j < i && tr[j].Finish? ==> tr[j].err.None?
  {
    if tr != [] {
      var init, last := tr[..|tr| - 1], tr[|tr| - 1];
      FirstErrorMeans(init);
      if FirstError(init).Some? {
        var i :| 0 <= i < |init| && init[i].Finish? && init[i].err == FirstError(init)
                 && forall j :: 0 <= j < i && init[j].Finish? ==> init[j].err.None?;
        assert tr[i] == init[i];
        assert forall j :: 0 <= j < i ==> tr[j] == init[j];
      } else if last.Finish? && last.err.Some? {
        assert tr[|tr| - 1].err == FirstError(tr);
      }
    }
  }

  /** `e` may follow the events `before`. */
  ghost predicate StepSafe(g: Graph, before: seq<Event>, e: Event)
    requires g.Valid()
  {
    match e
    case Launch(a) =>
      && a in g.actions
      && a !in LaunchedIn(before)
      && (forall d :: d in g.Edges(a) ==> d in SucceededIn(before))
      && FirstError(before).None?
    case Finish(a, _) =>
      a in LaunchedIn(before) && a !in CompletedIn(before)
  }

  ghost predicate TraceSafe(g: Graph, tr: seq<Event>)
    requires g.Valid()
  {
    forall i :: 0 <= i < |tr| ==> StepSafe(g, tr[..i], tr[i])
  }

  lemma EventsExtend(tr: seq<Event>, e: Event)
    ensures FirstError(tr + [e]) == if FirstError(tr).Some? || e.Launch? then FirstError(tr) else e.err
    ensures LaunchedIn(tr + [e]) == if e.Launch? then LaunchedIn(tr) + {e.action} else LaunchedIn(tr)
    ensures CompletedIn(tr + [e]) == if e.Finish? then CompletedIn(tr) + {e.action} else CompletedIn(tr)
    ensures SucceededIn(tr + [e]) ==
            if e.Finish? && e.err.None? then SucceededIn(tr) + {e.action} else SucceededIn(tr)
  {
    assert (tr + [e])[..|tr|] == tr;
  }

  lemma {:induction false} TraceExtends(g: Graph, tr: seq<Event>, e: Event)
    requires g.Valid() && TraceSafe(g, tr) && StepSafe(g, tr, e)
    ensures TraceSafe(g, tr + [e])
  {
    var ext := tr + [e];
    forall i | 0 <= i < |ext|
      ensures StepSafe(g, ext[..i], ext[i])
    {
      assert ext[..i] == tr[..i];
      assert tr[..|tr|] == tr;
    }
  }

  lemma {:induction false} TracePrefixSafe(g: Graph, tr: seq<Event>, n: nat)
    requires g.Valid() && TraceSafe(g, tr) && n <= |tr|
    ensures TraceSafe(g, tr[..n])
  {
    forall i | 0 <= i < n
      ensures StepSafe(g, tr[..n][..i], tr[..n][i])
    {
      assert tr[..n][..i] == tr[..i];
      assert StepSafe(g, tr[..i], tr[i]);
    }
  }

  /** A safe trace completes only schedulable actions. */
  lemma {:induction false} CompletedAreSchedulable(g: Graph, tr: seq<Event>)
    requires g.Valid() && TraceSafe(g, tr)
    ensures SucceededIn(tr) <= CompletedIn(tr) <= LaunchedIn(tr) <= Schedulable(g)
  {
    if tr != [] {
      var init, last := tr[..|tr| - 1], tr[|tr| - 1];
      TracePrefixSafe(g, tr, |tr| - 1);
      CompletedAreSchedulable(g, init);
      assert StepSafe(g, init, last);
      hide TraceSafe, Schedulable;
      if last.Launch? {
        LaunchIsSchedulable(g, init, last.action);
      }
    }
  }

  lemma LaunchIsSchedulable(g: Graph, before: seq<Event>, a: Action)
    requires g.Valid() && StepSafe(g, before, Launch(a)) && SucceededIn(before) <= Schedulable(g)
    ensures a in Schedulable(g)
  {
    SchedulableIsFixpoint(g, a);
  }

  /** Each action is launched at most once and finishes at most once. */
  lemma {:induction false} EventCount(g: Graph, tr: seq<Event>)
    requires g.Valid() && TraceSafe(g, tr)
    ensures |tr| == |LaunchedIn(tr)| + |CompletedIn(tr)|
  {
    if tr != [] {
      TracePrefixSafe(g, tr, |tr| - 1);
      EventCount(g, tr[..|tr| - 1]);
      assert StepSafe(g, tr[..|tr| - 1], tr[|tr| - 1]);
    }
  }

  lemma TraceLength(g: Graph, tr: seq<Event>)
    requires g.Valid() && TraceSafe(g, tr)
    ensures LaunchedIn(tr) <= g.ActionSet() && |LaunchedIn(tr)| <= |g.actions|
    ensures |tr| <= 2 * |g.actions|
  {
    hide TraceSafe, LaunchedIn, CompletedIn, SucceededIn, Layer, g.Valid;
    EventCount(g, tr);
    CompletedAreSchedulable(g, tr);
    LayerGrows(g, |g.actions|);
    ActionCount(g, LaunchedIn(tr));
    SubsetSize(CompletedIn(tr), LaunchedIn(tr));
  }

  /** The safety of a trace read off event by event. */
  lemma TraceSafeMeans(g: Graph, tr: seq<Event>, i: nat)
    requires g.Valid() && TraceSafe(g, tr) && i < |tr| && tr[i].Launch?
    ensures forall j :: 0 <= j < i ==> tr[j] != tr[i]
    ensures forall d :: d in g.Edges(tr[i].action) ==>
              exists j :: 0 <= j < i && tr[j] == Finish(d, None)
    ensures forall j :: 0 <= j < i && tr[j].Finish? ==> tr[j].err.None?
  {
    var before := tr[..i];
    assert StepSafe(g, before, tr[i]);
    FirstErrorMeans(before);
    assert forall j :: 0 <= j < i ==> tr[j] == before[j];
    EventSetsMean(before, tr[i].action);
    forall d | d in g.Edges(tr[i].action)
      ensures exists j :: 0 <= j < i && tr[j] == Finish(d, None)
    {
      EventSetsMean(before, d);
    }
  }
}
