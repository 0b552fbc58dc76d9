/** The dependency-counting executor that runs one package's actions on a
    shared worker pool. Worker timing, `select` choices, action errors and
    cancellation are all nondeterministic, so a postcondition of `Run` holds
    for every interleaving. */
module ActionScheduler {
  import opened Options
  import opened ScheduleSpec

  // ----- Counting dependency edges

  /** Edges whose target has not been accounted for. */
  ghost function Open(deps: seq<Action>, done: set<Action>): nat {
    if deps == [] then 0
    else Open(deps[1..], done) + if deps[0] in done then 0 else 1
  }

  lemma {:induction false} OpenDrops(deps: seq<Action>, done: set<Action>, x: Action)
    requires x !in done
    ensures Open(deps, done) == Open(deps, done + {x}) + multiset(deps)[x]
  {
    if deps != [] {
      OpenDrops(deps[1..], done, x);
      assert deps == [deps[0]] + deps[1..];
    }
  }

  lemma {:induction false} OpenZero(deps: seq<Action>, done: set<Action>)
    ensures Open(deps, done) == 0 <==> forall d :: d in deps ==> d in done
    ensures done == {} ==> Open(deps, done) == |deps|
  {
    if deps != [] {
      OpenZero(deps[1..], done);
    }
  }

  function CountOf(m: map<Action, int>, a: Action): int { if a in m then m[a] else 0 }

  function ListOf(m: map<Action, seq<Action>>, a: Action): seq<Action> { if a in m then m[a] else [] }

  ghost predicate Distinct<T>(s: seq<T>) {
    forall i, j :: 0 <= i < j < |s| ==> s[i] != s[j]
  }

  type Edges = map<Action, seq<Action>>

  ghost function EdgesOf(g: Graph): Edges
    requires g.Valid()
  {
    map a | a in g.actions :: g.Edges(a)
  }

  /** `dependents` lists, for each edge target, the source of every edge
      leaving an action of `from`. */
  ghost predicate Reversed(edges: Edges, dependents: map<Action, seq<Action>>, from: set<Action>)
    requires from <= edges.Keys
  {
    forall d, a :: Occurs(dependents, d, a) == if a in from then multiset(edges[a])[d] else 0
  }

  ghost function Occurs(m: map<Action, seq<Action>>, d: Action, a: Action): nat {
    multiset(ListOf(m, d))[a]
  }

  /** Every counter is the number of its action's open edges. */
  ghost predicate Counted(edges: Edges, remaining: map<Action, int>, done: set<Action>) {
    forall a :: CountOf(remaining, a) == if a in edges then Open(edges[a], done) else 0
  }

  /** `ready` holds, once each, the actions with no open edge that were not launched. */
  ghost predicate ReadyOk(edges: Edges, remaining: map<Action, int>, ready: seq<Action>, launched: set<Action>) {
    && Distinct(ready)
    && forall a :: a in ready <==> a in edges && CountOf(remaining, a) == 0 && a !in launched
  }

  /** The body of the outer loop of `buildGraph`: record one action's
      same-package edges. */
  method AddEdges(g: Graph, act: Action, remaining: map<Action, int>, dependents: map<Action, seq<Action>>)
    returns (remaining': map<Action, int>, dependents': map<Action, seq<Action>>)
    requires g.Valid() && act in g.actions
    requires CountOf(remaining, act) == 0 && forall d :: Occurs(dependents, d, act) == 0
    ensures CountOf(remaining', act) == |g.Edges(act)|
    ensures forall a :: a != act ==> CountOf(remaining', a) == CountOf(remaining, a)
    ensures forall d, a :: Occurs(dependents', d, a) ==
                           if a == act then multiset(g.Edges(act))[d] else Occurs(dependents, d, a)
  {
    assert g.Within([], g.nodes[act].pkg) == [];
    hide CountOf, Occurs, Graph.Within;
    remaining', dependents' := remaining, dependents;
    var deps, pkg := g.nodes[act].deps, g.nodes[act].pkg;
    ghost var kept: seq<Action> := [];
    assert deps[..0] == [];
    for k := 0 to |deps|
      invariant kept == g.Within(deps[..k], pkg)
      invariant CountOf(remaining', act) == |kept|
      invariant forall a :: a != act ==> CountOf(remaining', a) == CountOf(remaining, a)
      invariant forall d, a ::
          Occurs(dependents', d, a) == if a == act then multiset(kept)[d] else Occurs(dependents, d, a)
    {
      WithinStep(g, deps, pkg, k);
      if g.nodes[deps[k]].pkg != pkg {
        continue;
      }
      kept := kept + [deps[k]];
      remaining', dependents' := CountEdge(remaining', dependents', act, deps[k]);
    }
    assert deps[..|deps|] == deps;
  }

  lemma WithinStep(g: Graph, deps: seq<Action>, pkg: nat, k: nat)
    requires k < |deps| && forall d :: d in deps ==> d in g.nodes
    ensures g.Within(deps[..k + 1], pkg) ==
            g.Within(deps[..k], pkg) + if g.nodes[deps[k]].pkg == pkg then [deps[k]] else []
  {
    assert deps[..k + 1][..k] == deps[..k];
  }

  method CountEdge(remaining: map<Action, int>, dependents: map<Action, seq<Action>>, act: Action, dep: Action)
    returns (remaining': map<Action, int>, dependents': map<Action, seq<Action>>)
    ensures forall a :: CountOf(remaining', a) == CountOf(remaining, a) + if a == act then 1 else 0
    ensures forall d, a :: Occurs(dependents', d, a) ==
                           Occurs(dependents, d, a) + if d == dep && a == act then 1 else 0
  {
    remaining' := remaining[act := CountOf(remaining, act) + 1];
    dependents' := dependents[dep := ListOf(dependents, dep) + [act]];
  }

  /** What `buildGraph` has established for the actions `from`. */
  ghost predicate Built(edges: Edges, remaining: map<Action, int>, dependents: map<Action, seq<Action>>,
                        ready: seq<Action>, from: set<Action>)
  {
    && from <= edges.Keys
    && Reversed(edges, dependents, from)
    && (forall a :: CountOf(remaining, a) == if a in from then |edges[a]| else 0)
    && Distinct(ready)
    && (forall a :: a in ready <==> a in from && CountOf(remaining, a) == 0)
  }

  method BuildGraph(g: Graph)
    returns (remaining: map<Action, int>, dependents: map<Action, seq<Action>>, ready: seq<Action>)
    requires g.Valid()
    ensures Reversed(EdgesOf(g), dependents, g.ActionSet())
    ensures Counted(EdgesOf(g), remaining, {})
    ensures ReadyOk(EdgesOf(g), remaining, ready, {})
  {
    remaining, dependents, ready := map[], map[], [];
    ghost var edges := EdgesOf(g);
    ghost var from: set<Action> := {};
    for i := 0 to |g.actions|
      invariant forall a :: a in from <==> a in g.actions[..i]
      invariant Built(edges, remaining, dependents, ready, from)
    {
      remaining, dependents, ready := BuildOne(g, g.actions[i], remaining, dependents, ready, edges, from);
      from := from + {g.actions[i]};
    }
    assert from == g.ActionSet();
    AllOpen(edges, remaining);
  }

  method BuildOne(g: Graph, act: Action, remaining: map<Action, int>, dependents: map<Action, seq<Action>>,
                  ready: seq<Action>, ghost edges: Edges, ghost from: set<Action>)
    returns (remaining': map<Action, int>, dependents': map<Action, seq<Action>>, ready': seq<Action>)
    requires g.Valid() && act in g.actions && edges == EdgesOf(g) && act !in from
    requires Built(edges, remaining, dependents, ready, from)
    ensures Built(edges, remaining', dependents', ready', from + {act})
  {
    remaining', dependents' := AddEdges(g, act, remaining, dependents);
    ready' := if CountOf(remaining', act) == 0 then ready + [act] else ready;
    BuiltStep(edges, act, remaining, dependents, ready, from, remaining', dependents', ready');
  }

  lemma BuiltStep(edges: Edges, act: Action, remaining: map<Action, int>, dependents: map<Action, seq<Action>>,
                  ready: seq<Action>, from: set<Action>,
                  remaining': map<Action, int>, dependents': map<Action, seq<Action>>, ready': seq<Action>)
    requires Built(edges, remaining, dependents, ready, from) && act in edges && act !in from
    requires CountOf(remaining', act) == |edges[act]|
    requires forall a :: a != act ==> CountOf(remaining', a) == CountOf(remaining, a)
    requires forall d, a :: Occurs(dependents', d, a) ==
                            if a == act then multiset(edges[act])[d] else Occurs(dependents, d, a)
    requires ready' == if CountOf(remaining', act) == 0 then ready + [act] else ready
    ensures Built(edges, remaining', dependents', ready', from + {act})
  {
  }

  lemma AllOpen(edges: Edges, remaining: map<Action, int>)
    requires forall a :: CountOf(remaining, a) == if a in edges then |edges[a]| else 0
    ensures Counted(edges, remaining, {})
  {
    forall a | a in edges
      ensures CountOf(remaining, a) == Open(edges[a], {})
    {
      OpenZero(edges[a], {});
    }
  }

  /** The counters while the dependents in `pending` still have to be
      decremented for actions in `done`. */
  ghost predicate Owing(edges: Edges, remaining: map<Action, int>, done: set<Action>, pending: seq<Action>) {
    forall a :: CountOf(remaining, a) == if a in edges then Open(edges[a], done) + multiset(pending)[a] else 0
  }

  /** The loop of `complete`: decrement every dependent of `act` and queue
      those whose count reaches zero. */
  method Propagate(dependents: map<Action, seq<Action>>, act: Action, remaining: map<Action, int>, ready: seq<Action>,
                   ghost edges: Edges, ghost done: set<Action>, ghost launched: set<Action>)
    returns (remaining': map<Action, int>, ready': seq<Action>)
    requires Reversed(edges, dependents, edges.Keys)
    requires Counted(edges, remaining, done) && ReadyOk(edges, remaining, ready, launched)
    requires act !in done
    requires forall a :: a in launched ==> a in edges && CountOf(remaining, a) == 0
    ensures Counted(edges, remaining', done + {act})
    ensures ReadyOk(edges, remaining', ready', launched)
  {
    remaining', ready' := remaining, ready;
    var list := ListOf(dependents, act);
    ghost var after := done + {act};
    Owed(edges, dependents, remaining, done, act);
    assert list[0..] == list;
    for i := 0 to |list|
      invariant Owing(edges, remaining', after, list[i..])
      invariant ReadyOk(edges, remaining', ready', launched)
      invariant forall a :: a in launched ==> CountOf(remaining', a) == 0
    {
      assert list[i..][0] == list[i] && list[i..][1..] == list[i + 1..];
      assert Occurs(dependents, act, list[i]) > 0;
      remaining', ready' := Decrement(list[i..], remaining', ready', edges, after, launched);
    }
  }

  method Decrement(list: seq<Action>, remaining: map<Action, int>, ready: seq<Action>,
                   ghost edges: Edges, ghost after: set<Action>, ghost launched: set<Action>)
    returns (remaining': map<Action, int>, ready': seq<Action>)
    requires list != [] && list[0] in edges && Owing(edges, remaining, after, list)
    requires ReadyOk(edges, remaining, ready, launched)
    requires forall a :: a in launched ==> a in edges && CountOf(remaining, a) == 0
    ensures Owing(edges, remaining', after, list[1..]) && ReadyOk(edges, remaining', ready', launched)
    ensures forall a :: a in launched ==> CountOf(remaining', a) == 0
  {
    var dependent := list[0];
    assert list == [dependent] + list[1..];
    assert CountOf(remaining, dependent) > 0;
    remaining' := remaining[dependent := CountOf(remaining, dependent) - 1];
    ready' := if CountOf(remaining', dependent) != 0 then ready else ready + [dependent];
  }

  lemma Owed(edges: Edges, dependents: map<Action, seq<Action>>, remaining: map<Action, int>,
             done: set<Action>, act: Action)
    requires Reversed(edges, dependents, edges.Keys) && Counted(edges, remaining, done) && act !in done
    ensures Owing(edges, remaining, done + {act}, ListOf(dependents, act))
  {
    forall a | a in edges
      ensures CountOf(remaining, a) == Open(edges[a], done + {act}) + multiset(ListOf(dependents, act))[a]
    {
      OpenDrops(edges[a], done, act);
      assert Occurs(dependents, act, a) == multiset(edges[a])[act];
    }
  }

  // ----- The result channel

  datatype ActionResult = ActionResult(action: Action, err: Option<Error>)

  ghost function Sent(ch: seq<ActionResult>): set<Action> {
    if ch == [] then {} else {ch[0].action} + Sent(ch[1..])
  }

  lemma {:induction false} SentSnoc(ch: seq<ActionResult>, r: ActionResult)
    ensures Sent(ch + [r]) == Sent(ch) + {r.action}
  {
    if ch != [] {
      SentSnoc(ch[1..], r);
      assert (ch + [r])[1..] == ch[1..] + [r];
    }
  }

  /** Where the launched actions are: in a worker, in the channel, taken off
      the channel but not yet recorded (`held`), or completed. The sizes add
      up, so no action is in two places. */
  ghost predicate Located(launched: set<Action>, inWorkers: set<Action>, ch: seq<ActionResult>,
                          held: set<Action>, finished: set<Action>)
  {
    && launched == inWorkers + Sent(ch) + held + finished
    && |launched| == |inWorkers| + |ch| + |held| + |finished|
  }

  lemma SentAtMost(ch: seq<ActionResult>)
    ensures |Sent(ch)| <= |ch|
  {
  }

  lemma UnionAtMost<T>(s: set<T>, t: set<T>)
    ensures |s + t| <= |s| + |t|
    ensures |s + t| == |s| + |t| ==> s !! t
  {
    assert |s + t| == |s| + |t| - |s * t|;
    if |s + t| == |s| + |t| {
      assert s * t == {};
      assert forall x :: x in s && x in t ==> x in s * t;
    }
  }

  lemma LocatedApart(launched: set<Action>, inWorkers: set<Action>, ch: seq<ActionResult>,
                     held: set<Action>, finished: set<Action>)
    requires Located(launched, inWorkers, ch, held, finished)
    ensures inWorkers !! Sent(ch) && held !! finished && (inWorkers + Sent(ch)) !! (held + finished)
  {
    SentAtMost(ch);
    UnionAtMost(inWorkers, Sent(ch));
    UnionAtMost(held, finished);
    UnionAtMost(inWorkers + Sent(ch), held + finished);
    assert launched == (inWorkers + Sent(ch)) + (held + finished);
  }

  lemma LaunchLocated(launched: set<Action>, inWorkers: set<Action>, ch: seq<ActionResult>,
                      finished: set<Action>, a: Action)
    requires Located(launched, inWorkers, ch, {}, finished) && a !in launched
    ensures Located(launched + {a}, inWorkers + {a}, ch, {}, finished)
  {
  }

  lemma SendLocated(launched: set<Action>, inWorkers: set<Action>, ch: seq<ActionResult>,
                    finished: set<Action>, r: ActionResult)
    requires Located(launched, inWorkers, ch, {}, finished) && r.action in inWorkers
    ensures Located(launched, inWorkers - {r.action}, ch + [r], {}, finished)
  {
    SentSnoc(ch, r);
  }

  lemma ReceiveLocated(launched: set<Action>, inWorkers: set<Action>, ch: seq<ActionResult>, finished: set<Action>)
    requires Located(launched, inWorkers, ch, {}, finished) && ch != []
    ensures Located(launched, inWorkers, ch[1..], {ch[0].action}, finished)
  {
  }

  lemma FinishLocated(launched: set<Action>, inWorkers: set<Action>, ch: seq<ActionResult>,
                      finished: set<Action>, a: Action)
    requires Located(launched, inWorkers, ch, {a}, finished)
    ensures a in launched && a !in finished
    ensures Located(launched, inWorkers, ch, {}, finished + {a})
  {
    LocatedApart(launched, inWorkers, ch, {a}, finished);
  }

  // ----- The executor's state and what each step keeps

  /** The executor's fields. `inWorkers` are the actions accepted by a worker
      whose result is not yet sent, `held` those taken off the channel but not
      yet recorded, `propagated` the completions whose dependents were
      decremented. */
  datatype View = View(
    g: Graph, remaining: map<Action, int>, dependents: map<Action, seq<Action>>, ready: seq<Action>,
    ch: seq<ActionResult>, inWorkers: set<Action>, held: set<Action>,
    firstErr: Option<Error>, running: nat, completed: nat, ctxErr: bool, stopCalled: bool,
    trace: seq<Event>, propagated: set<Action>)

  ghost predicate GraphOk(v: View) {
    match v
    case View(g, remaining, dependents, ready, _, _, _, _, _, _, _, _, trace, propagated) =>
      && g.Valid()
      && Reversed(EdgesOf(g), dependents, g.ActionSet())
      && Counted(EdgesOf(g), remaining, propagated)
      && ReadyOk(EdgesOf(g), remaining, ready, LaunchedIn(trace))
  }

  ghost predicate ChannelOk(v: View) {
    match v
    case View(_, _, _, _, ch, inWorkers, held, _, running, completed, _, _, trace, _) =>
      && Located(LaunchedIn(trace), inWorkers, ch, held, CompletedIn(trace))
      && running == |inWorkers| + |ch| + |held|
      && completed == |CompletedIn(trace)|
  }

  ghost predicate HistoryOk(v: View) {
    match v
    case View(g, _, _, _, _, _, _, firstErr, _, _, ctxErr, stopCalled, trace, propagated) =>
      && g.Valid()
      && TraceSafe(g, trace)
      && propagated <= SucceededIn(trace)
      && (!ctxErr && !stopCalled ==> propagated == CompletedIn(trace))
      && firstErr == FirstError(trace)
      && (firstErr.Some? <==> stopCalled)
  }

  ghost predicate Inv(v: View) {
    GraphOk(v) && ChannelOk(v) && HistoryOk(v)
  }

  lemma CancelStep(v: View)
    requires Inv(v)
    ensures Inv(v.(ctxErr := true))
  {
  }

  lemma SendStep(v: View, r: ActionResult)
    requires Inv(v) && r.action in v.inWorkers && v.held == {}
    ensures |v.ch| < |v.g.actions|
    ensures Inv(v.(inWorkers := v.inWorkers - {r.action}, ch := v.ch + [r]))
  {
    ChannelHasRoom(v.g, v.trace, v.inWorkers, v.ch);
    SendLocated(LaunchedIn(v.trace), v.inWorkers, v.ch, CompletedIn(v.trace), r);
  }

  ghost function Launched(v: View): View
    requires v.ready != []
  {
    v.(ready := v.ready[1..], running := v.running + 1, inWorkers := v.inWorkers + {v.ready[0]},
       trace := v.trace + [Launch(v.ready[0])])
  }

  lemma LaunchKeepsGraph(v: View)
    requires GraphOk(v) && v.ready != []
    ensures GraphOk(Launched(v))
  {
    EventsExtend(v.trace, Launch(v.ready[0]));
    ReadyTail(EdgesOf(v.g), v.remaining, v.ready, LaunchedIn(v.trace));
  }

  lemma LaunchKeepsChannel(v: View)
    requires ChannelOk(v) && v.ready != [] && v.ready[0] !in LaunchedIn(v.trace) && v.held == {}
    ensures ChannelOk(Launched(v))
  {
    EventsExtend(v.trace, Launch(v.ready[0]));
    LaunchLocated(LaunchedIn(v.trace), v.inWorkers, v.ch, CompletedIn(v.trace), v.ready[0]);
  }

  lemma LaunchKeepsHistory(v: View)
    requires HistoryOk(v) && v.ready != [] && StepSafe(v.g, v.trace, Launch(v.ready[0]))
    ensures HistoryOk(Launched(v))
  {
    TraceExtends(v.g, v.trace, Launch(v.ready[0]));
    EventsExtend(v.trace, Launch(v.ready[0]));
  }

  lemma LaunchStep(v: View)
    requires Inv(v) && v.ready != [] && v.firstErr.None? && v.held == {}
    ensures Inv(Launched(v))
  {
    ReadyIsSafe(v.g, v.remaining, v.ready, v.trace, v.propagated);
    LaunchKeepsGraph(v);
    LaunchKeepsChannel(v);
    LaunchKeepsHistory(v);
  }

  lemma ReceiveStep(v: View)
    requires Inv(v) && v.ch != [] && v.held == {}
    ensures Inv(v.(ch := v.ch[1..], held := {v.ch[0].action}))
  {
    ReceiveLocated(LaunchedIn(v.trace), v.inWorkers, v.ch, CompletedIn(v.trace));
  }

  /** The state after `complete` has recorded a result and, on an error,
      stopped the executor's own context. */
  ghost function Finished(v: View, r: ActionResult): View
    requires v.running > 0
  {
    var first := r.err.Some? && v.firstErr.None?;
    v.(running := v.running - 1, completed := v.completed + 1, held := {},
       firstErr := if first then r.err else v.firstErr, stopCalled := v.stopCalled || first,
       trace := v.trace + [Finish(r.action, r.err)])
  }

  /** If the context is done by then, `complete` is over. */
  lemma FinishStep(v: View, r: ActionResult)
    requires Inv(v) && v.held == {r.action}
    ensures v.running > 0
    ensures var w := Finished(v, r); (v.ctxErr || w.stopCalled) ==> Inv(w)
  {
    hide LaunchedIn, CompletedIn, SucceededIn, FirstError, TraceSafe, Located, Graph.Valid, Counted;
    FinishLocated(LaunchedIn(v.trace), v.inWorkers, v.ch, CompletedIn(v.trace), r.action);
    TraceExtends(v.g, v.trace, Finish(r.action, r.err));
    EventsExtend(v.trace, Finish(r.action, r.err));
  }

  /** Otherwise it goes on to its dependents, and `Propagate` applies. */
  lemma PropagateStep(v: View, r: ActionResult, remaining': map<Action, int>, ready': seq<Action>)
    requires Inv(v) && v.held == {r.action} && v.running > 0
    requires !v.ctxErr && !Finished(v, r).stopCalled
    requires Counted(EdgesOf(v.g), remaining', v.propagated + {r.action})
    requires ReadyOk(EdgesOf(v.g), remaining', ready', LaunchedIn(v.trace))
    ensures Inv(Finished(v, r).(remaining := remaining', ready := ready', propagated := v.propagated + {r.action}))
  {
    hide LaunchedIn, CompletedIn, SucceededIn, FirstError, TraceSafe, Located, Graph.Valid, Counted;
    FinishLocated(LaunchedIn(v.trace), v.inWorkers, v.ch, CompletedIn(v.trace), r.action);
    TraceExtends(v.g, v.trace, Finish(r.action, r.err));
    EventsExtend(v.trace, Finish(r.action, r.err));
  }

  lemma PropagateEnabled(v: View, r: ActionResult)
    requires Inv(v) && v.held == {r.action} && !v.ctxErr && !v.stopCalled
    ensures v.g.Valid() && r.action !in v.propagated
    ensures EdgesOf(v.g).Keys == v.g.ActionSet() && Reversed(EdgesOf(v.g), v.dependents, EdgesOf(v.g).Keys)
    ensures Counted(EdgesOf(v.g), v.remaining, v.propagated)
    ensures ReadyOk(EdgesOf(v.g), v.remaining, v.ready, LaunchedIn(v.trace))
    ensures forall a :: a in LaunchedIn(v.trace) ==> a in EdgesOf(v.g) && CountOf(v.remaining, a) == 0
  {
    hide LaunchedIn, CompletedIn, SucceededIn, FirstError, TraceSafe, Located, Graph.Valid, Counted;
    FinishLocated(LaunchedIn(v.trace), v.inWorkers, v.ch, CompletedIn(v.trace), r.action);
    CompletedAreSchedulable(v.g, v.trace);
    LaunchedHaveNoOpenEdge(v.g, v.remaining, v.trace, v.propagated);
  }

  /** While a worker still holds an action, the result channel is not full. */
  lemma ChannelHasRoom(g: Graph, tr: seq<Event>, inWorkers: set<Action>, ch: seq<ActionResult>)
    requires g.Valid() && TraceSafe(g, tr) && inWorkers != {}
    requires Located(LaunchedIn(tr), inWorkers, ch, {}, CompletedIn(tr))
    ensures |ch| < |g.actions|
  {
    CompletedAreSchedulable(g, tr);
    LayerGrows(g, |g.actions|);
    ActionCount(g, LaunchedIn(tr));
  }

  /** A queued action may be launched as long as no error was seen. */
  lemma ReadyIsSafe(g: Graph, remaining: map<Action, int>, ready: seq<Action>, tr: seq<Event>, propagated: set<Action>)
    requires g.Valid() && ready != [] && FirstError(tr).None?
    requires Counted(EdgesOf(g), remaining, propagated) && ReadyOk(EdgesOf(g), remaining, ready, LaunchedIn(tr))
    requires propagated <= SucceededIn(tr)
    ensures StepSafe(g, tr, Launch(ready[0]))
  {
    assert ready[0] in ready;
    OpenZero(g.Edges(ready[0]), propagated);
  }

  lemma ReadyTail(edges: Edges, remaining: map<Action, int>, ready: seq<Action>, launched: set<Action>)
    requires ready != [] && ReadyOk(edges, remaining, ready, launched)
    ensures ReadyOk(edges, remaining, ready[1..], launched + {ready[0]})
  {
    assert ready == [ready[0]] + ready[1..];
  }

  /** Launched actions had all their edges accounted for. */
  lemma LaunchedHaveNoOpenEdge(g: Graph, remaining: map<Action, int>, tr: seq<Event>, propagated: set<Action>)
    requires g.Valid() && Counted(EdgesOf(g), remaining, propagated) && TraceSafe(g, tr)
    requires SucceededIn(tr) <= propagated
    ensures forall a :: a in LaunchedIn(tr) ==> a in EdgesOf(g) && CountOf(remaining, a) == 0
  {
    forall a | a in LaunchedIn(tr)
      ensures a in EdgesOf(g) && CountOf(remaining, a) == 0
    {
      LaunchedAfterDeps(g, tr, a);
      OpenZero(g.Edges(a), propagated);
    }
  }

  lemma {:induction false} LaunchedAfterDeps(g: Graph, tr: seq<Event>, a: Action)
    requires g.Valid() && TraceSafe(g, tr) && a in LaunchedIn(tr)
    ensures a in g.actions && forall d :: d in g.Edges(a) ==> d in SucceededIn(tr)
  {
    var init, last := tr[..|tr| - 1], tr[|tr| - 1];
    TracePrefixSafe(g, tr, |tr| - 1);
    assert StepSafe(g, init, last);
    if a in LaunchedIn(init) {
      LaunchedAfterDeps(g, init, a);
    }
  }

  // ----- What comes from outside

  /** The caller had cancelled when the executor looked after `at` events, and
      from then on at most one more action was launched. */
  ghost predicate CancelledAt(cancel: (nat, nat) -> bool, trace: seq<Event>, at: nat) {
    at <= |trace| && (exists k: nat :: cancel(at, k)) && Launches(trace, at) <= 1
  }

  /** How many of the events from `at` on are launches. */
  ghost function Launches(trace: seq<Event>, at: nat): nat
    requires at <= |trace|
  {
    if at == |trace| then 0
    else Launches(trace[..|trace| - 1], at) + if trace[|trace| - 1].Launch? then 1 else 0
  }

  lemma LaunchesNext(trace: seq<Event>, at: nat, e: Event)
    requires at <= |trace|
    ensures Launches(trace + [e], at) == Launches(trace, at) + if e.Launch? then 1 else 0
  {
    assert (trace + [e])[..|trace|] == trace;
  }

  /** Results in the channel and in the history are those of the actions, and
      the context is cancelled only by the caller. */
  ghost predicate Genuine(execute: Action -> Option<Error>, cancel: (nat, nat) -> bool, ch: seq<ActionResult>,
                          trace: seq<Event>, ctxErr: bool, at: nat)
  {
    && (forall i :: 0 <= i < |ch| ==> ch[i].err == execute(ch[i].action))
    && (forall i :: 0 <= i < |trace| && trace[i].Finish? ==> trace[i].err == execute(trace[i].action))
    && (ctxErr ==> CancelledAt(cancel, trace, at))
  }

  lemma GenuineSend(execute: Action -> Option<Error>, cancel: (nat, nat) -> bool, ch: seq<ActionResult>,
                    trace: seq<Event>, ctxErr: bool, at: nat, a: Action)
    requires Genuine(execute, cancel, ch, trace, ctxErr, at)
    ensures Genuine(execute, cancel, ch + [ActionResult(a, execute(a))], trace, ctxErr, at)
  {
  }

  lemma GenuineReceive(execute: Action -> Option<Error>, cancel: (nat, nat) -> bool, ch: seq<ActionResult>,
                       trace: seq<Event>, ctxErr: bool, at: nat)
    requires Genuine(execute, cancel, ch, trace, ctxErr, at) && ch != []
    ensures ch[0].err == execute(ch[0].action) && Genuine(execute, cancel, ch[1..], trace, ctxErr, at)
  {
  }

  lemma GenuineEvent(execute: Action -> Option<Error>, cancel: (nat, nat) -> bool, ch: seq<ActionResult>,
                     trace: seq<Event>, ctxErr: bool, at: nat, e: Event)
    requires Genuine(execute, cancel, ch, trace, ctxErr, at) && (e.Finish? ==> e.err == execute(e.action))
    requires ctxErr && e.Launch? ==> at == |trace|
    ensures Genuine(execute, cancel, ch, trace + [e], ctxErr, at)
  {
    if ctxErr {
      LaunchesNext(trace, at, e);
    }
  }

  lemma GenuineCancel(execute: Action -> Option<Error>, cancel: (nat, nat) -> bool, ch: seq<ActionResult>,
                      trace: seq<Event>, k: nat, at: nat)
    requires Genuine(execute, cancel, ch, trace, false, at)
    ensures Genuine(execute, cancel, ch, trace, cancel(|trace|, k), |trace|)
  {
  }

  /** The first failing completion of the history, in terms of the actions. */
  ghost predicate FirstFailure(execute: Action -> Option<Error>, tr: seq<Event>, err: Error) {
    exists i :: 0 <= i < |tr| && FailsFirstAt(execute, tr, i) && execute(tr[i].action) == Some(err)
  }

  ghost predicate FailsFirstAt(execute: Action -> Option<Error>, tr: seq<Event>, i: nat)
    requires i < |tr|
  {
    && tr[i].Finish? && execute(tr[i].action).Some?
    && forall j :: 0 <= j < i && tr[j].Finish? ==> execute(tr[j].action).None?
  }

  /** The first error of a genuine history is that of the first completed
      action that fails. */
  lemma FirstErrorIsGenuine(execute: Action -> Option<Error>, tr: seq<Event>)
    requires forall i :: 0 <= i < |tr| && tr[i].Finish? ==> tr[i].err == execute(tr[i].action)
    ensures FirstError(tr).Some? ==> FirstFailure(execute, tr, FirstError(tr).value)
    ensures FirstError(tr).Some? <==> exists a :: a in CompletedIn(tr) && execute(a).Some?
  {
    FirstErrorMeans(tr);
    if FirstError(tr).Some? {
      var i :| 0 <= i < |tr| && tr[i].Finish? && tr[i].err == FirstError(tr)
               && forall j :: 0 <= j < i && tr[j].Finish? ==> tr[j].err.None?;
      assert FailsFirstAt(execute, tr, i);
      CompletedMeans(tr, tr[i].action);
    } else {
      forall a | a in CompletedIn(tr)
        ensures execute(a).None?
      {
        CompletedMeans(tr, a);
      }
    }
  }

  // ----- The executor

  datatype RunResult = Done | Failed(err: Error) | Unschedulable(left: int)

  /** `execute` gives the outcome of each action, and `cancel` says whether the
      caller has cancelled when the executor looks, by the number of events so
      far and the number of looks. Which worker is fast and which case of a
      `select` is taken is left open. */
  class Executor {
    const g: Graph
    const execute: Action -> Option<Error>
    const cancel: (nat, nat) -> bool
    var remainingDeps: map<Action, int>
    var dependents: map<Action, seq<Action>>
    var ready: seq<Action>
    var completedCh: seq<ActionResult>  // buffered, capacity |g.actions|
    var inWorkers: set<Action>
    var firstErr: Option<Error>
    var running: nat
    var completed: nat
    var stopped: bool
    var ctxErr: bool                    // the caller's context is cancelled
    var stopCalled: bool                // this executor cancelled its own context
    var looks: nat
    var trace: seq<Event>
    ghost var held: set<Action>
    ghost var cancelAt: nat  // the number of events when the cancellation was seen
    ghost var propagated: set<Action>

    ghost function Abstract(): View
      reads this
    {
      View(g, remainingDeps, dependents, ready, completedCh, inWorkers, held, firstErr, running, completed,
           ctxErr, stopCalled, trace, propagated)
    }

    ghost predicate Valid()
      reads this
    {
      Sound() && held == {}
    }

    ghost predicate Sound()
      reads this
    {
      Inv(Abstract()) && Genuine(execute, cancel, completedCh, trace, ctxErr, cancelAt)
    }

    predicate RunCtxErr()
      reads this
    {
      ctxErr || stopCalled
    }

    constructor (g: Graph, execute: Action -> Option<Error>, cancel: (nat, nat) -> bool)
      requires g.Valid()
      ensures this.g == g && this.execute == execute && this.cancel == cancel
      ensures Valid() && trace == [] && !stopped
    {
      this.g, this.execute, this.cancel, looks := g, execute, cancel, 0;
      var remaining, reversed, first := BuildGraph(g);
      remainingDeps, dependents, ready := remaining, reversed, first;
      completedCh, inWorkers := [], {};
      firstErr, running, completed := None, 0, 0;
      stopped, ctxErr, stopCalled := false, false, false;
      held, trace, propagated, cancelAt := {}, [], {}, 0;
    }

    // ----- What other goroutines may do at any moment

    /** The caller may have cancelled its context by now. */
    method MayCancel()
      requires Sound()
      modifies `ctxErr, `looks, `cancelAt
      ensures Sound() && (old(ctxErr) ==> ctxErr) && (ctxErr && !old(ctxErr) ==> cancelAt == |trace|)
    {
      hide Inv, Genuine;
      CancelStep(Abstract());
      if !ctxErr {
        GenuineCancel(execute, cancel, completedCh, trace, looks, cancelAt);
        cancelAt := |trace|;
      }
      ctxErr := ctxErr || cancel(|trace|, looks);
      looks := looks + 1;
    }

    /** A worker finishes its action and sends the result. The send never
        blocks, because the channel has room. */
    method WorkerSends()
      requires Valid() && inWorkers != {}
      modifies `completedCh, `inWorkers
      ensures |old(completedCh)| < |g.actions|
      ensures Valid() && inWorkers < old(inWorkers) && completedCh != []
    {
      hide Inv, Genuine;
      var act :| act in inWorkers;
      SendStep(Abstract(), ActionResult(act, execute(act)));
      GenuineSend(execute, cancel, completedCh, trace, ctxErr, cancelAt, act);
      inWorkers := inWorkers - {act};
      completedCh := completedCh + [ActionResult(act, execute(act))];
    }

    /** Any number of workers finish and the caller may cancel. */
    method Environment()
      requires Valid()
      modifies `completedCh, `inWorkers, `ctxErr, `looks, `cancelAt
      ensures Valid() && (old(ctxErr) ==> ctxErr) && (ctxErr && !old(ctxErr) ==> cancelAt == |trace|)
    {
      hide Inv, Genuine;
      MayCancel();
      var more: bool := *;
      while more && inWorkers != {}
        invariant Valid() && (old(ctxErr) ==> ctxErr) && (ctxErr && !old(ctxErr) ==> cancelAt == |trace|)
        decreases inWorkers
      {
        WorkerSends();
        more := *;
      }
    }

    // ----- The executor's own steps

    /** Hand the first ready action to a worker. */
    method LaunchFirst()
      requires Valid() && ready != [] && firstErr.None? && (ctxErr ==> cancelAt == |trace|)
      modifies `ready, `inWorkers, `running, `trace
      ensures Valid() && trace == old(trace) + [Launch(old(ready)[0])]
    {
      hide Inv, Genuine;
      LaunchStep(Abstract());
      GenuineEvent(execute, cancel, completedCh, trace, ctxErr, cancelAt, Launch(ready[0]));
      trace := trace + [Launch(ready[0])];
      inWorkers := inWorkers + {ready[0]};
      ready, running := ready[1..], running + 1;
    }

    /** Take a result off the channel. */
    method Receive() returns (result: ActionResult)
      requires Valid() && completedCh != []
      modifies `completedCh, `held
      ensures Sound() && held == {result.action}
      ensures [result] + completedCh == old(completedCh) && result.err == execute(result.action)
    {
      hide Inv, Genuine;
      ReceiveStep(Abstract());
      GenuineReceive(execute, cancel, completedCh, trace, ctxErr, cancelAt);
      result := completedCh[0];
      completedCh := completedCh[1..];
      held := {result.action};
    }

    /** The counters, the first error and the event of a result. */
    method Record(result: ActionResult)
      requires Inv(Abstract()) && held == {result.action}
      modifies `held, `firstErr, `running, `completed, `stopCalled, `trace
      ensures old(Abstract()).running > 0 && Abstract() == Finished(old(Abstract()), result)
      ensures RunCtxErr() ==> Inv(Abstract())
    {
      hide Inv, TraceSafe, LaunchedIn, CompletedIn, Graph.Valid;
      FinishStep(Abstract(), result);
      held, running, completed := {}, running - 1, completed + 1;
      trace := trace + [Finish(result.action, result.err)];
      if result.err.Some? && firstErr.None? {
        firstErr := result.err;
        stopCalled := true;
      }
    }

    method Complete(result: ActionResult)
      requires Sound() && held == {result.action} && result.err == execute(result.action)
      modifies `remainingDeps, `ready, `held, `firstErr, `running, `completed,
               `ctxErr, `looks, `cancelAt, `stopCalled, `trace, `propagated
      ensures Valid() && (old(ctxErr) ==> ctxErr) && (old(firstErr).Some? ==> firstErr.Some?)
      ensures trace == old(trace) + [Finish(result.action, result.err)]
    {
      hide Inv, Counted, ReadyOk, LaunchedIn, CompletedIn, TraceSafe, Genuine;
      MayCancel();  // may happen at any point up to the check below
      ghost var before := Abstract();
      GenuineEvent(execute, cancel, completedCh, trace, ctxErr, cancelAt, Finish(result.action, result.err));
      Record(result);
      if RunCtxErr() {
        return;
      }
      remainingDeps, ready := PropagateFrom(result, before, dependents, remainingDeps, ready);
      PropagateStep(before, result, remainingDeps, ready);
      propagated := propagated + {result.action};
    }

    /** The parts of the invariant the loops below rely on. */
    lemma Facts()
      requires Valid()
      ensures g.Valid() && TraceSafe(g, trace)
      ensures firstErr == FirstError(trace) && (RunCtxErr() <==> ctxErr || firstErr.Some?)
      ensures |trace| <= 2 * |g.actions|
      ensures running == |inWorkers| + |completedCh|
      ensures running == 0 ==> LaunchedIn(trace) == CompletedIn(trace)
      ensures Genuine(execute, cancel, completedCh, trace, ctxErr, cancelAt)
    {
      InvFacts(Abstract());
      if running == 0 {
        NothingInFlight(Abstract());
      }
    }

    method SetStopped()
      requires Valid() && RunCtxErr()
      modifies `stopped
      ensures Valid() && stopped && RunCtxErr()
    {
      hide Inv, Genuine;
      stopped := true;
    }

    /** One turn of the `select`: a worker accepts the first ready action, or a
        result is taken, or the context is done. */
    method Select()
      requires Valid() && ready != [] && !RunCtxErr()
      modifies this
      ensures Valid() && (old(ctxErr) ==> ctxErr)
      ensures stopped ==> old(stopped) || RunCtxErr()
      ensures |trace| > |old(trace)| || (trace == old(trace) && stopped)
    {
      hide *;
      Facts();
      Environment();
      Facts();
      if {
        case true =>
          LaunchFirst();
        case completedCh != [] =>
          var result := Receive();
          Complete(result);
        case RunCtxErr() =>
          SetStopped();
      }
    }

    /** Launch queued actions until none is left or the context is done,
        taking results that arrive meanwhile. */
    method LaunchReady()
      requires Valid() && (stopped ==> RunCtxErr())
      modifies this
      ensures Valid() && (stopped ==> RunCtxErr())
      ensures stopped || ready == []
      ensures |trace| >= |old(trace)|
    {
      hide *;
      while !stopped && ready != []
        invariant Valid() && (stopped ==> RunCtxErr())
        invariant |trace| >= |old(trace)|
        decreases 2 * |g.actions| - |trace|, if stopped then 0 else 1
      {
        Environment();
        if RunCtxErr() {
          SetStopped();
          return;
        }
        Select();
        Facts();
      }
    }

    method Run() returns (r: RunResult, flagged: Option<Action>)
      requires Valid() && trace == [] && !stopped
      modifies this
      ensures g.Valid() && TraceSafe(g, trace)
      ensures LaunchedIn(trace) == CompletedIn(trace)
      ensures Genuine(execute, cancel, completedCh, trace, ctxErr, cancelAt)
      ensures FirstError(trace).Some? ==> r == Failed(FirstError(trace).value)
      ensures FirstError(trace).None? && ctxErr ==> r == Done
      ensures FirstError(trace).None? && !ctxErr ==> Settled(g, CompletedIn(trace), r, flagged)
    {
      hide *;
      while ready != [] || running > 0
        invariant Valid() && (stopped ==> RunCtxErr())
        decreases 2 * |g.actions| - |trace|
      {
        LaunchReady();
        if running == 0 {
          break;
        }
        AwaitResult();
        if RunCtxErr() {
          SetStopped();
        }
        Facts();
      }
      CancelAtEnd();
      Facts();
      r, flagged := Result();
    }

    /** The context may still be cancelled before the result is made up. */
    method CancelAtEnd()
      requires Valid()
      modifies `ctxErr, `looks, `cancelAt
      ensures Valid() && (old(RunCtxErr()) ==> RunCtxErr())
    {
      hide Inv, Genuine;
      MayCancel();
    }

    /** Wait for a result, which some worker will send, and complete it. */
    method AwaitResult()
      requires Valid() && running > 0 && (stopped ==> RunCtxErr())
      modifies this
      ensures Valid() && (stopped ==> RunCtxErr())
      ensures |trace| > |old(trace)|
    {
      hide *;
      Facts();
      Environment();
      Facts();
      if completedCh == [] {
        WorkerSends();
      }
      var result := Receive();
      Complete(result);
      Facts();
    }

    /** The error to report, and the action marked with it when some actions
        could not be scheduled. */
    method Result() returns (r: RunResult, flagged: Option<Action>)
      requires Valid() && running == 0 && (ready == [] || RunCtxErr())
      ensures g.Valid()
      ensures FirstError(trace).Some? ==> r == Failed(FirstError(trace).value)
      ensures FirstError(trace).None? && ctxErr ==> r == Done
      ensures FirstError(trace).None? && !ctxErr ==> Settled(g, CompletedIn(trace), r, flagged)
    {
      hide Inv, Graph.Valid, Schedulable, TraceSafe, LaunchedIn, CompletedIn, FirstError, Graph.ActionSet;
      Facts();
      flagged := None;
      if firstErr.Some? || ctxErr {
        return if firstErr.Some? then Failed(firstErr.value) else Done, None;
      }
      AtRest(Abstract());
      if completed == |g.actions| {
        return Done, None;
      }
      r := Unschedulable(|g.actions| - completed);
      RestCounts(Abstract());
      ghost var left :| left in g.ActionSet() - CompletedIn(trace);
      assert CountOf(remainingDeps, left) > 0;
      var act :| act in remainingDeps && remainingDeps[act] > 0;
      assert CountOf(remainingDeps, act) > 0;
      flagged := Some(act);
    }
  }

  method PropagateFrom(r: ActionResult, ghost v: View, dependents: map<Action, seq<Action>>,
                       remaining: map<Action, int>, ready: seq<Action>)
    returns (remaining': map<Action, int>, ready': seq<Action>)
    requires Inv(v) && v.held == {r.action} && !v.ctxErr && !v.stopCalled
    requires v.dependents == dependents && v.remaining == remaining && v.ready == ready
    ensures v.g.Valid()
    ensures Counted(EdgesOf(v.g), remaining', v.propagated + {r.action})
    ensures ReadyOk(EdgesOf(v.g), remaining', ready', LaunchedIn(v.trace))
  {
    PropagateEnabled(v, r);
    remaining', ready' := Propagate(dependents, r.action, remaining, ready,
                                    EdgesOf(v.g), v.propagated, LaunchedIn(v.trace));
  }

  /** What an unhindered run ends with: exactly the schedulable actions have
      run, the result is `Done` when these are all actions and otherwise counts
      those left over, and one action that could not run carries the error. */
  ghost predicate Settled(g: Graph, finished: set<Action>, r: RunResult, flagged: Option<Action>)
    requires g.Valid()
  {
    && finished == Schedulable(g)
    && r == (if finished == g.ActionSet() then Done else Unschedulable(|g.ActionSet() - finished|))
    && (r.Unschedulable? ==> flagged.Some? && flagged.value in g.ActionSet() - finished)
  }

  lemma InvFacts(v: View)
    requires Inv(v)
    ensures v.g.Valid() && TraceSafe(v.g, v.trace)
    ensures v.firstErr == FirstError(v.trace) && (v.firstErr.Some? <==> v.stopCalled)
    ensures |v.trace| <= 2 * |v.g.actions|
    ensures v.running == |v.inWorkers| + |v.ch| + |v.held| && v.completed == |CompletedIn(v.trace)|
  {
    TraceLength(v.g, v.trace);
  }

  lemma NothingInFlight(v: View)
    requires Inv(v) && v.running == 0
    ensures LaunchedIn(v.trace) == CompletedIn(v.trace)
  {
  }

  /** When nothing runs and nothing is queued, an action whose dependencies
      are complete is complete, and the others still count open edges. */
  lemma RestIsClosed(v: View, a: Action)
    requires Inv(v) && v.running == 0 && v.ready == [] && !v.ctxErr && !v.stopCalled && a in v.g.actions
    ensures v.g.Valid()
    ensures a in CompletedIn(v.trace) <==> forall d :: d in v.g.Edges(a) ==> d in CompletedIn(v.trace)
    ensures CountOf(v.remaining, a) > 0 <==> a !in CompletedIn(v.trace)
  {
    NothingInFlight(v);
    OpenZero(v.g.Edges(a), v.propagated);
    if a in CompletedIn(v.trace) {
      LaunchedAfterDeps(v.g, v.trace, a);
      CompletedAreSchedulable(v.g, v.trace);
    }
  }

  lemma RestCounts(v: View)
    requires Inv(v) && v.running == 0 && v.ready == [] && !v.ctxErr && !v.stopCalled
    ensures forall a :: CountOf(v.remaining, a) > 0 <==> a in v.g.ActionSet() - CompletedIn(v.trace)
  {
    forall a
      ensures CountOf(v.remaining, a) > 0 <==> a in v.g.ActionSet() - CompletedIn(v.trace)
    {
      if a in v.g.actions {
        RestIsClosed(v, a);
      }
    }
  }

  lemma AtRest(v: View)
    requires Inv(v) && v.running == 0 && v.ready == [] && !v.ctxErr && !v.stopCalled
    ensures v.g.Valid() && CompletedIn(v.trace) == Schedulable(v.g) <= v.g.ActionSet()
    ensures |v.g.ActionSet() - CompletedIn(v.trace)| == |v.g.actions| - v.completed
    ensures v.completed == |v.g.actions| <==> CompletedIn(v.trace) == v.g.ActionSet()
  {
    hide *;
    InvFacts(v);
    var finished := CompletedIn(v.trace);
    assert Schedulable(v.g) <= finished by {
      forall a | a in v.g.actions && forall d :: d in v.g.Edges(a) ==> d in finished
        ensures a in finished
      {
        RestIsClosed(v, a);
      }
      SchedulableIsLeast(v.g, finished);
    }
    CompletedAreSchedulable(v.g, v.trace);
    TraceLength(v.g, v.trace);
    ActionCount(v.g, finished);
    ActionCount(v.g, v.g.ActionSet());
  }

  /** `runActionGraph`: every run of an executor over `g`, whatever the actions
      do, however the workers and the scheduler interleave, and whenever the
      caller cancels. Every action launched completes, with its own outcome. The
      result is an error exactly if some action launched fails, and then that of
      the first to complete. A cancellation was the caller's, and at most one
      action was launched after it. Without a failure, a run that was not cancelled
      launches exactly the schedulable actions and says so. */
  method RunActionGraph(g: Graph, execute: Action -> Option<Error>, cancel: (nat, nat) -> bool)
      returns (r: RunResult, flagged: Option<Action>, cancelled: bool, tr: seq<Event>)
    requires g.Valid()
    ensures TraceSafe(g, tr)
    ensures LaunchedIn(tr) == CompletedIn(tr)
    ensures forall i :: 0 <= i < |tr| && tr[i].Finish? ==> tr[i].err == execute(tr[i].action)
    ensures r.Failed? <==> exists a :: a in LaunchedIn(tr) && execute(a).Some?
    ensures r.Failed? ==> FirstFailure(execute, tr, r.err)
    ensures cancelled ==> exists at: nat :: CancelledAt(cancel, tr, at)
    ensures !r.Failed? && cancelled ==> r == Done
    ensures !r.Failed? && !cancelled ==> LaunchedIn(tr) == Schedulable(g) && Settled(g, Schedulable(g), r, flagged)
  {
    if g.actions == [] {
      return Done, None, false, [];
    }
    var executor := new Executor(g, execute, cancel);
    r, flagged := executor.Run();
    cancelled, tr := executor.ctxErr, executor.trace;
    FirstErrorIsGenuine(execute, tr);
  }
}
