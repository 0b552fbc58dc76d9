/** Building the graph of (analyzer, package) actions: a first pass counts the
    actions, a second one builds them in slots that were allocated for exactly
    that count. */
module ActionGraph {
  import StringOrder
  import opened SortedStrings
  import opened FiniteSets

  type Analyzer = nat
  type Pkg = nat

  datatype Key = Key(a: Analyzer, p: Pkg)

  /** The ranks witness that requirements and imports are acyclic. */
  datatype World = World(
    required: Analyzer -> seq<Analyzer>,
    usesFacts: Analyzer -> bool,
    imports: Pkg -> map<string, Pkg>,
    initial: set<Pkg>,
    ghost rankA: Analyzer -> nat,
    ghost rankP: Pkg -> nat)
  {
    ghost predicate Valid() {
      && (forall a: Analyzer, r: Analyzer :: r in required(a) ==> rankA(r) < rankA(a))
      && (forall p: Pkg, path: string :: path in imports(p) ==> rankP(imports(p)[path]) < rankP(p))
    }
  }

  ghost function Rank(w: World, k: Key): nat { w.rankA(k.a) + w.rankP(k.p) }

  // ----- The actions an action needs

  function RequiredKeys(w: World, k: Key): (r: seq<Key>)
    ensures |r| == |w.required(k.a)|
  {
    var reqs := w.required(k.a);
    seq(|reqs|, i requires 0 <= i < |reqs| => Key(reqs[i], k.p))
  }

  function ImportKeys(w: World, k: Key, paths: seq<string>): (r: seq<Key>)
    requires forall i :: 0 <= i < |paths| ==> paths[i] in w.imports(k.p)
    ensures |r| == |paths|
  {
    seq(|paths|, i requires 0 <= i < |paths| => Key(k.a, w.imports(k.p)[paths[i]]))
  }

  ghost function SortedImports(w: World, p: Pkg): (r: seq<string>)
    ensures forall i :: 0 <= i < |r| ==> r[i] in w.imports(p)
  {
    var r := SortedSeq(w.imports(p).Keys);
    assert forall i :: 0 <= i < |r| ==> r[i] in Elements(r);
    r
  }

  /** The required analyzers on the same package; then, if facts are used, the
      analyzer itself on the imported packages, by import path. */
  ghost function Deps(w: World, k: Key): seq<Key> {
    RequiredKeys(w, k) + FactKeys(w, k)
  }

  ghost function FactKeys(w: World, k: Key): seq<Key> {
    if w.usesFacts(k.a) then ImportKeys(w, k, SortedImports(w, k.p)) else []
  }

  lemma DepsRank(w: World, k: Key)
    requires w.Valid()
    ensures forall d :: d in Deps(w, k) ==> Rank(w, d) < Rank(w, k)
  {
    var paths := SortedImports(w, k.p);
    forall d | d in RequiredKeys(w, k)
      ensures Rank(w, d) < Rank(w, k)
    {
      var i :| 0 <= i < |w.required(k.a)| && d == Key(w.required(k.a)[i], k.p);
      assert d.a in w.required(k.a);
    }
    forall d | d in ImportKeys(w, k, paths)
      ensures Rank(w, d) < Rank(w, k)
    {
      var i :| 0 <= i < |paths| && d == Key(k.a, w.imports(k.p)[paths[i]]);
      assert paths[i] in w.imports(k.p);
    }
  }

  /** `j` is `k`, or needed by it through any chain. */
  ghost predicate Reaches(w: World, k: Key, j: Key)
    decreases Rank(w, k)
  {
    k == j || exists d :: d in Deps(w, k) && Rank(w, d) < Rank(w, k) && Reaches(w, d, j)
  }

  ghost predicate ReachedFrom(w: World, from: set<Key>, j: Key) {
    exists k :: k in from && Reaches(w, k, j)
  }

  ghost predicate Closed(w: World, s: set<Key>) {
    forall k, d :: k in s && d in Deps(w, k) ==> d in s
  }

  /** `after` is `before` and all that `from` needs. */
  ghost predicate Grown(w: World, before: set<Key>, after: set<Key>, from: set<Key>) {
    forall j: Key :: j in after <==> j in before || ReachedFrom(w, from, j)
  }

  ghost function Elems(keys: seq<Key>): set<Key> { set k | k in keys }

  lemma {:induction false} ClosedReaches(w: World, s: set<Key>, k: Key, j: Key)
    requires Closed(w, s) && k in s && Reaches(w, k, j)
    ensures j in s
    decreases Rank(w, k)
  {
    if k != j {
      var d :| d in Deps(w, k) && Rank(w, d) < Rank(w, k) && Reaches(w, d, j);
      ClosedReaches(w, s, d, j);
    }
  }

  lemma GrownNone(w: World, s: set<Key>)
    ensures Grown(w, s, s, {})
  {
  }

  lemma GrownThen(w: World, a: set<Key>, b: set<Key>, c: set<Key>, x: set<Key>, y: set<Key>)
    requires Grown(w, a, b, x) && Grown(w, b, c, y)
    ensures Grown(w, a, c, x + y)
  {
    forall j: Key
      ensures ReachedFrom(w, x + y, j) <==> ReachedFrom(w, x, j) || ReachedFrom(w, y, j)
    {
      if ReachedFrom(w, x, j) {
        var k :| k in x && Reaches(w, k, j);
        assert k in x + y;
      }
      if ReachedFrom(w, y, j) {
        var k :| k in y && Reaches(w, k, j);
        assert k in x + y;
      }
    }
  }

  lemma GrownAlready(w: World, s: set<Key>, k: Key)
    requires Closed(w, s) && k in s
    ensures Grown(w, s, s, {k})
  {
    forall j: Key | ReachedFrom(w, {k}, j)
      ensures j in s
    {
      ClosedReaches(w, s, k, j);
    }
  }

  lemma GrownHas(w: World, a: set<Key>, b: set<Key>, x: set<Key>)
    requires Grown(w, a, b, x)
    ensures a <= b && x <= b
  {
    forall k | k in x
      ensures k in b
    {
      assert Reaches(w, k, k);
    }
  }

  lemma GrownNode(w: World, a: set<Key>, b: set<Key>, k: Key)
    requires w.Valid() && Closed(w, b) && Grown(w, a, b, Elems(Deps(w, k)))
    ensures Grown(w, a, b + {k}, {k}) && Closed(w, b + {k})
  {
    DepsRank(w, k);
    GrownHas(w, a, b, Elems(Deps(w, k)));
    forall j: Key
      ensures j in b + {k} <==> j in a || Reaches(w, k, j)
    {
      if j != k && Reaches(w, k, j) {
        var d :| d in Deps(w, k) && Rank(w, d) < Rank(w, k) && Reaches(w, d, j);
        assert d in Elems(Deps(w, k));
      }
      if ReachedFrom(w, Elems(Deps(w, k)), j) {
        var d :| d in Elems(Deps(w, k)) && Reaches(w, d, j);
      }
    }
    assert forall j: Key :: ReachedFrom(w, {k}, j) <==> Reaches(w, k, j);
  }

  /** What is reached from `from` is the least set that holds `from` and is
      closed under dependencies. */
  lemma ReachedIsLeast(w: World, from: set<Key>, reached: set<Key>)
    requires w.Valid() && Grown(w, {}, reached, from)
    ensures from <= reached && Closed(w, reached)
    ensures forall s :: from <= s && Closed(w, s) ==> reached <= s
  {
    GrownHas(w, {}, reached, from);
    forall k, d | k in reached && d in Deps(w, k)
      ensures d in reached
    {
      DepsRank(w, k);
      var r :| r in from && Reaches(w, r, k);
      ReachesFurther(w, r, k, d);
    }
    forall s, j | from <= s && Closed(w, s) && j in reached
      ensures j in s
    {
      var r :| r in from && Reaches(w, r, j);
      ClosedReaches(w, s, r, j);
    }
  }

  lemma {:induction false} ReachesFurther(w: World, r: Key, k: Key, d: Key)
    requires w.Valid() && Reaches(w, r, k) && d in Deps(w, k)
    ensures Reaches(w, r, d)
    decreases Rank(w, r)
  {
    DepsRank(w, r);
    if r == k {
      assert Reaches(w, d, d);
    } else {
      var e :| e in Deps(w, r) && Rank(w, e) < Rank(w, r) && Reaches(w, e, k);
      ReachesFurther(w, e, k, d);
    }
  }

  // ----- The actions built

  /** `deps` holds the slots of the dependencies. */
  datatype Action = Action(key: Key, isInitial: bool, needAnalyzeSource: bool, isRoot: bool, deps: seq<nat>)

  const BLANK := Action(Key(0, 0), false, false, false, [])

  /** `slots` is allocated once; the first `next` are taken. */
  datatype State = State(actions: map<Key, nat>, slots: seq<Action>, next: nat)

  /** The action of `k` is complete but for `isRoot`. */
  ghost predicate Done(w: World, s: State, k: Key)
    requires k in s.actions && s.actions[k] < |s.slots|
  {
    var act := s.slots[s.actions[k]];
    && act.key == k
    && act.isInitial == act.needAnalyzeSource == (k.p in w.initial)
    && DepsDone(s.actions, act.deps, Deps(w, k))
  }

  ghost predicate DepsDone(actions: map<Key, nat>, deps: seq<nat>, keys: seq<Key>) {
    && |deps| == |keys|
    && forall i :: 0 <= i < |keys| ==> keys[i] in actions && deps[i] == actions[keys[i]]
  }

  /** `busy` are the actions whose construction has begun, with their slots,
      `all` those that were counted, `roots` those marked as roots. */
  ghost predicate Built(w: World, s: State, busy: map<Key, nat>, all: set<Key>, roots: set<Key>) {
    match s
    case State(actions, slots, next) =>
      && Sizes(actions.Keys, busy.Keys, next, |slots|, all)
      && roots <= actions.Keys
      && Closed(w, actions.Keys)
      && next <= |slots|
      && Entries(w, s)
      && Owners(s, busy)
      && RootMarks(s, roots)
  }

  ghost predicate Sizes(finished: set<Key>, busy: set<Key>, next: nat, total: nat, all: set<Key>) {
    next == |finished| + |busy| && total == |all| && finished !! busy && finished <= all && busy <= all
  }

  ghost predicate Entries(w: World, s: State) {
    forall k :: k in s.actions ==> s.actions[k] < s.next && s.actions[k] < |s.slots| && Done(w, s, k)
  }

  ghost predicate Owners(s: State, busy: map<Key, nat>)
    requires s.next <= |s.slots|
  {
    forall i :: 0 <= i < s.next ==>
      || (s.slots[i].key in busy && busy[s.slots[i].key] == i)
      || (s.slots[i].key in s.actions && s.actions[s.slots[i].key] == i)
  }

  ghost predicate RootMarks(s: State, roots: set<Key>) {
    forall i :: 0 <= i < |s.slots| ==> (s.slots[i].isRoot <==> i < s.next && s.slots[i].key in roots)
  }

  /** From `s` to `t`, actions are only added, and no slot that was taken has
      changed, except maybe slot `but`. */
  ghost predicate Kept(s: State, t: State, but: int) {
    match s
    case State(actions, slots, next) =>
      && next <= t.next && next <= |slots| == |t.slots|
      && (forall k :: k in actions ==> k in t.actions && t.actions[k] == actions[k])
      && (forall i :: 0 <= i < next && i != but ==> t.slots[i] == slots[i])
  }

  ghost predicate Above(w: World, busy: map<Key, nat>, rank: int) {
    forall b :: b in busy ==> Rank(w, b) > rank
  }

  /** The heart of the matter: whoever asks for a new slot finds one. */
  lemma SlotFree(finished: set<Key>, busy: set<Key>, next: nat, total: nat, all: set<Key>, k: Key)
    requires Sizes(finished, busy, next, total, all) && k in all && k !in finished && k !in busy
    ensures next < total && Sizes(finished, busy + {k}, next + 1, total, all)
  {
    var taken := finished + busy;
    assert |taken| == next;
    SubsetSize(taken, all - {k});
  }

  lemma SlotDone(finished: set<Key>, busy: set<Key>, next: nat, total: nat, all: set<Key>, k: Key)
    requires Sizes(finished, busy + {k}, next, total, all) && k !in busy
    ensures Sizes(finished + {k}, busy, next, total, all)
  {
  }

  function Begun(w: World, s: State, k: Key): State
    requires s.next < |s.slots|
  {
    s.(slots := s.slots[s.next := s.slots[s.next].(key := k, isInitial := k.p in w.initial, needAnalyzeSource := k.p in w.initial, deps := [])],
       next := s.next + 1)
  }

  lemma BegunBuilt(w: World, s: State, busy: map<Key, nat>, all: set<Key>, roots: set<Key>, k: Key)
    requires Built(w, s, busy, all, roots) && k in all && k !in s.actions && k !in busy
    ensures s.next < |s.slots|
    ensures Built(w, Begun(w, s, k), busy[k := s.next], all, roots)
    ensures Kept(s, Begun(w, s, k), -1)
  {
    hide Closed, Deps, Entries, Owners, RootMarks, Sizes, Begun;
    SlotFree(s.actions.Keys, busy.Keys, s.next, |s.slots|, all, k);
    assert busy[k := s.next].Keys == busy.Keys + {k};
    BegunEntries(w, s, k);
    BegunMarks(w, s, busy, roots, k);
  }

  lemma BegunEntries(w: World, s: State, k: Key)
    requires Entries(w, s) && s.next < |s.slots|
    ensures Entries(w, Begun(w, s, k))
  {
    hide Deps;
    var t := Begun(w, s, k);
    forall j | j in s.actions
      ensures Done(w, t, j)
    {
      assert Done(w, s, j);
    }
  }

  lemma BegunMarks(w: World, s: State, busy: map<Key, nat>, roots: set<Key>, k: Key)
    requires s.next < |s.slots| && k !in s.actions && k !in busy && roots <= s.actions.Keys
    requires Owners(s, busy) && RootMarks(s, roots)
    ensures var t := Begun(w, s, k);
            && Kept(s, t, -1) && |t.slots| == |s.slots| && t.next == s.next + 1 && t.actions == s.actions
            && Owners(t, busy[k := s.next]) && RootMarks(t, roots)
  {
  }

  function WithDep(s: State, i: nat, dep: nat): State
    requires i < |s.slots|
  {
    s.(slots := s.slots[i := s.slots[i].(deps := s.slots[i].deps + [dep])])
  }

  lemma WithDepBuilt(w: World, s: State, busy: map<Key, nat>, all: set<Key>, roots: set<Key>, k: Key, i: nat, dep: nat)
    requires Built(w, s, busy, all, roots) && i < s.next && k in busy && busy[k] == i
    requires i < |s.slots| && s.slots[i].key == k
    ensures Built(w, WithDep(s, i, dep), busy, all, roots)
  {
    hide Closed, Deps, Sizes;
    var t := WithDep(s, i, dep);
    EnteredNew(s.actions.Keys, busy.Keys, s.next, |s.slots|, all, k);
    forall j | j in s.actions
      ensures Done(w, t, j)
    {
      assert Done(w, s, j);
    }
  }

  function Entered(s: State, k: Key, i: nat): State {
    s.(actions := s.actions[k := i])
  }

  lemma EnteredBuilt(w: World, s: State, busy: map<Key, nat>, all: set<Key>, roots: set<Key>, k: Key, i: nat)
    requires k !in busy && Built(w, s, busy[k := i], all, roots) && i < s.next && i < |s.slots|
    requires var act := s.slots[i]; act.key == k && act.isInitial == act.needAnalyzeSource == (k.p in w.initial)
    requires DepsDone(s.actions, s.slots[i].deps, Deps(w, k)) && Closed(w, s.actions.Keys + {k})
    ensures Built(w, Entered(s, k, i), busy, all, roots)
  {
    hide Closed, Deps, Entries, Owners, RootMarks, Sizes;
    assert busy[k := i].Keys == busy.Keys + {k};
    AddedKey(s.actions, k, i);
    SlotDone(s.actions.Keys, busy.Keys, s.next, |s.slots|, all, k);
    EnteredNew(s.actions.Keys, busy[k := i].Keys, s.next, |s.slots|, all, k);
    EnteredEntries(w, s, k, i);
    EnteredMarks(s, busy, roots, k, i);
  }

  lemma EnteredNew(finished: set<Key>, busy: set<Key>, next: nat, total: nat, all: set<Key>, k: Key)
    requires Sizes(finished, busy, next, total, all) && k in busy
    ensures k !in finished
  {
  }

  lemma EnteredEntries(w: World, s: State, k: Key, i: nat)
    requires Entries(w, s) && k !in s.actions && i < s.next && i < |s.slots|
    requires var act := s.slots[i]; act.key == k && act.isInitial == act.needAnalyzeSource == (k.p in w.initial)
    requires DepsDone(s.actions, s.slots[i].deps, Deps(w, k))
    ensures Entries(w, Entered(s, k, i))
  {
    hide Deps;
    var t := Entered(s, k, i);
    forall j | j in t.actions
      ensures t.actions[j] < t.next && Done(w, t, j)
    {
      assert j in s.actions ==> Done(w, s, j);
    }
  }

  lemma EnteredMarks(s: State, busy: map<Key, nat>, roots: set<Key>, k: Key, i: nat)
    requires s.next <= |s.slots| && k !in busy && k !in s.actions && Owners(s, busy[k := i]) && RootMarks(s, roots)
    ensures Owners(Entered(s, k, i), busy) && RootMarks(Entered(s, k, i), roots)
  {
  }

  /** From `s` to `t`, slot `act` has got the slots of `keys` as further
      dependencies. */
  ghost predicate Linked(s: State, t: State, act: nat, keys: seq<Key>) {
    && act < s.next <= |s.slots| && Kept(s, t, act)
    && t.slots[act] == s.slots[act].(deps := t.slots[act].deps)
    && s.slots[act].deps <= t.slots[act].deps
    && DepsDone(t.actions, t.slots[act].deps[|s.slots[act].deps|..], keys)
  }

  lemma LinkedNone(s: State, act: nat)
    requires act < s.next <= |s.slots|
    ensures Linked(s, s, act, [])
  {
  }

  lemma LinkedStep(s: State, t: State, u: State, act: nat, keys: seq<Key>, d: Key)
    requires Linked(s, t, act, keys) && Kept(t, u, -1) && d in u.actions
    ensures u.next <= |u.slots| ==> Linked(s, WithDep(u, act, u.actions[d]), act, keys + [d])
  {
  }

  lemma LinkedThen(s: State, t: State, u: State, act: nat, keys: seq<Key>, more: seq<Key>)
    requires Linked(s, t, act, keys) && Linked(t, u, act, more)
    ensures Linked(s, u, act, keys + more)
  {
    var a, b, c := s.slots[act].deps, t.slots[act].deps, u.slots[act].deps;
    assert c[|a|..|b|] == b[|a|..];
    assert c[|a|..] == b[|a|..] + c[|b|..];
  }

  ghost predicate Smaller(w: World, keys: seq<Key>, rank: nat, all: set<Key>) {
    forall d :: d in keys ==> Rank(w, d) < rank && d in all
  }

  class Builder {
    const w: World
    var marked: set<Key>
    var actions: map<Key, nat>
    var slots: seq<Action>
    var next: nat

    ghost function View(): State
      reads this
    {
      State(actions, slots, next)
    }

    constructor (w: World)
      requires w.Valid()
      ensures this.w == w && marked == {} && View() == State(map[], [], 0)
    {
      this.w := w;
      marked, actions, slots, next := {}, map[], [], 0;
    }

    // ----- The first pass

    method MarkAllActions(k: Key)
      requires w.Valid() && Closed(w, marked)
      modifies this`marked
      ensures Closed(w, marked) && Grown(w, old(marked), marked, {k})
      decreases Rank(w, k), 1
    {
      if k in marked {
        GrownAlready(w, marked, k);
        return;
      }
      hide Closed, Grown;
      ghost var before := marked;
      MarkRequired(k);
      ghost var middle := marked;
      if w.usesFacts(k.a) {
        MarkImports(k);
      } else {
        GrownNone(w, marked);
      }
      DepsElems(w, k);
      GrownThen(w, before, middle, marked, Elems(RequiredKeys(w, k)), Elems(FactKeys(w, k)));
      GrownNode(w, before, marked, k);
      marked := marked + {k};
    }

    method MarkRequired(k: Key)
      requires w.Valid() && Closed(w, marked)
      modifies this`marked
      ensures Closed(w, marked) && Grown(w, old(marked), marked, Elems(RequiredKeys(w, k)))
      decreases Rank(w, k), 0
    {
      hide Closed, Grown;
      DepsRank(w, k);
      var reqs := w.required(k.a);
      ghost var keys := RequiredKeys(w, k);
      GrownNone(w, marked);
      assert Elems(keys[..0]) == {};
      for i := 0 to |reqs|
        invariant Closed(w, marked) && Grown(w, old(marked), marked, Elems(keys[..i]))
      {
        assert keys[i] in Deps(w, k);
        ghost var before := marked;
        MarkAllActions(Key(reqs[i], k.p));
        ElemsSnoc(keys, i);
        GrownThen(w, old(marked), before, marked, Elems(keys[..i]), {keys[i]});
      }
      assert keys[..|reqs|] == keys;
    }

    /** The import paths come in any order. */
    method MarkImports(k: Key)
      requires w.Valid() && Closed(w, marked) && w.usesFacts(k.a)
      modifies this`marked
      ensures Closed(w, marked) && Grown(w, old(marked), marked, Elems(ImportKeys(w, k, SortedImports(w, k.p))))
      decreases Rank(w, k), 0
    {
      hide Closed, Grown;
      DepsRank(w, k);
      var todo := w.imports(k.p).Keys;
      ghost var keys: set<Key> := {};
      GrownNone(w, marked);
      while todo != {}
        invariant todo <= w.imports(k.p).Keys
        invariant Closed(w, marked) && Grown(w, old(marked), marked, keys)
        invariant forall path :: path in w.imports(k.p) && path !in todo ==> Key(k.a, w.imports(k.p)[path]) in keys
        invariant keys <= Elems(ImportKeys(w, k, SortedImports(w, k.p)))
        decreases |todo|
      {
        var path :| path in todo;
        ImportIsDep(w, k, path);
        ghost var before := marked;
        MarkAllActions(Key(k.a, w.imports(k.p)[path]));
        GrownThen(w, old(marked), before, marked, keys, {Key(k.a, w.imports(k.p)[path])});
        todo, keys := todo - {path}, keys + {Key(k.a, w.imports(k.p)[path])};
      }
      AllImports(w, k, keys);
    }

    // ----- The second pass

    method Alloc() returns (i: nat)
      requires next < |slots|
      modifies this`next
      ensures i == old(next) && next == i + 1
    {
      i := next;
      next := next + 1;
    }

    method MakeAction(k: Key, ghost busy: map<Key, nat>, ghost all: set<Key>, ghost roots: set<Key>) returns (act: nat)
      requires w.Valid() && Built(w, View(), busy, all, roots)
      requires Closed(w, all) && k in all && Above(w, busy, Rank(w, k))
      modifies this`actions, this`slots, this`next
      ensures Built(w, View(), busy, all, roots) && Kept(old(View()), View(), -1)
      ensures k in actions && act == actions[k]
      ensures Grown(w, old(actions).Keys, actions.Keys, {k})
      decreases Rank(w, k), 2, 0
    {
      if k in actions {
        GrownAlready(w, actions.Keys, k);
        return actions[k];
      }
      ghost var s0 := View();
      BegunBuilt(w, s0, busy, all, roots, k);
      act := Alloc();
      slots := slots[act := slots[act].(key := k, isInitial := k.p in w.initial, needAnalyzeSource := k.p in w.initial, deps := [])];
      ghost var s1 := View();
      assert s1 == Begun(w, s0, k);
      hide Built, Closed, Grown, Kept, Linked;
      NeedsInside(w, k, all);
      MakeEach(k, act, RequiredKeys(w, k), busy[k := act], all, roots);
      ghost var s2 := View();
      BuiltSlots(w, s2, busy[k := act], all, roots, k);
      LinkedKey(s1, s2, act, RequiredKeys(w, k));
      BuildActionFactDeps(k, act, busy[k := act], all, roots);
      FinishAction(w, s0, s2, View(), busy, all, roots, k);
      actions := actions[k := act];
    }

    method BuildActionFactDeps(k: Key, act: nat, ghost busy: map<Key, nat>, ghost all: set<Key>, ghost roots: set<Key>)
      requires w.Valid() && Built(w, View(), busy, all, roots) && k in busy && busy[k] == act
      requires act < next <= |slots| && slots[act].key == k
      requires Closed(w, all) && Smaller(w, Deps(w, k), Rank(w, k), all) && Above(w, busy, Rank(w, k) - 1)
      modifies this`actions, this`slots, this`next
      ensures Built(w, View(), busy, all, roots) && Linked(old(View()), View(), act, FactKeys(w, k))
      ensures Grown(w, old(actions).Keys, actions.Keys, Elems(FactKeys(w, k)))
      decreases Rank(w, k), 1, 0
    {
      if !w.usesFacts(k.a) {
        LinkedNone(View(), act);
        GrownNone(w, actions.Keys);
        return;
      }
      var paths := SortedKeys(w.imports(k.p).Keys);
      assert paths == SortedImports(w, k.p);
      MakeEach(k, act, ImportKeys(w, k, paths), busy, all, roots);
    }

    method MakeEach(k: Key, act: nat, keys: seq<Key>, ghost busy: map<Key, nat>, ghost all: set<Key>, ghost roots: set<Key>)
      requires w.Valid() && Built(w, View(), busy, all, roots) && k in busy && busy[k] == act
      requires act < next <= |slots| && slots[act].key == k
      requires Closed(w, all) && Smaller(w, keys, Rank(w, k), all) && Above(w, busy, Rank(w, k) - 1)
      modifies this`actions, this`slots, this`next
      ensures Built(w, View(), busy, all, roots) && Linked(old(View()), View(), act, keys)
      ensures Grown(w, old(actions).Keys, actions.Keys, Elems(keys))
      decreases Rank(w, k), 0, 1
    {
      ghost var s := View();
      LinkedNone(s, act);
      GrownNone(w, actions.Keys);
      hide Built, Closed, Grown, Kept, Linked, Smaller, Above;
      assert keys[..0] == [] && Elems([]) == {};
      for i := 0 to |keys|
        invariant Built(w, View(), busy, all, roots) && Linked(s, View(), act, keys[..i])
        invariant Grown(w, s.actions.Keys, actions.Keys, Elems(keys[..i]))
      {
        AddDep(s, k, act, keys, i, busy, all, roots);
      }
      assert keys[..|keys|] == keys;
    }

    method AddDep(ghost s: State, k: Key, act: nat, keys: seq<Key>, i: nat,
                  ghost busy: map<Key, nat>, ghost all: set<Key>, ghost roots: set<Key>)
      requires w.Valid() && Built(w, View(), busy, all, roots) && k in busy && busy[k] == act && i < |keys|
      requires act < s.next <= |s.slots| && s.slots[act].key == k && Linked(s, View(), act, keys[..i])
      requires Grown(w, s.actions.Keys, actions.Keys, Elems(keys[..i]))
      requires Closed(w, all) && Smaller(w, keys, Rank(w, k), all) && Above(w, busy, Rank(w, k) - 1)
      modifies this`actions, this`slots, this`next
      ensures Built(w, View(), busy, all, roots) && Linked(s, View(), act, keys[..i + 1])
      ensures Grown(w, s.actions.Keys, actions.Keys, Elems(keys[..i + 1]))
      decreases Rank(w, k), 0, 0
    {
      ghost var t := View();
      SmallerAt(w, keys, i, Rank(w, k), busy, all);
      hide Built, Closed, Grown, Kept, Linked, Smaller, Above;
      var dep := MakeAction(keys[i], busy, all, roots);
      LinkedSlot(w, s, t, View(), act, keys[..i], busy, all, roots);
      DepLinked(w, s, t, View(), act, keys, i, k, busy, all, roots);
      slots := slots[act := slots[act].(deps := slots[act].deps + [dep])];
    }

    // ----- Both passes

    /** Counts the actions, allocates exactly that many slots, builds every
        action and marks the roots. No slot is missing and none is left over. */
    method PrepareAnalysis(pkgs: seq<Pkg>, analyzers: seq<Analyzer>) returns (roots: seq<nat>)
      requires w.Valid() && w.initial == (set p | p in pkgs)
      requires marked == {} && actions == map[]
      modifies this
      ensures Grown(w, {}, actions.Keys, Elems(RootKeys(pkgs, analyzers)))
      ensures |slots| == next == |actions.Keys|
      ensures forall k :: k in actions ==> actions[k] < |slots| && Done(w, View(), k)
      ensures forall i :: 0 <= i < |slots| ==> slots[i].key in actions && actions[slots[i].key] == i
      ensures forall i :: 0 <= i < |slots| ==> (slots[i].isRoot <==> slots[i].key in RootKeys(pkgs, analyzers))
      ensures DepsDone(actions, roots, RootKeys(pkgs, analyzers))
      ensures forall a, p :: a in analyzers && p in pkgs ==> Key(a, p) in actions
      ensures forall i :: 0 <= i < |slots| ==> (slots[i].isRoot <==> slots[i].key.a in analyzers && slots[i].key.p in pkgs)
      ensures |roots| == |analyzers| * |pkgs|
      ensures forall i, j :: 0 <= i < |analyzers| && 0 <= j < |pkgs| ==> RootAt(pkgs, analyzers, actions, roots, i, j)
    {
      var keys := RootKeys(pkgs, analyzers);
      hide Grown, Built, Closed, DepsDone, RootKeys, RootAt, Done;
      MarkEach(keys);
      ghost var all := marked;
      slots := seq(|marked|, _ => BLANK);
      next := 0;
      GrownClosed(w, all, keys);
      roots := MakeRoots(keys, all);
      SameGrowth(w, all, actions.Keys, keys);
      AllTaken(w, View(), all, Elems(keys));
      RootsInOrder(pkgs, analyzers, actions, roots);
      RootKeysMean(pkgs, analyzers);
    }

    method MarkEach(keys: seq<Key>)
      requires w.Valid() && marked == {}
      modifies this`marked
      ensures Closed(w, marked) && Grown(w, {}, marked, Elems(keys))
    {
      hide Grown;
      GrownNone(w, {});
      assert keys[..0] == [] && Elems([]) == {};
      for i := 0 to |keys|
        invariant Closed(w, marked) && Grown(w, {}, marked, Elems(keys[..i]))
      {
        ghost var before := marked;
        MarkAllActions(keys[i]);
        ElemsSnoc(keys, i);
        GrownThen(w, {}, before, marked, Elems(keys[..i]), {keys[i]});
      }
      assert keys[..|keys|] == keys;
    }

    method MakeRoots(keys: seq<Key>, ghost all: set<Key>) returns (roots: seq<nat>)
      requires w.Valid() && Closed(w, all) && Elems(keys) <= all
      requires actions == map[] && next == 0 && slots == seq(|all|, _ => BLANK)
      modifies this`actions, this`slots, this`next
      ensures Built(w, View(), map[], all, Elems(keys))
      ensures Grown(w, {}, actions.Keys, Elems(keys)) && DepsDone(actions, roots, keys)
    {
      roots := [];
      assert DepsDone(actions, [], []);
      GrownNone(w, {});
      EmptyBuilt(w, View(), all);
      assert keys[..0] == [] && Elems([]) == {};
      hide Grown, Built, Closed, Extends, DepsDone, Elems, World.Valid;
      for i := 0 to |keys|
        invariant Built(w, View(), map[], all, Elems(keys[..i])) && Grown(w, {}, actions.Keys, Elems(keys[..i]))
        invariant DepsDone(actions, roots, keys[..i])
      {
        ElemsSnoc(keys, i);
        ghost var before := View();
        var root := MakeRoot(keys[i], all, Elems(keys[..i]));
        KeptDeps(before, View(), roots, keys[..i], keys[i]);
        roots := roots + [root];
        GrownThen(w, {}, before.actions.Keys, actions.Keys, Elems(keys[..i]), {keys[i]});
      }
      assert keys[..|keys|] == keys;
    }

    method MakeRoot(k: Key, ghost all: set<Key>, ghost roots: set<Key>) returns (root: nat)
      requires w.Valid() && Closed(w, all) && k in all && Built(w, View(), map[], all, roots)
      modifies this`actions, this`slots, this`next
      ensures Built(w, View(), map[], all, roots + {k}) && Extends(old(actions), actions)
      ensures k in actions && root == actions[k] && Grown(w, old(actions).Keys, actions.Keys, {k})
    {
      hide Grown, Built, Closed;
      root := MakeAction(k, map[], all, roots);
      RootBuilt(w, View(), all, roots, k);
      slots := slots[root := slots[root].(isRoot := true)];
    }
  }

  /** The root actions: each analyzer on each initial package. */
  function RootKeys(pkgs: seq<Pkg>, analyzers: seq<Analyzer>): seq<Key> {
    if analyzers == [] then []
    else seq(|pkgs|, i requires 0 <= i < |pkgs| => Key(analyzers[0], pkgs[i])) + RootKeys(pkgs, analyzers[1..])
  }

  /** The roots, analyzer by analyzer. */
  lemma {:induction false} RootKeyAt(pkgs: seq<Pkg>, analyzers: seq<Analyzer>, i: nat, j: nat)
    requires i < |analyzers| && j < |pkgs|
    ensures |RootKeys(pkgs, analyzers)| == |analyzers| * |pkgs|
    ensures 0 <= i * |pkgs| + j < |analyzers| * |pkgs|
    ensures RootKeys(pkgs, analyzers)[i * |pkgs| + j] == Key(analyzers[i], pkgs[j])
  {
    RootCount(pkgs, analyzers);
    Below(i, j, |analyzers|, |pkgs|);
    if i > 0 {
      RootKeyAt(pkgs, analyzers[1..], i - 1, j);
      var n := |pkgs|;
      assert (i - 1) * n + j == i * n + j - n;
    }
  }

  lemma Below(i: nat, j: nat, m: nat, n: nat)
    requires i < m && j < n
    ensures 0 <= i * n + j < m * n
  {
    Monotone(i + 1, m, n);
  }

  lemma {:induction false} Monotone(i: nat, m: nat, n: nat)
    requires i <= m
    ensures i * n <= m * n
  {
    if i < m {
      Monotone(i, m - 1, n);
    }
  }

  lemma {:induction false} RootCount(pkgs: seq<Pkg>, analyzers: seq<Analyzer>)
    ensures |RootKeys(pkgs, analyzers)| == |analyzers| * |pkgs|
  {
    if analyzers != [] {
      RootCount(pkgs, analyzers[1..]);
      assert |analyzers| * |pkgs| == |pkgs| + (|analyzers| - 1) * |pkgs|;
    }
  }

  /** Exactly the given analyzers on the given packages. */
  lemma RootKeysMean(pkgs: seq<Pkg>, analyzers: seq<Analyzer>)
    ensures forall k :: k in RootKeys(pkgs, analyzers) <==> k.a in analyzers && k.p in pkgs
  {
    forall k: Key | k.a in analyzers && k.p in pkgs
      ensures k in RootKeys(pkgs, analyzers)
    {
      var i :| 0 <= i < |analyzers| && analyzers[i] == k.a;
      var j :| 0 <= j < |pkgs| && pkgs[j] == k.p;
      RootKeyAt(pkgs, analyzers, i, j);
    }
    forall k | k in RootKeys(pkgs, analyzers)
      ensures k.a in analyzers && k.p in pkgs
    {
      RootPackage(pkgs, analyzers, k);
    }
  }

  /** The root of analyzer `i` on package `j` is the action of that key. */
  ghost predicate RootAt(pkgs: seq<Pkg>, analyzers: seq<Analyzer>, actions: map<Key, nat>, roots: seq<nat>, i: nat, j: nat)
    requires i < |analyzers| && j < |pkgs|
  {
    && 0 <= i * |pkgs| + j < |roots| && Key(analyzers[i], pkgs[j]) in actions
    && roots[i * |pkgs| + j] == actions[Key(analyzers[i], pkgs[j])]
  }

  lemma RootInOrder(pkgs: seq<Pkg>, analyzers: seq<Analyzer>, actions: map<Key, nat>, roots: seq<nat>, i: nat, j: nat)
    requires DepsDone(actions, roots, RootKeys(pkgs, analyzers)) && i < |analyzers| && j < |pkgs|
    ensures RootAt(pkgs, analyzers, actions, roots, i, j)
  {
    hide RootKeys;
    RootKeyAt(pkgs, analyzers, i, j);
  }

  lemma RootsInOrder(pkgs: seq<Pkg>, analyzers: seq<Analyzer>, actions: map<Key, nat>, roots: seq<nat>)
    requires DepsDone(actions, roots, RootKeys(pkgs, analyzers))
    ensures |roots| == |analyzers| * |pkgs|
    ensures forall a, p :: a in analyzers && p in pkgs ==> Key(a, p) in actions
    ensures forall i, j :: 0 <= i < |analyzers| && 0 <= j < |pkgs| ==> RootAt(pkgs, analyzers, actions, roots, i, j)
  {
    RootCount(pkgs, analyzers);
    RootKeysMean(pkgs, analyzers);
    hide RootKeys, RootAt;
    forall i, j | 0 <= i < |analyzers| && 0 <= j < |pkgs|
      ensures RootAt(pkgs, analyzers, actions, roots, i, j)
    {
      RootInOrder(pkgs, analyzers, actions, roots, i, j);
    }
    forall a, p | a in analyzers && p in pkgs
      ensures Key(a, p) in actions
    {
      assert Key(a, p) in RootKeys(pkgs, analyzers);
    }
  }

  /** The import paths of a package: all of them, strictly increasing. */
  lemma PathsMean(w: World, p: Pkg)
    ensures forall path :: path in SortedImports(w, p) <==> path in w.imports(p)
    ensures forall i, j :: 0 <= i < j < |SortedImports(w, p)| ==> StringOrder.Less(SortedImports(w, p)[i], SortedImports(w, p)[j])
  {
    hide StringOrder.Less;
    var paths := SortedImports(w, p);
    assert forall path :: path in paths <==> path in Elements(paths);
  }

  /** The dependencies of an action, in order: the required analyzers on the same
      package, ... */
  lemma RequiredDeps(w: World, k: Key, j: nat)
    requires j < |w.required(k.a)|
    ensures |Deps(w, k)| >= |w.required(k.a)| && Deps(w, k)[j] == Key(w.required(k.a)[j], k.p)
  {
    hide FactKeys;
    assert RequiredKeys(w, k)[j] == Key(w.required(k.a)[j], k.p);
  }

  /** ... and then, if facts are used, the analyzer itself on every imported
      package, by import path; and no more. */
  lemma ImportDeps(w: World, k: Key, j: nat)
    ensures |Deps(w, k)| == |w.required(k.a)| + if w.usesFacts(k.a) then |SortedImports(w, k.p)| else 0
    ensures w.usesFacts(k.a) && j < |SortedImports(w, k.p)| ==>
              Deps(w, k)[|w.required(k.a)| + j] == Key(k.a, w.imports(k.p)[SortedImports(w, k.p)[j]])
  {
    hide RequiredKeys, SortedImports;
    var paths := SortedImports(w, k.p);
    if w.usesFacts(k.a) && j < |paths| {
      assert FactKeys(w, k)[j] == Key(k.a, w.imports(k.p)[paths[j]]);
    }
  }

  ghost predicate Extends(m: map<Key, nat>, n: map<Key, nat>) {
    forall k :: k in m ==> k in n && n[k] == m[k]
  }

  lemma KeptDeps(s: State, t: State, deps: seq<nat>, keys: seq<Key>, k: Key)
    requires Extends(s.actions, t.actions) && DepsDone(s.actions, deps, keys) && k in t.actions
    ensures DepsDone(t.actions, deps + [t.actions[k]], keys + [k])
  {
  }

  lemma EmptyBuilt(w: World, s: State, all: set<Key>)
    requires s == State(map[], seq(|all|, _ => BLANK), 0)
    ensures Built(w, s, map[], all, {})
  {
  }

  lemma RootBuilt(w: World, s: State, all: set<Key>, roots: set<Key>, k: Key)
    requires Built(w, s, map[], all, roots) && k in s.actions
    ensures s.actions[k] < |s.slots|
    ensures var i := s.actions[k];
            Built(w, s.(slots := s.slots[i := s.slots[i].(isRoot := true)]), map[], all, roots + {k})
  {
    hide Closed, Deps, Sizes;
    assert Done(w, s, k);
    var t := s.(slots := s.slots[s.actions[k] := s.slots[s.actions[k]].(isRoot := true)]);
    forall j | j in s.actions
      ensures Done(w, t, j)
    {
      assert Done(w, s, j);
    }
  }

  lemma GrownClosed(w: World, all: set<Key>, keys: seq<Key>)
    requires Grown(w, {}, all, Elems(keys))
    ensures Elems(keys) <= all
  {
    GrownHas(w, {}, all, Elems(keys));
  }

  /** Both passes reach the same actions. */
  lemma SameGrowth(w: World, a: set<Key>, b: set<Key>, keys: seq<Key>)
    requires Grown(w, {}, a, Elems(keys)) && Grown(w, {}, b, Elems(keys))
    ensures a == b
  {
  }

  lemma AllTaken(w: World, s: State, all: set<Key>, roots: set<Key>)
    requires Built(w, s, map[], all, roots) && s.actions.Keys == all
    ensures |s.slots| == s.next == |all|
    ensures forall k :: k in s.actions ==> s.actions[k] < |s.slots| && Done(w, s, k)
    ensures forall i :: 0 <= i < |s.slots| ==> s.slots[i].key in s.actions && s.actions[s.slots[i].key] == i
    ensures forall i :: 0 <= i < |s.slots| ==> (s.slots[i].isRoot <==> s.slots[i].key in roots)
  {
    hide Done, Closed;
  }

  lemma SmallerAt(w: World, keys: seq<Key>, i: nat, rank: nat, busy: map<Key, nat>, all: set<Key>)
    requires i < |keys| && Smaller(w, keys, rank, all) && Above(w, busy, rank - 1)
    ensures keys[i] in all && Rank(w, keys[i]) < rank && Above(w, busy, Rank(w, keys[i]))
  {
  }

  lemma LinkedSlot(w: World, s: State, t: State, u: State, act: nat, keys: seq<Key>, busy: map<Key, nat>, all: set<Key>, roots: set<Key>)
    requires Linked(s, t, act, keys) && Kept(t, u, -1) && Built(w, u, busy, all, roots)
    ensures act < u.next <= |u.slots| && u.slots[act].key == s.slots[act].key
  {
    hide Closed, Deps, Sizes, Owners, RootMarks, Entries, DepsDone;
  }

  /** One turn of the loop over dependencies. */
  lemma DepLinked(w: World, s: State, t: State, u: State, act: nat, keys: seq<Key>, i: nat, k: Key,
                  busy: map<Key, nat>, all: set<Key>, roots: set<Key>)
    requires i < |keys| && act < u.next <= |u.slots| && u.slots[act].key == k && k in busy && busy[k] == act
    requires Linked(s, t, act, keys[..i]) && Kept(t, u, -1) && Built(w, u, busy, all, roots)
    requires Grown(w, s.actions.Keys, t.actions.Keys, Elems(keys[..i])) && Grown(w, t.actions.Keys, u.actions.Keys, {keys[i]})
    requires keys[i] in u.actions
    ensures var v := WithDep(u, act, u.actions[keys[i]]);
            && Built(w, v, busy, all, roots) && Linked(s, v, act, keys[..i + 1])
            && Grown(w, s.actions.Keys, v.actions.Keys, Elems(keys[..i + 1]))
  {
    hide Closed, Built, Grown, Kept, Linked;
    WithDepBuilt(w, u, busy, all, roots, k, act, u.actions[keys[i]]);
    assert keys[..i + 1] == keys[..i] + [keys[i]];
    LinkedStep(s, t, u, act, keys[..i], keys[i]);
    GrownThen(w, s.actions.Keys, t.actions.Keys, u.actions.Keys, Elems(keys[..i]), {keys[i]});
    ElemsSnoc(keys, i);
  }

  lemma BuiltSlots(w: World, s: State, busy: map<Key, nat>, all: set<Key>, roots: set<Key>, k: Key)
    requires Built(w, s, busy, all, roots) && k in busy
    ensures s.next <= |s.slots|
  {
  }

  lemma NeedsInside(w: World, k: Key, all: set<Key>)
    requires w.Valid() && Closed(w, all) && k in all
    ensures Smaller(w, Deps(w, k), Rank(w, k), all)
    ensures Smaller(w, RequiredKeys(w, k), Rank(w, k), all)
  {
    DepsRank(w, k);
  }

  lemma FinishAction(w: World, s: State, t: State, u: State, busy: map<Key, nat>, all: set<Key>, roots: set<Key>, k: Key)
    requires w.Valid() && s.next < |s.slots| && k !in busy && Kept(s, Begun(w, s, k), -1)
    requires Linked(Begun(w, s, k), t, s.next, RequiredKeys(w, k)) && Linked(t, u, s.next, FactKeys(w, k))
    requires Grown(w, s.actions.Keys, t.actions.Keys, Elems(RequiredKeys(w, k)))
    requires Grown(w, t.actions.Keys, u.actions.Keys, Elems(FactKeys(w, k)))
    requires Built(w, u, busy[k := s.next], all, roots)
    ensures Built(w, Entered(u, k, s.next), busy, all, roots)
    ensures Kept(s, Entered(u, k, s.next), -1)
    ensures Grown(w, s.actions.Keys, Entered(u, k, s.next).actions.Keys, {k})
  {
    assert Deps(w, k) == RequiredKeys(w, k) + FactKeys(w, k);
    AddedKey(u.actions, k, s.next);
    assert Entered(u, k, s.next).actions == u.actions[k := s.next];
    assert Begun(w, s, k).actions == s.actions;
    hide Deps, Built, Kept, Linked, Grown, Closed, Begun, Entered, FactKeys, RequiredKeys;
    LinkedThen(Begun(w, s, k), t, u, s.next, RequiredKeys(w, k), FactKeys(w, k));
    DepsElems(w, k);
    GrownThen(w, s.actions.Keys, t.actions.Keys, u.actions.Keys, Elems(RequiredKeys(w, k)), Elems(FactKeys(w, k)));
    BuiltClosed(w, u, busy[k := s.next], all, roots);
    GrownNode(w, s.actions.Keys, u.actions.Keys, k);
    FinishedSlot(w, s, u, k);
    EnteredBuilt(w, u, busy, all, roots, k, s.next);
    KeptEntered(w, s, u, busy, all, roots, k);
  }

  lemma AddedKey(m: map<Key, nat>, k: Key, i: nat)
    ensures m[k := i].Keys == m.Keys + {k}
  {
  }

  lemma LinkedKey(s: State, t: State, act: nat, keys: seq<Key>)
    requires Linked(s, t, act, keys) && t.next <= |t.slots|
    ensures act < t.next && t.slots[act].key == s.slots[act].key
  {
  }

  lemma BuiltClosed(w: World, s: State, busy: map<Key, nat>, all: set<Key>, roots: set<Key>)
    requires Built(w, s, busy, all, roots)
    ensures Closed(w, s.actions.Keys)
  {
  }

  lemma FinishedSlot(w: World, s: State, u: State, k: Key)
    requires s.next < |s.slots| && Linked(Begun(w, s, k), u, s.next, Deps(w, k))
    ensures s.next < u.next && s.next < |u.slots|
    ensures DepsDone(u.actions, u.slots[s.next].deps, Deps(w, k))
    ensures u.slots[s.next].key == k && u.slots[s.next].isInitial == u.slots[s.next].needAnalyzeSource == (k.p in w.initial)
  {
    hide Deps;
  }

  lemma KeptEntered(w: World, s: State, u: State, busy: map<Key, nat>, all: set<Key>, roots: set<Key>, k: Key)
    requires s.next < |s.slots| && Linked(Begun(w, s, k), u, s.next, Deps(w, k)) && Kept(s, Begun(w, s, k), -1)
    requires Built(w, u, busy[k := s.next], all, roots)
    ensures Kept(s, Entered(u, k, s.next), -1)
  {
    hide Deps, Closed;
  }

  lemma ElemsSnoc(keys: seq<Key>, i: nat)
    requires i < |keys|
    ensures keys[..i + 1] == keys[..i] + [keys[i]] && keys[i] in Elems(keys)
    ensures Elems(keys[..i + 1]) == Elems(keys[..i]) + {keys[i]}
  {
    assert keys[..i + 1] == keys[..i] + [keys[i]];
  }

  lemma DepsElems(w: World, k: Key)
    ensures Elems(Deps(w, k)) == Elems(RequiredKeys(w, k)) + Elems(FactKeys(w, k))
  {
  }

  lemma ImportIsDep(w: World, k: Key, path: string)
    requires path in w.imports(k.p) && w.usesFacts(k.a)
    ensures Key(k.a, w.imports(k.p)[path]) in ImportKeys(w, k, SortedImports(w, k.p))
    ensures Key(k.a, w.imports(k.p)[path]) in Deps(w, k)
  {
    var paths := SortedImports(w, k.p);
    assert path in Elements(SortedSeq(w.imports(k.p).Keys));
    assert path in paths;
    var i :| 0 <= i < |paths| && paths[i] == path;
    assert ImportKeys(w, k, paths)[i] == Key(k.a, w.imports(k.p)[path]);
  }

  lemma AllImports(w: World, k: Key, keys: set<Key>)
    requires forall path :: path in w.imports(k.p) ==> Key(k.a, w.imports(k.p)[path]) in keys
    requires keys <= Elems(ImportKeys(w, k, SortedImports(w, k.p)))
    ensures keys == Elems(ImportKeys(w, k, SortedImports(w, k.p)))
  {
  }

  // ----- The packages of the actions

  ghost predicate Importing(w: World, p: Pkg, q: Pkg) {
    exists name :: name in w.imports(p) && w.imports(p)[name] == q
  }

  ghost predicate PackagePath(w: World, path: seq<Pkg>, p: Pkg, q: Pkg) {
    && path != [] && path[0] == p && path[|path| - 1] == q
    && forall i :: 0 <= i < |path| - 1 ==> Importing(w, path[i], path[i + 1])
  }

  lemma {:induction false} ReachesPackage(w: World, k: Key, j: Key) returns (path: seq<Pkg>)
    requires Reaches(w, k, j)
    ensures PackagePath(w, path, k.p, j.p)
    decreases Rank(w, k)
  {
    if k == j {
      return [k.p];
    }
    var d :| d in Deps(w, k) && Rank(w, d) < Rank(w, k) && Reaches(w, d, j);
    var rest := ReachesPackage(w, d, j);
    hide Importing, PackagePath, Reaches, RequiredKeys, FactKeys;
    if d in RequiredKeys(w, k) {
      SamePackage(w, k, d);
      path := rest;
    } else {
      NextImported(w, k, d);
      LongerPath(w, rest, k.p, d.p, j.p);
      path := [k.p] + rest;
    }
  }

  lemma LongerPath(w: World, path: seq<Pkg>, p: Pkg, q: Pkg, r: Pkg)
    requires Importing(w, p, q) && PackagePath(w, path, q, r)
    ensures PackagePath(w, [p] + path, p, r)
  {
    hide Importing;
    var longer := [p] + path;
    forall i | 0 <= i < |longer| - 1
      ensures Importing(w, longer[i], longer[i + 1])
    {
      assert i > 0 ==> longer[i] == path[i - 1];
    }
  }

  lemma SamePackage(w: World, k: Key, d: Key)
    requires d in RequiredKeys(w, k)
    ensures d.p == k.p
  {
  }

  lemma NextImported(w: World, k: Key, d: Key)
    requires d in FactKeys(w, k)
    ensures Importing(w, k.p, d.p)
  {
    var paths := SortedImports(w, k.p);
    var i :| 0 <= i < |paths| && ImportKeys(w, k, paths)[i] == d;
    assert paths[i] in w.imports(k.p);
  }

  lemma {:induction false} RootPackage(pkgs: seq<Pkg>, analyzers: seq<Analyzer>, k: Key)
    requires k in RootKeys(pkgs, analyzers)
    ensures k.a in analyzers && k.p in pkgs
  {
    var first := seq(|pkgs|, i requires 0 <= i < |pkgs| => Key(analyzers[0], pkgs[i]));
    if k in first {
      var i :| 0 <= i < |pkgs| && first[i] == k;
    } else {
      RootPackage(pkgs, analyzers[1..], k);
    }
  }

  /** The package of every action is on an import path from an initial package
      that has an action of its own. */
  lemma ActionsFromInitial(w: World, pkgs: seq<Pkg>, analyzers: seq<Analyzer>, built: set<Key>, j: Key)
      returns (root: Key, path: seq<Pkg>)
    requires Grown(w, {}, built, Elems(RootKeys(pkgs, analyzers))) && j in built
    ensures root in built && root.p in pkgs && PackagePath(w, path, root.p, j.p)
  {
    root :| root in Elems(RootKeys(pkgs, analyzers)) && Reaches(w, root, j);
    GrownHas(w, {}, built, Elems(RootKeys(pkgs, analyzers)));
    RootPackage(pkgs, analyzers, root);
    path := ReachesPackage(w, root, j);
  }
}
