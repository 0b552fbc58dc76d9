/** Trimming the disk cache by file times. Several processes share the
    directory, and their file system calls interleave: a trim first looks at an
    entry and then removes it, and a use first looks at a file and then renews
    its time. Times are in nanoseconds. */
module DiskTrim {
  import opened Options

  const SECOND := 1_000_000_000
  const MTIME_INTERVAL := 3600 * SECOND
  const TRIM_INTERVAL := 24 * 3600 * SECOND
  const TRIM_LIMIT := 5 * 24 * 3600 * SECOND

  /** One of the 256 subdirectories of entries, or any other place. */
  datatype Dir = Sub(i: nat) | Elsewhere(dir: string)

  datatype Path = Path(dir: Dir, name: string)

  predicate HasSuffix(name: string, suffix: string) {
    |name| >= |suffix| && name[|name| - |suffix|..] == suffix
  }

  predicate IsEntry(p: Path) {
    p.dir.Sub? && p.dir.i < 256 && (HasSuffix(p.name, "-a") || HasSuffix(p.name, "-d"))
  }

  /** A call that will set the time of `p` to `time`. */
  datatype Stamp = Stamp(p: Path, time: int)

  /** A trim that has found `p` stale and will remove it. */
  datatype Visit = Visit(trim: nat, p: Path)

  /** `files` gives the mtimes; `trimTxt` is the number of seconds in trim.txt,
      if it holds one; `trims` are the start times of all trims that were not
      skipped. `stamps` and `doomed` are the calls that processes have decided
      on and not made yet. `touched` and `written` record history: the last time
      each file was written or marked as used, and the start times of the trims
      that could write trim.txt. `clock` is the time of the last step. */
  datatype State = State(
    files: map<Path, int>,
    trimTxt: Option<int>,
    trims: seq<int>,
    stamps: multiset<Stamp>,
    doomed: set<Visit>,
    touched: map<Path, int>,
    written: seq<int>,
    clock: int)

  /** Every step says when it happens. A write sets the time twice, when the
      data are written and by a call of its own afterwards. */
  datatype Step =
    | Write(p: Path, now: int)                      // a new entry, or new contents of one
    | UseStat(p: Path, now: int)                    // `markUsed` looks at the file
    | SetTime(p: Path, time: int, now: int)         // a process sets the time it has read
    | PutStored(p: Path, now: int)                  // `Put` finds its output in place
    | StartTrim(start: int, wrote: bool, now: int)  // `Trim` up to the cutoff; trim.txt may fail
    | TrimStat(trim: nat, p: Path, now: int)        // a trim looks at one entry
    | Remove(trim: nat, p: Path, now: int)          // and removes it

  /** `skipTrim`, on the contents of trim.txt. */
  predicate SkipTrim(trimTxt: Option<int>, now: int) {
    trimTxt.Some? && -MTIME_INTERVAL < now - trimTxt.value * SECOND < TRIM_INTERVAL
  }

  function Cutoff(now: int): int { now - TRIM_LIMIT - MTIME_INTERVAL }

  /** A trim of time `start` finds `p` stale. */
  predicate Stale(files: map<Path, int>, start: int, p: Path) {
    IsEntry(p) && p in files && files[p] < Cutoff(start)
  }

  predicate Enabled(s: State, step: Step) {
    s.clock <= step.now &&
    match step
    case Write(_, _) => true
    case UseStat(_, _) => true
    case SetTime(p, time, _) => Stamp(p, time) in s.stamps
    case PutStored(p, _) => p in s.files
    case StartTrim(start, wrote, now) => start <= now && (wrote ==> !SkipTrim(s.trimTxt, start))
    case TrimStat(trim, _, _) => trim < |s.trims|
    case Remove(trim, p, _) => Visit(trim, p) in s.doomed
  }

  function Later(touched: map<Path, int>, p: Path, time: int): map<Path, int> {
    if p in touched && touched[p] > time then touched else touched[p := time]
  }

  function After(s: State, step: Step): State
    requires Enabled(s, step)
  {
    match step
    case Write(p, now) =>
      s.(files := s.files[p := now], touched := s.touched[p := now], stamps := s.stamps + multiset{Stamp(p, now)}, clock := now)
    case UseStat(p, now) =>
      if p !in s.files then s.(clock := now)
      else if now - s.files[p] >= MTIME_INTERVAL then s.(stamps := s.stamps + multiset{Stamp(p, now)}, clock := now)
      else s.(touched := s.touched[p := now], clock := now)
    case SetTime(p, time, now) =>
      var rest := s.(stamps := s.stamps - multiset{Stamp(p, time)}, clock := now);
      if p !in s.files then rest
      else rest.(files := s.files[p := time], touched := Later(s.touched, p, time))
    case PutStored(_, now) => s.(clock := now)
    case StartTrim(start, wrote, now) =>
      var t := s.(trims := s.trims + [start], clock := now);
      if wrote then t.(trimTxt := Some(start / SECOND), written := s.written + [start]) else t
    case TrimStat(trim, p, now) =>
      if Stale(s.files, s.trims[trim], p) then s.(doomed := s.doomed + {Visit(trim, p)}, clock := now) else s.(clock := now)
    case Remove(trim, p, now) =>
      s.(files := s.files - {p}, doomed := s.doomed - {Visit(trim, p)}, clock := now)
  }

  predicate IsRun(s: State, steps: seq<Step>)
    decreases |steps|
  {
    steps == [] || (Enabled(s, steps[0]) && IsRun(After(s, steps[0]), steps[1..]))
  }

  function RunFrom(s: State, steps: seq<Step>): State
    requires IsRun(s, steps)
    decreases |steps|
  {
    if steps == [] then s else RunFrom(After(s, steps[0]), steps[1..])
  }

  lemma {:induction false} RunThen(s: State, a: seq<Step>, b: seq<Step>)
    requires IsRun(s, a) && IsRun(RunFrom(s, a), b)
    ensures IsRun(s, a + b) && RunFrom(s, a + b) == RunFrom(RunFrom(s, a), b)
    decreases |a|
  {
    hide Enabled, After;
    if a == [] {
      assert a + b == b;
    } else {
      RunThen(After(s, a[0]), a[1..], b);
      assert (a + b)[1..] == a[1..] + b;
    }
  }

  /** A run of `steps` leads from `s` to `t`. */
  ghost predicate Leads(s: State, steps: seq<Step>, t: State) {
    IsRun(s, steps) && RunFrom(s, steps) == t
  }

  lemma LeadsOne(s: State, step: Step)
    requires Enabled(s, step)
    ensures Leads(s, [step], After(s, step))
  {
    hide Enabled, After;
    var steps, t := [step], After(s, step);
    assert steps[1..] == [];
    assert IsRun(t, steps[1..]) && RunFrom(t, steps[1..]) == t;
    assert IsRun(s, steps);
  }

  lemma LeadsThen(s: State, a: seq<Step>, t: State, step: Step)
    requires Leads(s, a, t) && Enabled(t, step)
    ensures Leads(s, a + [step], After(t, step))
  {
    hide Enabled, After;
    LeadsOne(t, step);
    RunThen(s, a, [step]);
  }

  // ----- What every step keeps

  /** Any cache directory, before anything has happened. */
  ghost predicate Start(s: State) {
    s.touched == map[] && s.trims == [] && s.written == [] && s.stamps == multiset{} && s.doomed == {}
  }

  ghost predicate Inv(s: State) {
    match s
    case State(_, _, trims, stamps, doomed, touched, _, clock) =>
      TrimsOk(trims, clock) && StampsOk(stamps, clock) && TouchedOk(touched, clock) && (forall v :: v in doomed ==> IsEntry(v.p))
  }

  ghost predicate TrimsOk(trims: seq<int>, clock: int) { forall i :: 0 <= i < |trims| ==> trims[i] <= clock }

  ghost predicate StampsOk(stamps: multiset<Stamp>, clock: int) { forall stamp :: stamp in stamps ==> stamp.time <= clock }

  ghost predicate TouchedOk(touched: map<Path, int>, clock: int) { forall p :: p in touched ==> touched[p] <= clock }

  lemma StepKeepsStamps(s: State, step: Step)
    requires StampsOk(s.stamps, s.clock) && Enabled(s, step)
    ensures StampsOk(After(s, step).stamps, step.now)
  {
    hide IsEntry, SkipTrim, Later;
  }

  lemma StepKeepsTouched(s: State, step: Step)
    requires StampsOk(s.stamps, s.clock) && TouchedOk(s.touched, s.clock) && Enabled(s, step)
    ensures TouchedOk(After(s, step).touched, step.now)
  {
    hide IsEntry, SkipTrim;
    if step.SetTime? {
      assert Stamp(step.p, step.time) in s.stamps;
    }
  }

  lemma StepKeepsInv(s: State, step: Step)
    requires Inv(s) && Enabled(s, step)
    ensures Inv(After(s, step))
  {
    StepKeepsStamps(s, step);
    StepKeepsTouched(s, step);
    hide IsEntry, SkipTrim, StampsOk, TouchedOk, Later;
  }

  lemma {:induction false} RunKeepsInv(s: State, steps: seq<Step>)
    requires Inv(s) && IsRun(s, steps)
    ensures Inv(RunFrom(s, steps)) && s.clock <= RunFrom(s, steps).clock
    decreases |steps|
  {
    if steps != [] {
      StepKeepsInv(s, steps[0]);
      assert s.clock <= After(s, steps[0]).clock;
      hide Inv, After, Enabled;
      RunKeepsInv(After(s, steps[0]), steps[1..]);
    }
  }

  // ----- Exactly when a file is safe

  /** Some trim has the path between its look and its removal. */
  ghost predicate Doomed(s: State, p: Path) { exists v :: v in s.doomed && v.p == p }

  /** Some process is about to set the time of `p` to before `limit`. */
  ghost predicate SetBackBefore(s: State, p: Path, limit: int) {
    exists stamp :: stamp in s.stamps && stamp.p == p && stamp.time < limit
  }

  /** Nothing can remove `p` until time `until`. */
  ghost predicate Safe(s: State, p: Path, until: int) {
    match s
    case State(files, _, _, _, _, _, _, clock) =>
      && p in files
      && (IsEntry(p) ==>
            && Cutoff(until) <= clock && Cutoff(until) <= files[p]
            && !Doomed(s, p) && !SetBackBefore(s, p, Cutoff(until)))
  }

  /** Whatever the processes do from `s` on, `p` is there until `until`. */
  ghost predicate KeptUntil(s: State, p: Path, until: int) {
    forall steps :: IsRun(s, steps) && RunFrom(s, steps).clock <= until ==> p in RunFrom(s, steps).files
  }

  lemma FileStays(s: State, p: Path, until: int, step: Step)
    requires Inv(s) && Safe(s, p, until) && Enabled(s, step)
    ensures p in After(s, step).files && (IsEntry(p) ==> Cutoff(until) <= After(s, step).files[p])
  {
    hide IsEntry, SkipTrim, Doomed, SetBackBefore;
    match step
    case Remove(trim, q, _) =>
      if q == p {
        VisitDooms(s, Visit(trim, p));
      }
    case SetTime(q, time, _) =>
      if q == p && IsEntry(p) {
        StampSetsBack(s, Stamp(p, time), Cutoff(until));
      }
    case _ =>
  }

  lemma VisitDooms(s: State, v: Visit)
    requires v in s.doomed
    ensures Doomed(s, v.p)
  {
  }

  lemma StampSetsBack(s: State, stamp: Stamp, limit: int)
    requires stamp in s.stamps
    ensures stamp.time < limit ==> SetBackBefore(s, stamp.p, limit)
  {
  }

  lemma NotDoomedYet(s: State, p: Path, until: int, step: Step)
    requires Inv(s) && Safe(s, p, until) && Enabled(s, step) && step.now <= until && IsEntry(p)
    ensures !Doomed(After(s, step), p)
  {
    hide IsEntry, SkipTrim, SetBackBefore;
    var t := After(s, step);
    if step.TrimStat? {
      assert s.trims[step.trim] <= until;
    }
    assert forall v :: v in t.doomed && v.p == p ==> v in s.doomed;
  }

  lemma NotSetBackYet(s: State, p: Path, until: int, step: Step)
    requires Inv(s) && Safe(s, p, until) && Enabled(s, step) && step.now <= until && IsEntry(p)
    ensures !SetBackBefore(After(s, step), p, Cutoff(until))
  {
    hide IsEntry, SkipTrim, Doomed;
    var t := After(s, step);
    assert forall stamp :: stamp in t.stamps ==> stamp in s.stamps || stamp.time >= s.clock;
  }

  lemma StepKeepsSafe(s: State, p: Path, until: int, step: Step)
    requires Inv(s) && Safe(s, p, until) && Enabled(s, step) && step.now <= until
    ensures Safe(After(s, step), p, until)
  {
    FileStays(s, p, until, step);
    if IsEntry(p) {
      NotDoomedYet(s, p, until, step);
      NotSetBackYet(s, p, until, step);
    }
    assert s.clock <= After(s, step).clock;
    hide Doomed, SetBackBefore, IsEntry, Enabled, After, Inv;
  }

  lemma {:induction false} RunKeepsSafe(s: State, p: Path, until: int, steps: seq<Step>)
    requires Inv(s) && Safe(s, p, until) && IsRun(s, steps) && RunFrom(s, steps).clock <= until
    ensures Safe(RunFrom(s, steps), p, until)
    decreases |steps|
  {
    if steps != [] {
      var t := After(s, steps[0]);
      assert t.clock == steps[0].now;
      StepKeepsInv(s, steps[0]);
      RunKeepsInv(t, steps[1..]);
      StepKeepsSafe(s, p, until, steps[0]);
      hide Inv, After, Enabled, Safe;
      RunKeepsSafe(t, p, until, steps[1..]);
    }
  }

  /** A run to time `until` at the end of which `p` is gone. */
  ghost predicate Loses(s: State, p: Path, until: int, steps: seq<Step>) {
    IsRun(s, steps) && RunFrom(s, steps).clock <= until && p !in RunFrom(s, steps).files
  }

  lemma LosesAfter(s: State, step: Step, p: Path, until: int, steps: seq<Step>)
    requires Enabled(s, step) && Loses(After(s, step), p, until, steps)
    ensures Loses(s, p, until, [step] + steps)
  {
    hide Enabled, After;
    assert ([step] + steps)[1..] == steps;
  }

  /** A stale file can be trimmed. */
  lemma TrimLoses(s: State, p: Path, until: int) returns (steps: seq<Step>)
    requires IsEntry(p) && p in s.files && s.files[p] < Cutoff(until) && s.clock <= until
    ensures Loses(s, p, until, steps)
  {
    hide IsEntry, SkipTrim;
    var n := |s.trims|;
    var start := StartTrim(until, !SkipTrim(s.trimTxt, until), until);
    var s1 := After(s, start);
    var s2 := After(s1, TrimStat(n, p, until));
    assert s1.trims[n] == until;
    assert Visit(n, p) in s2.doomed;
    var s3 := After(s2, Remove(n, p, until));
    assert Loses(s3, p, until, []);
    LosesAfter(s2, Remove(n, p, until), p, until, []);
    LosesAfter(s1, TrimStat(n, p, until), p, until, [Remove(n, p, until)] + []);
    LosesAfter(s, start, p, until, [TrimStat(n, p, until)] + ([Remove(n, p, until)] + []));
    steps := [start] + ([TrimStat(n, p, until)] + ([Remove(n, p, until)] + []));
  }

  lemma UnsafeLoses(s: State, p: Path, until: int) returns (steps: seq<Step>)
    requires !Safe(s, p, until) && s.clock <= until
    ensures Loses(s, p, until, steps)
  {
    hide SkipTrim;
    if p !in s.files {
      steps := [];
    } else if Doomed(s, p) {
      var v :| v in s.doomed && v.p == p;
      var step := Remove(v.trim, p, s.clock);
      assert Loses(After(s, step), p, until, []);
      LosesAfter(s, step, p, until, []);
      steps := [step] + [];
    } else if s.files[p] < Cutoff(until) {
      steps := TrimLoses(s, p, until);
    } else if Cutoff(until) > s.clock {
      var step := Write(p, s.clock);
      var rest := TrimLoses(After(s, step), p, until);
      LosesAfter(s, step, p, until, rest);
      steps := [step] + rest;
    } else {
      var stamp :| stamp in s.stamps && stamp.p == p && stamp.time < Cutoff(until);
      var step := SetTime(p, stamp.time, s.clock);
      assert stamp == Stamp(p, stamp.time);
      var rest := TrimLoses(After(s, step), p, until);
      LosesAfter(s, step, p, until, rest);
      steps := [step] + rest;
    }
  }

  /** The exact condition, for every state, file and time. */
  lemma KeptUntilIff(s: State, p: Path, until: int)
    requires Inv(s) && s.clock <= until
    ensures KeptUntil(s, p, until) <==> Safe(s, p, until)
  {
    if Safe(s, p, until) {
      forall steps | IsRun(s, steps) && RunFrom(s, steps).clock <= until
        ensures p in RunFrom(s, steps).files
      {
        RunKeepsSafe(s, p, until, steps);
      }
    } else {
      var steps := UnsafeLoses(s, p, until);
      hide Safe, Inv;
      assert IsRun(s, steps) && RunFrom(s, steps).clock <= until && p !in RunFrom(s, steps).files;
    }
  }

  // ----- Recently used files

  /** The step counts as a touch of `p`, of the time it gives. */
  predicate Touches(s: State, step: Step, p: Path) {
    match step
    case Write(q, _) => q == p
    case UseStat(q, now) => q == p && p in s.files && now - s.files[p] < MTIME_INTERVAL
    case SetTime(q, _, _) => q == p && p in s.files
    case _ => false
  }

  function TouchTime(step: Step): int { if step.SetTime? then step.time else step.now }

  /** A touch is kept for the limit, whatever happens after it, exactly if at
      that moment no trim has the file between its look and its removal, and
      nobody is about to set its time back by more than an hour. */
  lemma TouchKeptIff(s: State, step: Step, p: Path)
    requires Inv(s) && Enabled(s, step) && Touches(s, step, p) && IsEntry(p)
    requires step.now <= TouchTime(step) + TRIM_LIMIT
    ensures var t, time := After(s, step), TouchTime(step);
            KeptUntil(t, p, time + TRIM_LIMIT) <==> !Doomed(t, p) && !SetBackBefore(t, p, time - MTIME_INTERVAL)
  {
    hide IsEntry, SkipTrim;
    StepKeepsInv(s, step);
    var t, time := After(s, step), TouchTime(step);
    if step.SetTime? {
      assert Stamp(p, step.time) in s.stamps;
    }
    assert p in t.files && time - MTIME_INTERVAL <= t.files[p] && time <= t.clock;
    KeptUntilIff(t, p, time + TRIM_LIMIT);
  }

  /** At the last touch of `p`, each time, `p` was not at risk. */
  ghost predicate NoRace(s: State, steps: seq<Step>, p: Path)
    requires IsRun(s, steps)
    decreases |steps|
  {
    steps == [] ||
    (var t := After(s, steps[0]);
     && (Touches(s, steps[0], p) && p in t.touched && t.touched[p] == TouchTime(steps[0]) ==>
           !Doomed(t, p) && !SetBackBefore(t, p, TouchTime(steps[0]) - MTIME_INTERVAL))
     && NoRace(t, steps[1..], p))
  }

  /** A file touched within the limit is safe until then. */
  ghost predicate RecentIsSafe(s: State, p: Path) {
    p in s.touched && s.clock <= s.touched[p] + TRIM_LIMIT ==> Safe(s, p, s.touched[p] + TRIM_LIMIT)
  }

  lemma StepKeepsRecent(s: State, step: Step, p: Path)
    requires Inv(s) && Enabled(s, step) && RecentIsSafe(s, p)
    requires var t := After(s, step);
             Touches(s, step, p) && p in t.touched && t.touched[p] == TouchTime(step) ==>
               !Doomed(t, p) && !SetBackBefore(t, p, TouchTime(step) - MTIME_INTERVAL)
    ensures RecentIsSafe(After(s, step), p)
  {
    var t := After(s, step);
    if p in t.touched && t.clock <= t.touched[p] + TRIM_LIMIT {
      if Touches(s, step, p) && t.touched[p] == TouchTime(step) {
        TouchedIsSafe(s, step, p);
      } else {
        SameTouch(s, step, p);
        StepKeepsSafe(s, p, s.touched[p] + TRIM_LIMIT, step);
      }
    }
  }

  lemma TouchedIsSafe(s: State, step: Step, p: Path)
    requires Inv(s) && Enabled(s, step) && Touches(s, step, p)
    requires var t := After(s, step); !Doomed(t, p) && !SetBackBefore(t, p, TouchTime(step) - MTIME_INTERVAL)
    ensures Safe(After(s, step), p, TouchTime(step) + TRIM_LIMIT)
  {
    hide IsEntry, SkipTrim, Doomed, SetBackBefore;
    if step.SetTime? {
      assert Stamp(p, step.time) in s.stamps;
    }
  }

  lemma SameTouch(s: State, step: Step, p: Path)
    requires Enabled(s, step) && p in After(s, step).touched
    requires !(Touches(s, step, p) && After(s, step).touched[p] == TouchTime(step))
    ensures p in s.touched && After(s, step).touched[p] == s.touched[p]
  {
    hide IsEntry, SkipTrim;
  }

  lemma {:induction false} RunKeepsRecent(s: State, steps: seq<Step>, p: Path)
    requires Inv(s) && RecentIsSafe(s, p) && IsRun(s, steps) && NoRace(s, steps, p)
    ensures RecentIsSafe(RunFrom(s, steps), p)
    decreases |steps|
  {
    if steps != [] {
      StepKeepsInv(s, steps[0]);
      StepKeepsRecent(s, steps[0], p);
      hide Inv, After, Enabled, RecentIsSafe;
      RunKeepsRecent(After(s, steps[0]), steps[1..], p);
    }
  }

  /** In every run, a file that was written or marked as used within the limit
      is still there, unless it was at risk at the moment of that touch. */
  lemma RecentlyUsedSurvives(s: State, steps: seq<Step>, p: Path)
    requires Start(s) && IsRun(s, steps) && NoRace(s, steps, p)
    requires var t := RunFrom(s, steps); p in t.touched && t.clock - t.touched[p] <= TRIM_LIMIT
    ensures p in RunFrom(s, steps).files
  {
    RunKeepsRecent(s, steps, p);
  }

  // ----- What goes wrong otherwise

  /** A use between the look and the removal of a trim is lost. */
  lemma UsedThenRemoved() returns (s: State, p: Path, steps: seq<Step>)
    ensures Start(s) && IsRun(s, steps) && IsEntry(p) && p in s.files
    ensures var t := RunFrom(s, steps); p in t.touched && t.touched[p] == t.clock && p !in t.files
  {
    p := Path(Sub(0), "00-d");
    var now := 10 * TRIM_LIMIT;
    s := State(map[p := 0], None, [], multiset{}, {}, map[], [], now);
    assert HasSuffix(p.name, "-d");
    assert !SkipTrim(None, now);
    hide IsEntry, SkipTrim, IsRun, RunFrom;
    var s1 := After(s, StartTrim(now, true, now));
    LeadsOne(s, StartTrim(now, true, now));
    steps := [StartTrim(now, true, now)];
    var s2 := After(s1, TrimStat(0, p, now));
    LeadsThen(s, steps, s1, TrimStat(0, p, now));
    steps := steps + [TrimStat(0, p, now)];
    var s3 := After(s2, UseStat(p, now));
    LeadsThen(s, steps, s2, UseStat(p, now));
    steps := steps + [UseStat(p, now)];
    assert Stamp(p, now) in s3.stamps && Visit(0, p) in s2.doomed;
    var s4 := After(s3, SetTime(p, now, now));
    LeadsThen(s, steps, s3, SetTime(p, now, now));
    steps := steps + [SetTime(p, now, now)];
    var s5 := After(s4, Remove(0, p, now));
    LeadsThen(s, steps, s4, Remove(0, p, now));
    steps := steps + [Remove(0, p, now)];
    assert s5.touched[p] == now;
  }

  /** A process that was slow to set a time sets it back behind a later write,
      and the file is trimmed within the limit after that write. */
  lemma SetBackThenTrimmed() returns (s: State, p: Path, steps: seq<Step>)
    ensures Start(s) && IsRun(s, steps) && IsEntry(p) && p in s.files
    ensures var t := RunFrom(s, steps); p in t.touched && t.clock - t.touched[p] <= TRIM_LIMIT && p !in t.files
  {
    p := Path(Sub(0), "00-d");
    var now := 10 * TRIM_LIMIT;
    var later := now + 2 * MTIME_INTERVAL;
    s := State(map[p := 0], None, [], multiset{}, {}, map[], [], now);
    assert HasSuffix(p.name, "-d");
    hide IsEntry, SkipTrim;
    var s1 := After(s, UseStat(p, now));
    LeadsOne(s, UseStat(p, now));
    steps := [UseStat(p, now)];
    var s2 := After(s1, Write(p, later));
    LeadsThen(s, steps, s1, Write(p, later));
    steps := steps + [Write(p, later)];
    assert Stamp(p, now) in s2.stamps;
    var s3 := After(s2, SetTime(p, now, later));
    LeadsThen(s, steps, s2, SetTime(p, now, later));
    steps := steps + [SetTime(p, now, later)];
    var rest := TrimLoses(s3, p, later + TRIM_LIMIT);
    RunThen(s, steps, rest);
    TouchedStays(s3, rest, p);
    steps := steps + rest;
  }

  /** Touches only move forward. */
  lemma {:induction false} TouchedStays(s: State, steps: seq<Step>, p: Path)
    requires IsRun(s, steps) && p in s.touched && Inv(s)
    ensures p in RunFrom(s, steps).touched && RunFrom(s, steps).touched[p] >= s.touched[p]
    decreases |steps|
  {
    if steps != [] {
      var t := After(s, steps[0]);
      assert p in t.touched && t.touched[p] >= s.touched[p] by { hide IsEntry, SkipTrim; }
      StepKeepsInv(s, steps[0]);
      hide Inv, After, Enabled;
      TouchedStays(t, steps[1..], p);
    }
  }

  // ----- `Put` of an output that is stored already

  /** An entry that `Put` finds in place is kept for the limit exactly if its
      mtime was at most an hour old and it was not at risk: `Put` does not renew
      it. */
  lemma PutStoredKeptInState(s: State, p: Path, now: int)
    requires Inv(s) && IsEntry(p) && Enabled(s, PutStored(p, now))
    ensures KeptUntil(After(s, PutStored(p, now)), p, now + TRIM_LIMIT) <==>
            now - s.files[p] <= MTIME_INTERVAL && !Doomed(s, p) && !SetBackBefore(s, p, now - MTIME_INTERVAL)
  {
    hide IsEntry, SkipTrim;
    var t := After(s, PutStored(p, now));
    StepKeepsInv(s, PutStored(p, now));
    KeptUntilIff(t, p, now + TRIM_LIMIT);
    assert Doomed(t, p) <==> Doomed(s, p);
    assert SetBackBefore(t, p, now - MTIME_INTERVAL) <==> SetBackBefore(s, p, now - MTIME_INTERVAL);
  }

  /** A run from any directory that begins with a `Put` of `p`, found there
      with time `mtime`, and ends within the limit. */
  ghost predicate RunAfterPut(s: State, steps: seq<Step>, p: Path, mtime: int, put: int) {
    && Start(s) && p in s.files && s.files[p] == mtime && s.clock == put
    && IsRun(s, steps) && steps != [] && steps[0] == PutStored(p, put)
    && RunFrom(s, steps).clock <= put + TRIM_LIMIT
  }

  /** For every directory and every such run: the output is there at the end
      exactly if its time was at most an hour old when it was put. */
  lemma PutStoredKeptIff(p: Path, mtime: int, put: int)
    requires IsEntry(p)
    ensures (forall s, steps :: RunAfterPut(s, steps, p, mtime, put) ==> p in RunFrom(s, steps).files)
            <==> put - mtime <= MTIME_INTERVAL
  {
    if put - mtime <= MTIME_INTERVAL {
      forall s, steps | RunAfterPut(s, steps, p, mtime, put)
        ensures p in RunFrom(s, steps).files
      {
        PutStoredKeptInState(s, p, put);
      }
    } else {
      var s := State(map[p := mtime], None, [], multiset{}, {}, map[], [], put);
      var step := PutStored(p, put);
      var rest := TrimLoses(After(s, step), p, put + TRIM_LIMIT);
      LosesAfter(s, step, p, put + TRIM_LIMIT, rest);
      var steps := [step] + rest;
      assert RunAfterPut(s, steps, p, mtime, put);
    }
  }

  /** So a trim may delete an output at the very moment after a `Put` of it. */
  lemma PutThenTrimmed() returns (s: State, p: Path, steps: seq<Step>)
    ensures Start(s) && IsRun(s, steps) && IsEntry(p) && p in s.files
    ensures steps != [] && steps[0] == PutStored(p, s.clock) && RunFrom(s, steps).clock == s.clock
    ensures p !in RunFrom(s, steps).files
  {
    p := Path(Sub(0), "00-d");
    assert HasSuffix(p.name, "-d");
    var now := 10 * TRIM_LIMIT;
    s := State(map[p := 0], None, [], multiset{}, {}, map[], [], now);
    var step := PutStored(p, now);
    var rest := TrimLoses(After(s, step), p, now);
    LosesAfter(s, step, p, now, rest);
    steps := [step] + rest;
    RunKeepsInv(s, steps);
  }

  // ----- With prompt processes

  /** No process takes longer than `delay` from reading the clock to setting a
      time or writing trim.txt. */
  ghost predicate Prompt(steps: seq<Step>, delay: nat) {
    forall i :: 0 <= i < |steps| ==>
      && (steps[i].SetTime? ==> steps[i].now - steps[i].time <= delay)
      && (steps[i].StartTrim? ==> steps[i].now - steps[i].start <= delay)
  }

  ghost predicate LagsBelow(s: State, bound: int) {
    forall p :: p in s.touched && p in s.files ==> s.touched[p] - s.files[p] < bound
  }

  lemma StepKeepsLag(s: State, step: Step, delay: nat)
    requires Inv(s) && Enabled(s, step) && LagsBelow(s, MTIME_INTERVAL + delay) && Prompt([step], delay)
    ensures LagsBelow(After(s, step), MTIME_INTERVAL + delay)
  {
    hide IsEntry, SkipTrim;
    assert Prompt([step], delay) && [step][0] == step;
  }

  lemma {:induction false} RunKeepsLag(s: State, steps: seq<Step>, delay: nat)
    requires Inv(s) && LagsBelow(s, MTIME_INTERVAL + delay) && IsRun(s, steps) && Prompt(steps, delay)
    ensures LagsBelow(RunFrom(s, steps), MTIME_INTERVAL + delay)
    decreases |steps|
  {
    if steps != [] {
      assert Prompt([steps[0]], delay) && Prompt(steps[1..], delay);
      StepKeepsInv(s, steps[0]);
      StepKeepsLag(s, steps[0], delay);
      hide Inv, After, Enabled, LagsBelow, Prompt;
      RunKeepsLag(After(s, steps[0]), steps[1..], delay);
    }
  }

  /** The mtime of a file reflects its last use to within an hour and the delay
      of the processes. */
  lemma MtimeLags(s: State, steps: seq<Step>, delay: nat, p: Path)
    requires Start(s) && IsRun(s, steps) && Prompt(steps, delay)
    requires var t := RunFrom(s, steps); p in t.touched && p in t.files
    ensures var t := RunFrom(s, steps); t.touched[p] - t.files[p] < MTIME_INTERVAL + delay
  {
    RunKeepsLag(s, steps, delay);
  }

  /** The trims that wrote trim.txt are far apart, and the last is in it. */
  ghost predicate Rare(s: State) {
    match s
    case State(_, trimTxt, _, _, _, _, written, clock) =>
      && (forall i :: 0 <= i < |written| ==> written[i] <= clock)
      && (written != [] ==> trimTxt == Some(written[|written| - 1] / SECOND))
      && (forall i, j :: 0 <= i < j < |written| ==> written[j] - written[i] > TRIM_INTERVAL - SECOND)
  }

  lemma StepKeepsRare(s: State, step: Step, delay: nat)
    requires Rare(s) && Enabled(s, step) && Prompt([step], delay) && delay < MTIME_INTERVAL
    ensures Rare(After(s, step))
  {
    hide IsEntry;
    assert Prompt([step], delay) && [step][0] == step;
    if step.StartTrim? && step.wrote && s.written != [] {
      var last := s.written[|s.written| - 1];
      assert last - SECOND < last / SECOND * SECOND <= last;
      assert step.start - last / SECOND * SECOND >= TRIM_INTERVAL;
      assert forall i :: 0 <= i < |s.written| ==> s.written[i] <= last;
    }
  }

  lemma {:induction false} RunKeepsRare(s: State, steps: seq<Step>, delay: nat)
    requires Rare(s) && IsRun(s, steps) && Prompt(steps, delay) && delay < MTIME_INTERVAL
    ensures Rare(RunFrom(s, steps))
    decreases |steps|
  {
    if steps != [] {
      assert Prompt([steps[0]], delay) && Prompt(steps[1..], delay);
      StepKeepsRare(s, steps[0], delay);
      hide After, Enabled, Rare, Prompt;
      RunKeepsRare(After(s, steps[0]), steps[1..], delay);
    }
  }

  /** The intervals: an hour, a day and five days. */
  lemma Intervals()
    ensures MTIME_INTERVAL == 3_600_000_000_000 && TRIM_INTERVAL == 86_400_000_000_000 && TRIM_LIMIT == 432_000_000_000_000
  {
  }

  /** The entries: names that end in `-a` or `-d`, in the subdirectories. */
  lemma EntriesMean(p: Path)
    ensures IsEntry(p) <==>
            && p.dir.Sub? && p.dir.i < 256 && |p.name| >= 2 && p.name[|p.name| - 2] == '-'
            && (p.name[|p.name| - 1] == 'a' || p.name[|p.name| - 1] == 'd')
  {
    var n := |p.name|;
    if n >= 2 {
      assert p.name[n - 2..] == [p.name[n - 2], p.name[n - 1]];
    }
  }

  /** In every run: a trim whose clock is a day or more after that of the last
      one that wrote trim.txt is not skipped, and one after it by less than a day
      and the second that trim.txt rounds down is. */
  lemma TrimsDaily(s: State, steps: seq<Step>, now: int)
    requires Start(s) && IsRun(s, steps) && RunFrom(s, steps).written != []
    ensures var t := RunFrom(s, steps);
            var last := t.written[|t.written| - 1];
            && (now - last >= 86_400_000_000_000 ==> !SkipTrim(t.trimTxt, now))
            && (0 <= now - last < 86_400_000_000_000 - 1_000_000_000 ==> SkipTrim(t.trimTxt, now))
  {
    RunKeepsWritten(s, steps);
    var t := RunFrom(s, steps);
    var last := t.written[|t.written| - 1];
    assert last - SECOND < last / SECOND * SECOND <= last;
  }

  /** Without a trim time in trim.txt no trim is skipped. */
  lemma FirstTrim(now: int)
    ensures !SkipTrim(None, now)
  {
  }

  lemma {:induction false} RunKeepsWritten(s: State, steps: seq<Step>)
    requires (s.written != [] ==> s.trimTxt == Some(s.written[|s.written| - 1] / SECOND)) && IsRun(s, steps)
    ensures var t := RunFrom(s, steps); t.written != [] ==> t.trimTxt == Some(t.written[|t.written| - 1] / SECOND)
    decreases |steps|
  {
    if steps != [] {
      var t := After(s, steps[0]);
      assert t.written != [] ==> t.trimTxt == Some(t.written[|t.written| - 1] / SECOND) by { hide IsEntry, SkipTrim; }
      hide After, Enabled;
      RunKeepsWritten(t, steps[1..]);
    }
  }

  /** Trims that could write trim.txt are a day apart, but for the second that
      trim.txt rounds down, if processes are delayed by less than an hour. */
  lemma TrimsAreRare(s: State, steps: seq<Step>, delay: nat, i: nat, j: nat)
    requires Start(s) && IsRun(s, steps) && Prompt(steps, delay) && delay < MTIME_INTERVAL
    requires i < j < |RunFrom(s, steps).written|
    ensures var t := RunFrom(s, steps); t.written[j] - t.written[i] > TRIM_INTERVAL - SECOND
  {
    RunKeepsRare(s, steps, delay);
  }

  // ----- The object

  ghost predicate SameAt(a: map<Path, int>, b: map<Path, int>, p: Path) {
    (p in a <==> p in b) && (p in a ==> a[p] == b[p])
  }

  /** `after` has lost exactly what is stale in `before`. */
  ghost predicate Trimmed(before: map<Path, int>, after: map<Path, int>, start: int, p: Path) {
    if Stale(before, start, p) then p !in after else SameAt(before, after, p)
  }

  /** The directory, with the calls that are under way. Between any two calls of
      a method other processes may do anything, unless it is `alone`. */
  class DiskCache {
    var s: State

    constructor (s: State)
      ensures this.s == s
    {
      this.s := s;
    }

    /** Other processes take any steps. */
    method Others(alone: bool) returns (ghost steps: seq<Step>)
      modifies this
      ensures Leads(old(s), steps, s) && s.clock >= old(s).clock
      ensures old(s).trims <= s.trims
      ensures alone ==> steps == [] && s == old(s)
    {
      steps := [];
      if alone {
        return;
      }
      var moves: seq<Step> := *;
      if IsRun(s, moves) {
        RunGrows(s, moves);
        steps := moves;
        s := RunFrom(s, moves);
      }
    }

    method MarkUsed(p: Path, now: int, alone: bool) returns (ghost steps: seq<Step>)
      requires s.clock <= now
      modifies this
      ensures Leads(old(s), steps, s) && UseStat(p, now) in steps
      ensures alone && p in old(s).files ==> p in s.touched && s.touched[p] >= now
      ensures alone && p in old(s).files ==>
                s.files == old(s).files[p := if now - old(s).files[p] >= MTIME_INTERVAL then now else old(s).files[p]]
    {
      ghost var s0 := s;
      LeadsOne(s, UseStat(p, now));
      steps := [UseStat(p, now)];
      if p !in s.files {
        s := s.(clock := now);
        return;
      }
      if now - s.files[p] < MTIME_INTERVAL {
        s := s.(touched := s.touched[p := now], clock := now);
        return;
      }
      s := s.(stamps := s.stamps + multiset{Stamp(p, now)}, clock := now);
      ghost var more := Others(alone);
      RunThen(s0, steps, more);
      steps := steps + more;
      if Stamp(p, now) in s.stamps {
        LeadsThen(s0, steps, s, SetTime(p, now, s.clock));
        steps := steps + [SetTime(p, now, s.clock)];
        s := After(s, SetTime(p, now, s.clock));
      }
    }

    /** `put`: the output is copied unless it is stored already, and the index
        entry is always written. */
    method Put(output: Path, stored: bool, index: Path, now: int, alone: bool) returns (ghost steps: seq<Step>)
      requires s.clock <= now && (stored ==> output in s.files)
      modifies this
      ensures Leads(old(s), steps, s)
      ensures steps != [] && steps[0] == if stored then PutStored(output, now) else Write(output, now)
      ensures alone ==> s.files == (if stored then old(s).files else old(s).files[output := now])[index := now]
    {
      ghost var s0 := s;
      var first := if stored then PutStored(output, now) else Write(output, now);
      LeadsOne(s, first);
      steps := [first];
      if stored {
        s := s.(clock := now);
      } else {
        s := s.(files := s.files[output := now], touched := s.touched[output := now],
                stamps := s.stamps + multiset{Stamp(output, now)}, clock := now);
      }
      ghost var more := Others(alone);
      RunThen(s0, steps, more);
      steps := steps + more;
      var at := s.clock;
      LeadsThen(s0, steps, s, Write(index, at));
      steps := steps + [Write(index, at)];
      s := s.(files := s.files[index := at], touched := s.touched[index := at], stamps := s.stamps + multiset{Stamp(index, at)});
    }

    /** One name: look, and remove what was stale. */
    method TrimName(p: Path, trim: nat, alone: bool, ghost s0: State, ghost before: seq<Step>) returns (ghost steps: seq<Step>)
      requires IsEntry(p) && trim < |s.trims| && Leads(s0, before, s)
      modifies this
      ensures before <= steps && Leads(s0, steps, s) && old(s).trims <= s.trims && s.clock >= old(s).clock
      ensures alone ==> s.trims == old(s).trims && s.clock == old(s).clock
      ensures alone ==> s.files == if Stale(old(s).files, old(s).trims[trim], p) then old(s).files - {p} else old(s).files
    {
      var look := TrimStat(trim, p, s.clock);
      LeadsThen(s0, before, s, look);
      steps := before + [look];
      if !(p in s.files && s.files[p] < Cutoff(s.trims[trim])) {
        return;
      }
      s := s.(doomed := s.doomed + {Visit(trim, p)});
      ghost var more := Others(alone);
      RunThen(s0, steps, more);
      steps := steps + more;
      if Visit(trim, p) in s.doomed {
        LeadsThen(s0, steps, s, Remove(trim, p, s.clock));
        steps := steps + [Remove(trim, p, s.clock)];
        s := s.(files := s.files - {p}, doomed := s.doomed - {Visit(trim, p)});
      }
    }

    /** One subdirectory. Alone, exactly the stale entries go. */
    method TrimSubdir(dir: nat, trim: nat, alone: bool, ghost s0: State, ghost before: seq<Step>) returns (ghost steps: seq<Step>)
      requires dir < 256 && trim < |s.trims| && Leads(s0, before, s)
      modifies this
      ensures before <= steps && Leads(s0, steps, s) && old(s).trims <= s.trims && s.clock >= old(s).clock
      ensures alone ==> s.trims == old(s).trims
      ensures alone ==> forall p: Path ::
                if p.dir == Sub(dir) then Trimmed(old(s).files, s.files, old(s).trims[trim], p) else SameAt(old(s).files, s.files, p)
    {
      steps := before;
      var names := set p: Path | p in s.files && p.dir == Sub(dir);
      ghost var all, start := s.files, s.trims[trim];
      while names != {}
        invariant before <= steps && Leads(s0, steps, s) && old(s).trims <= s.trims && s.clock >= old(s).clock
        invariant forall p :: p in names ==> p.dir == Sub(dir)
        invariant alone ==> s.trims == old(s).trims
        invariant alone ==> forall p: Path ::
          if p.dir == Sub(dir) && p !in names then Trimmed(all, s.files, start, p) else SameAt(all, s.files, p)
        decreases |names|
      {
        var p :| p in names;
        names := names - {p};
        if !HasSuffix(p.name, "-a") && !HasSuffix(p.name, "-d") {
          continue;
        }
        steps := TrimName(p, trim, alone, s0, steps);
      }
    }

    /** A trim is skipped if trim.txt can be read and says so, or can be written
        and says so by then. Otherwise it is a run of the steps above and, alone,
        removes exactly the entries older than the cutoff. */
    method Trim(now: int, readable: bool, writable: bool, alone: bool) returns (ghost steps: seq<Step>, skipped: bool)
      requires s.clock <= now
      modifies this
      ensures Leads(old(s), steps, s)
      ensures alone ==> (skipped <==> SkipTrim(old(s).trimTxt, now) && (readable || writable))
      ensures alone && skipped ==> s == old(s)
      ensures !skipped ==> exists i :: 0 <= i < |steps| && steps[i].StartTrim? && steps[i].start == now && steps[i].wrote == writable
      ensures alone && !skipped ==> forall p: Path :: Trimmed(old(s).files, s.files, now, p)
    {
      ghost var s0 := s;
      steps := [];
      if readable && SkipTrim(s.trimTxt, now) {
        return [], true;
      }
      steps := Others(alone);
      if writable && SkipTrim(s.trimTxt, now) {
        return steps, true;
      }
      var at := if s.clock < now then now else s.clock;
      LeadsThen(s0, steps, s, StartTrim(now, writable, at));
      ghost var begun := |steps|;
      steps := steps + [StartTrim(now, writable, at)];
      var trim := |s.trims|;
      s := s.(trims := s.trims + [now], clock := at);
      if writable {
        s := s.(trimTxt := Some(now / SECOND), written := s.written + [now]);
      }
      assert s.trims[trim] == now && (alone ==> s.files == s0.files);
      steps := TrimAll(trim, alone, s0, steps);
      skipped := false;
      assert steps[begun].StartTrim?;
    }

    method TrimAll(trim: nat, alone: bool, ghost s0: State, ghost before: seq<Step>) returns (ghost steps: seq<Step>)
      requires trim < |s.trims| && Leads(s0, before, s)
      modifies this
      ensures before <= steps && Leads(s0, steps, s)
      ensures alone ==> forall p: Path :: Trimmed(old(s).files, s.files, old(s).trims[trim], p)
    {
      steps := before;
      ghost var all, start := s.files, s.trims[trim];
      hide Leads, Stale;
      for i := 0 to 256
        invariant before <= steps && Leads(s0, steps, s) && old(s).trims <= s.trims
        invariant alone ==> s.trims == old(s).trims
        invariant alone ==> forall p: Path ::
          if p.dir.Sub? && p.dir.i < i then Trimmed(all, s.files, start, p) else SameAt(all, s.files, p)
      {
        ghost var files := s.files;
        steps := TrimSubdir(i, trim, alone, s0, steps);
        if alone {
          MoreTrimmed(all, files, s.files, start, i);
        }
      }
      if alone {
        AllTrimmed(all, s.files, start);
      }
    }
  }

  lemma MoreTrimmed(all: map<Path, int>, files: map<Path, int>, after: map<Path, int>, start: int, i: nat)
    requires forall p: Path :: if p.dir.Sub? && p.dir.i < i then Trimmed(all, files, start, p) else SameAt(all, files, p)
    requires forall p: Path :: if p.dir == Sub(i) then Trimmed(files, after, start, p) else SameAt(files, after, p)
    ensures forall p: Path :: if p.dir.Sub? && p.dir.i < i + 1 then Trimmed(all, after, start, p) else SameAt(all, after, p)
  {
  }

  lemma AllTrimmed(all: map<Path, int>, files: map<Path, int>, start: int)
    requires forall p: Path :: if p.dir.Sub? && p.dir.i < 256 then Trimmed(all, files, start, p) else SameAt(all, files, p)
    ensures forall p: Path :: Trimmed(all, files, start, p)
  {
  }

  lemma {:induction false} RunGrows(s: State, steps: seq<Step>)
    requires IsRun(s, steps)
    ensures s.trims <= RunFrom(s, steps).trims && s.clock <= RunFrom(s, steps).clock
    decreases |steps|
  {
    if steps != [] {
      var t := After(s, steps[0]);
      assert s.trims <= t.trims && s.clock <= t.clock;
      hide After, Enabled;
      RunGrows(t, steps[1..]);
    }
  }
}
