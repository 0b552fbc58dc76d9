/** One session of the worker: what it reads, executes and writes. The
    controller may send any lines and stop at any point, and every write and
    every deadline may fail. */
module WorkerSession {
  import opened Options
  import opened WorkerProtocol

  /** The parts of a lifecycle report that are sent. */
  datatype Report = Report(elapsedNS: int, issues: int, analyses: nat, linters: nat, packages: Option<nat>, contextError: string)

  datatype Outcome = Outcome(report: Report, exitCode: int, err: Option<string>)

  datatype Event =
    | Received(e: Envelope) // read, accepted by the decoder and by the session
    | Sent(e: Envelope)
    | Executed(run: Payload, outcome: Outcome)
    | Refused               // a line was read and not accepted

  datatype Exit = Failure | Finished(code: int, err: Option<string>)

  // ----- The script

  predicate GoodHello(line: Line) {
    && line.Record? && ValidateEnvelope(line.e).None? && line.e.kind == Hello
    && line.e.payload.HelloPayload? && "lifecycle" in line.e.payload.capabilities
  }

  predicate GoodRun(line: Line) {
    line.Record? && ValidateEnvelope(line.e).None? && line.e.kind == Run
  }

  predicate GoodShutdown(line: Line) {
    line.Record? && ValidateEnvelope(line.e).None? && line.e.kind == Shutdown
  }

  /** What the controller sends, what the command does, and which of the calls
      on the connection fail. */
  datatype Input = Input(lines: seq<Line>, execute: Payload -> Outcome, fails: nat -> bool)

  const SCRIPT_LENGTH := 8

  function Outcome1(x: Input): Outcome
    requires |x.lines| > 1 && x.lines[1].Record?
  {
    x.execute(x.lines[1].e.payload)
  }

  /** The session gets past stage `i` of the script, if it gets there: hello,
      ready, run, execution, lifecycle, complete, shutdown, acknowledgement. */
  predicate StageOk(x: Input, i: nat) {
    match i
    case 0 => !x.fails(0) && |x.lines| > 0 && GoodHello(x.lines[0])
    case 1 => !x.fails(1)
    case 2 => |x.lines| > 1 && GoodRun(x.lines[1])
    case 3 => !x.fails(2)
    case 4 =>
      && !x.fails(3) && |x.lines| > 1 && x.lines[1].Record?
      && Outcome1(x).report.elapsedNS >= 0 && Outcome1(x).report.issues >= 0
    case 5 =>
      && !x.fails(4) && |x.lines| > 1 && x.lines[1].Record?
      && 0 <= Outcome1(x).exitCode <= 255
    case 6 => !x.fails(5) && |x.lines| > 2 && GoodShutdown(x.lines[2])
    case 7 => !x.fails(6)
    case _ => false
  }

  /** `workerContextError`: the error of the report before that of the run. */
  function ContextError(outcome: Outcome): (r: string)
    ensures outcome.report.contextError != "" ==> r == outcome.report.contextError
    ensures outcome.report.contextError == "" && outcome.err.Some? ==> r == outcome.err.value
    ensures outcome.report.contextError == "" && outcome.err.None? ==> r == ""
  {
    if outcome.report.contextError != "" then outcome.report.contextError
    else if outcome.err.Some? then outcome.err.value else ""
  }

  function Metrics(report: Report): map<string, int> {
    var metrics := map["analyses" := report.analyses, "issues" := report.issues, "linters" := report.linters];
    if report.packages.Some? then metrics["packages" := report.packages.value] else metrics
  }

  predicate ReportsLifecycle(p: Payload, report: Report) {
    && p.LifecyclePayload? && p.lifecycleNS == report.elapsedNS && p.metrics == Metrics(report)
    && p.error == report.contextError && p.state == if p.error == "" then "completed" else "failed"
  }

  /** `event` is an envelope of this kind and number, valid, for this request. */
  predicate SentAs(event: Event, kind: Kind, sequence: nat, requestID: Option<string>) {
    && event.Sent? && event.e.kind == kind && event.e.sequence == Some(sequence) && event.e.requestID == requestID
    && ValidateEnvelope(event.e).None?
  }

  /** `event` is what the script has at stage `i`. */
  predicate Fits(x: Input, event: Event, i: nat) {
    match i
    case 0 => |x.lines| > 0 && x.lines[0].Record? && event == Received(x.lines[0].e)
    case 1 => SentAs(event, Ready, 1, None) && event.e.payload == ReadyPayload("golangci-lint", ["lifecycle"])
    case 2 => |x.lines| > 1 && x.lines[1].Record? && event == Received(x.lines[1].e)
    case 3 => |x.lines| > 1 && x.lines[1].Record? && event == Executed(x.lines[1].e.payload, Outcome1(x))
    case 4 =>
      && |x.lines| > 1 && x.lines[1].Record? && SentAs(event, Lifecycle, 2, x.lines[1].e.requestID)
      && ReportsLifecycle(event.e.payload, Outcome1(x).report)
    case 5 =>
      && |x.lines| > 1 && x.lines[1].Record? && SentAs(event, Complete, 3, x.lines[1].e.requestID)
      && event.e.payload == CompletePayload(Outcome1(x).exitCode, Outcome1(x).report.issues, Outcome1(x).report.elapsedNS,
                                            ContextError(Outcome1(x)))
    case 6 => |x.lines| > 2 && x.lines[2].Record? && event == Received(x.lines[2].e)
    case 7 => SentAs(event, ShutdownAck, 4, None)
    case _ => false
  }

  /** The script up to some stage, all of whose stages were passed. */
  predicate Played(x: Input, log: seq<Event>) {
    |log| <= SCRIPT_LENGTH && forall i :: 0 <= i < |log| ==> StageOk(x, i) && Fits(x, log[i], i)
  }

  /** The number of lines read by stage `i`. */
  function LinesBefore(i: nat): nat { if i == 0 then 0 else if i <= 2 then 1 else if i <= 6 then 2 else 3 }

  /** The session without the line it refused. */
  function Core(log: seq<Event>): seq<Event> {
    if log != [] && log[|log| - 1].Refused? then log[..|log| - 1] else log
  }

  /** A line was read at stage `n` and refused. */
  predicate RefusesAt(x: Input, n: nat) {
    || (n == 0 && !x.fails(0) && |x.lines| > 0)
    || (n == 2 && |x.lines| > 1)
    || (n == 6 && !x.fails(5) && |x.lines| > 2)
  }

  /** The whole session is determined by its input: it goes through the script
      up to the first stage that it does not get past, and refuses a line exactly
      if that stage was reading one. */
  predicate Determined(x: Input, log: seq<Event>) {
    var n := |Core(log)|;
    && Played(x, Core(log))
    && (n < SCRIPT_LENGTH ==> !StageOk(x, n))
    && (|log| > n <==> n < SCRIPT_LENGTH && RefusesAt(x, n))
  }

  lemma PlayStep(x: Input, log: seq<Event>, event: Event)
    requires Played(x, log) && |log| < SCRIPT_LENGTH && StageOk(x, |log|) && Fits(x, event, |log|)
    ensures Played(x, log + [event])
  {
    hide StageOk, Fits;
  }

  lemma NotRefused(x: Input, log: seq<Event>)
    requires Played(x, log)
    ensures Core(log) == log
  {
    hide StageOk;
    if log != [] {
      assert Fits(x, log[|log| - 1], |log| - 1);
    }
  }

  lemma StopsAt(x: Input, log: seq<Event>)
    requires Played(x, log) && |log| < SCRIPT_LENGTH && !StageOk(x, |log|)
    ensures RefusesAt(x, |log|) ==> Determined(x, log + [Refused])
    ensures !RefusesAt(x, |log|) ==> Determined(x, log)
  {
    NotRefused(x, log);
    hide StageOk, Played, RefusesAt;
    assert (log + [Refused])[..|log|] == log;
  }

  lemma Completes(x: Input, log: seq<Event>)
    requires Played(x, log) && |log| == SCRIPT_LENGTH
    ensures Determined(x, log)
  {
    NotRefused(x, log);
  }

  // ----- The session

  class Session {
    const x: Input
    const decoder: Decoder
    var next: nat   // lines read
    var calls: nat  // calls made on the connection
    ghost var log: seq<Event>

    constructor (x: Input)
      ensures this.x == x && log == [] && next == 0 && calls == 0 && fresh(decoder)
    {
      this.x := x;
      decoder := new Decoder();
      next, calls, log := 0, 0, [];
    }

    /** A call on the connection. */
    method Call() returns (ok: bool)
      modifies `calls
      ensures ok == !x.fails(old(calls)) && calls == old(calls) + 1
    {
      ok := !x.fails(calls);
      calls := calls + 1;
    }

    /** `readWorkerEnvelope`: takes exactly the next line, and refuses it if the
        decoder does. */
    method Read() returns (r: Option<Envelope>)
      requires next <= |x.lines|
      modifies `next, decoder
      ensures next == if old(next) < |x.lines| then old(next) + 1 else old(next)
      ensures r.Some? ==> old(next) < |x.lines| && x.lines[old(next)] == Record(r.value) && ValidateEnvelope(r.value).None?
      ensures r.None? && old(next) < |x.lines| ==>
                var line := x.lines[old(next)];
                line.Record? && ValidateEnvelope(line.e).None? ==> IsWorkerEvent(line.e.kind)
    {
      if next >= |x.lines| {
        return None;
      }
      var line := x.lines[next];
      next := next + 1;
      var decoded := decoder.DecodeLine(line);
      if decoded.Err? {
        return None;
      }
      r := Some(decoded.value);
    }

    /** `writeWorkerEnvelope`: an envelope that is not valid is not written. */
    method Write(kind: Kind, requestID: string, sequence: nat, payload: Payload) returns (ok: bool, ghost event: Event)
      requires IsWorkerEvent(kind) && sequence > 0
      modifies `calls
      ensures event == Sent(Made(kind, requestID, sequence, payload))
      ensures ok <==> ValidateEnvelope(event.e).None? && !x.fails(old(calls))
      ensures ok ==> calls == old(calls) + 1
    {
      var e := Made(kind, requestID, sequence, payload);
      event := Sent(e);
      if ValidateEnvelope(e).Some? {
        return false, event;
      }
      ok := Call();
    }

    /** `negotiateWorkerRun`. */
    method Negotiate() returns (r: Option<Envelope>)
      requires next == calls == 0 && log == []
      modifies this, decoder
      ensures r.None? ==> Determined(x, log) && |Core(log)| < SCRIPT_LENGTH && next == LinesRead(log)
      ensures r.Some? ==> Played(x, log) && |log| == 3 && StageOk(x, 3) && next == 2 && calls == 3
      ensures r.Some? ==> |x.lines| > 1 && x.lines[1] == Record(r.value) && GoodRun(x.lines[1])
    {
      hide ValidateEnvelope, Played, Determined;
      EmptyPlayed(x);
      var ok := Call();
      if !ok {
        StopsAt(x, log);
        return None;
      }
      var hello := Read();
      if hello.None? {
        StopsAt(x, log);
        log := if |x.lines| > 0 then log + [Refused] else log;
        return None;
      }
      HelloHasCapabilities(hello.value);
      if !hello.value.kind.Hello? || "lifecycle" !in hello.value.payload.capabilities {
        StopsAt(x, log);
        log := log + [Refused];
        return None;
      }
      PlayStep(x, log, Received(hello.value));
      log := log + [Received(hello.value)];
      r := NegotiateRun();
    }

    method NegotiateRun() returns (r: Option<Envelope>)
      requires next == calls == 1 && |log| == 1 && Played(x, log) && next <= |x.lines|
      modifies this, decoder
      ensures r.None? ==> Determined(x, log) && |Core(log)| < SCRIPT_LENGTH && next == LinesRead(log)
      ensures r.Some? ==> Played(x, log) && |log| == 3 && StageOk(x, 3) && next == 2 && calls == 3
      ensures r.Some? ==> |x.lines| > 1 && x.lines[1] == Record(r.value) && GoodRun(x.lines[1])
    {
      hide Played, Determined;
      var ok, ready := Write(Ready, "", 1, ReadyPayload("golangci-lint", ["lifecycle"]));
      if !ok {
        StopsAt(x, log);
        NotRefused(x, log);
        return None;
      }
      hide ValidateEnvelope;
      PlayStep(x, log, ready);
      log := log + [ready];
      var run := Read();
      NotRefused(x, log);
      if run.None? || !run.value.kind.Run? {
        StopsAt(x, log);
        CoreOfRefused(log);
        log := if |x.lines| > 1 then log + [Refused] else log;
        return None;
      }
      PlayStep(x, log, Received(run.value));
      log := log + [Received(run.value)];
      NotRefused(x, log);
      ok := Call();
      if !ok {
        StopsAt(x, log);
        return None;
      }
      r := run;
    }

    /** `writeWorkerLifecycle`. */
    method WriteLifecycle(requestID: string, report: Report) returns (ok: bool, ghost event: Event)
      requires requestID != ""
      modifies `calls
      ensures ok <==> !x.fails(old(calls)) && report.elapsedNS >= 0 && report.issues >= 0
      ensures ok ==> SentAs(event, Lifecycle, 2, Some(requestID)) && ReportsLifecycle(event.e.payload, report)
      ensures ok ==> calls == old(calls) + 1
    {
      var metrics := map["analyses" := report.analyses, "issues" := report.issues, "linters" := report.linters];
      if report.packages.Some? {
        metrics := metrics["packages" := report.packages.value];
      }
      MetricsValid(report);
      var payload := LifecyclePayload("analysis", if report.contextError != "" then "failed" else "completed",
                                      report.elapsedNS, metrics, report.contextError);
      LifecycleValid(requestID, report, payload);
      hide ValidateEnvelope;
      ok, event := Write(Lifecycle, requestID, 2, payload);
    }

    /** `serveWorker`: the session is the one that its input determines, and it
        succeeds exactly if it gets to the end of the script. */
    method ServeWorker() returns (r: Exit)
      requires next == calls == 0 && log == []
      modifies this, decoder
      ensures Determined(x, log) && next == LinesRead(log)
      ensures r.Finished? <==> forall i :: 0 <= i < SCRIPT_LENGTH ==> StageOk(x, i)
      ensures r.Finished? ==> |x.lines| > 1 && x.lines[1].Record? && r == Finished(Outcome1(x).exitCode, Outcome1(x).err)
    {
      hide ValidateEnvelope, Played, Determined, StageOk;
      var run := Negotiate();
      if run.None? {
        StoppedEarly(x, log);
        return Failure;
      }
      RunHasRequestID(run.value);
      var outcome := x.execute(run.value.payload);
      ExecutedFits(x, run.value);
      PlayStep(x, log, Executed(run.value.payload, outcome));
      log := log + [Executed(run.value.payload, outcome)];
      var ok := Deliver(run.value.requestID.value, outcome);
      if !ok {
        StoppedEarly(x, log);
        return Failure;
      }
      ok := EndSession();
      if ok {
        AllPlayed(x, log);
        return Finished(outcome.exitCode, outcome.err);
      }
      StoppedEarly(x, log);
      r := Failure;
    }

    /** The two results of a run. */
    method Deliver(requestID: string, outcome: Outcome) returns (ok: bool)
      requires |log| == 4 && Played(x, log) && next == 2 && calls == 3
      requires |x.lines| > 1 && x.lines[1].Record? && x.lines[1].e.requestID == Some(requestID) && requestID != "" && outcome == Outcome1(x)
      modifies `log, `calls
      ensures !ok ==> Determined(x, log) && |Core(log)| < SCRIPT_LENGTH && next == LinesRead(log)
      ensures ok ==> Played(x, log) && |log| == 6 && calls == 5
    {
      hide ValidateEnvelope, Played, Determined;
      NotRefused(x, log);
      ghost var lifecycle: Event;
      ghost var complete: Event;
      ok, lifecycle := WriteLifecycle(requestID, outcome.report);
      if !ok {
        StopsAt(x, log);
        return;
      }
      PlayStep(x, log, lifecycle);
      log := log + [lifecycle];
      NotRefused(x, log);
      StageHeld(x, log, 4);
      ok, complete := Write(Complete, requestID, 3,
                            CompletePayload(outcome.exitCode, outcome.report.issues, outcome.report.elapsedNS, ContextError(outcome)));
      CompleteValid(requestID, outcome);
      if !ok {
        StopsAt(x, log);
        return;
      }
      PlayStep(x, log, complete);
      log := log + [complete];
    }

    /** Waits for the shutdown and acknowledges it. */
    method EndSession() returns (ok: bool)
      requires |log| == 6 && Played(x, log) && next == 2 && calls == 5 && |x.lines| > 1
      modifies this, decoder
      ensures !ok ==> Determined(x, log) && |Core(log)| < SCRIPT_LENGTH && next == LinesRead(log)
      ensures ok ==> Played(x, log) && |log| == SCRIPT_LENGTH && next == 3
    {
      hide Played, Determined;
      NotRefused(x, log);
      ok := Call();
      if !ok {
        StopsAt(x, log);
        return;
      }
      var shutdown := Read();
      if shutdown.None? || !shutdown.value.kind.Shutdown? {
        hide ValidateEnvelope;
        StopsAt(x, log);
        CoreOfRefused(log);
        log := if |x.lines| > 2 then log + [Refused] else log;
        return false;
      }
      PlayStep(x, log, Received(shutdown.value));
      log := log + [Received(shutdown.value)];
      NotRefused(x, log);
      ghost var ack: Event;
      ok, ack := Write(ShutdownAck, "", 4, Other);
      if !ok {
        StopsAt(x, log);
        return;
      }
      PlayStep(x, log, ack);
      log := log + [ack];
    }
  }

  function Optional(s: string): Option<string> { if s == "" then None else Some(s) }

  /** `NewEnvelope`, before its check. */
  function Made(kind: Kind, requestID: string, sequence: nat, payload: Payload): Envelope {
    Envelope(VERSION, kind, Optional(requestID), if sequence == 0 then None else Some(sequence), payload)
  }

  /** The lines a session has read. */
  function LinesRead(log: seq<Event>): nat { LinesBefore(|Core(log)|) + |log| - |Core(log)| }

  lemma EmptyPlayed(x: Input)
    ensures Played(x, [])
  {
  }

  lemma CoreOfRefused(log: seq<Event>)
    ensures Core(log + [Refused]) == log
  {
  }

  lemma HelloHasCapabilities(e: Envelope)
    requires ValidateEnvelope(e).None?
    ensures e.kind.Hello? ==> e.payload.HelloPayload?
  {
  }

  lemma RunHasRequestID(e: Envelope)
    requires ValidateEnvelope(e).None? && e.kind.Run?
    ensures e.requestID.Some? && e.requestID.value != ""
  {
  }

  lemma MetricsValid(report: Report)
    ensures (forall name :: name in Metrics(report) ==> name != "" && Metrics(report)[name] >= 0) <==> report.issues >= 0
  {
    assert "issues" in Metrics(report) && Metrics(report)["issues"] == report.issues;
  }

  lemma LifecycleValid(requestID: string, report: Report, p: Payload)
    requires requestID != "" && ReportsLifecycle(p, report) && p.phase == "analysis"
    ensures ValidateEnvelope(Made(Lifecycle, requestID, 2, p)).None? <==> report.elapsedNS >= 0 && report.issues >= 0
  {
    MetricsValid(report);
    hide Metrics;
  }

  lemma CompleteValid(requestID: string, outcome: Outcome)
    requires requestID != "" && outcome.report.issues >= 0 && outcome.report.elapsedNS >= 0
    ensures var p := CompletePayload(outcome.exitCode, outcome.report.issues, outcome.report.elapsedNS, ContextError(outcome));
            ValidateEnvelope(Made(Complete, requestID, 3, p)).None? <==> 0 <= outcome.exitCode <= 255
  {
  }

  lemma ExecutedFits(x: Input, run: Envelope)
    requires |x.lines| > 1 && x.lines[1] == Record(run)
    ensures Fits(x, Executed(run.payload, x.execute(run.payload)), 3)
  {
  }

  lemma StageHeld(x: Input, log: seq<Event>, i: nat)
    requires Played(x, log) && i < |log|
    ensures StageOk(x, i)
  {
  }

  lemma StoppedEarly(x: Input, log: seq<Event>)
    requires Determined(x, log) && |Core(log)| < SCRIPT_LENGTH
    ensures !(forall i :: 0 <= i < SCRIPT_LENGTH ==> StageOk(x, i))
  {
    hide StageOk, Played;
  }

  lemma AllPlayed(x: Input, log: seq<Event>)
    requires Played(x, log) && |log| == SCRIPT_LENGTH
    ensures Determined(x, log) && LinesRead(log) == 3 && forall i :: 0 <= i < SCRIPT_LENGTH ==> StageOk(x, i)
  {
    Completes(x, log);
    NotRefused(x, log);
  }

  // ----- What the script promises

  /** The first, second and third envelope that a session takes in are the first,
      second and third line of its input. */
  lemma ReceivesItsLines(x: Input, log: seq<Event>, i: nat)
    requires Determined(x, log) && i < |log| && log[i].Received?
    ensures i in {0, 2, 6} && LinesBefore(i) == [0, 0, 1, 1, 1, 1, 2][i] < |x.lines|
    ensures x.lines[LinesBefore(i)] == Record(log[i].e)
  {
    hide StageOk;
    assert Core(log)[i] == log[i];
    assert Fits(x, Core(log)[i], i);
  }

  /** The command is executed at most once, after a hello and a run have been
      accepted, with the payload of the second line of the input; and what it
      does is what is reported. */
  lemma ExecutesOnlyAfterRun(x: Input, log: seq<Event>, i: nat)
    requires Determined(x, log) && i < |log| && log[i].Executed?
    ensures i == 3 && |x.lines| > 1 && GoodHello(x.lines[0]) && GoodRun(x.lines[1])
    ensures log[i].run == x.lines[1].e.payload && log[i].outcome == x.execute(x.lines[1].e.payload)
  {
    var core := Core(log);
    assert core[i] == log[i];
    assert Fits(x, core[i], i);
    assert StageOk(x, 0) && StageOk(x, 2);
  }

  ghost function SentOf(log: seq<Event>): seq<Envelope> {
    if log == [] then []
    else SentOf(log[..|log| - 1]) + if log[|log| - 1].Sent? then [log[|log| - 1].e] else []
  }

  /** The envelopes sent are valid and numbered 1, 2, ... */
  lemma {:induction false} SentNumbered(x: Input, log: seq<Event>)
    requires Played(x, log)
    ensures var s := SentOf(log);
            && |s| == (if |log| < 2 then 0 else if |log| < 5 then 1 else if |log| == 5 then 2 else if |log| < 8 then 3 else 4)
            && forall i :: 0 <= i < |s| ==> ValidateEnvelope(s[i]).None? && s[i].sequence == Some(i + 1)
  {
    hide ValidateEnvelope, StageOk, ReportsLifecycle;
    if log != [] {
      var n := |log| - 1;
      assert Fits(x, log[n], n);
      assert Played(x, log[..n]);
      SentNumbered(x, log[..n]);
    }
  }

  /** Whatever the controller does, a fresh decoder at its end accepts every
      record the worker sends. */
  lemma ControllerAccepts(x: Input, log: seq<Event>)
    requires Determined(x, log)
    ensures AllAccepted(0, SentOf(log))
  {
    hide ValidateEnvelope, StageOk, Fits;
    var core := Core(log);
    SentNumbered(x, core);
    assert SentOf(log) == SentOf(core);
    IncreasingAccepted(SentOf(core));
  }

  /** With a good hello, run and shutdown, calls that do not fail and an outcome
      that can be reported, the session succeeds. */
  lemma GoodInputFinishes(x: Input)
    requires |x.lines| > 2 && GoodHello(x.lines[0]) && GoodRun(x.lines[1]) && GoodShutdown(x.lines[2])
    requires forall i :: 0 <= i < 7 ==> !x.fails(i)
    requires var o := Outcome1(x); 0 <= o.exitCode <= 255 && o.report.elapsedNS >= 0 && o.report.issues >= 0
    ensures forall i :: 0 <= i < SCRIPT_LENGTH ==> StageOk(x, i)
  {
    hide ValidateEnvelope;
  }
}
