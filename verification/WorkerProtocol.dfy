/** Envelopes of the worker protocol: which are valid, and the sequence numbers
    that a decoder demands over a connection. A line is taken after its JSON has
    been read; JsonStructure and JsonText are about the text. */
module WorkerProtocol {
  import opened Options

  datatype Kind =
    | Hello | Ready | Run | Cancel | Shutdown | ShutdownAck | Lifecycle | Diagnostic | Complete | Error
    | Unknown(name: string)

  datatype ErrorClass =
    | TooLarge | MalformedJSON | UnsupportedVersion | UnknownKind | InvalidEnvelope | InvalidPayload | InvalidSequence

  datatype Result<+T> = Ok(value: T) | Err(why: ErrorClass)

  /** The payload as the kind it was made for; `Other` is any other object. */
  datatype Payload =
    | HelloPayload(client: string, capabilities: seq<string>)
    | ReadyPayload(worker: string, readyCapabilities: seq<string>)
    | RunPayload(args: seq<string>, workingDirectory: string, environment: map<string, string>)
    | CancelPayload(reason: string)
    | LifecyclePayload(phase: string, state: string, lifecycleNS: int, metrics: map<string, int>, error: string)
    | DiagnosticPayload(linter: string, text: string, path: string, line: int, column: int, severity: string)
    | CompletePayload(exitCode: int, issues: int, elapsedNS: int, contextError: string)
    | ErrorPayload(code: string, message: string, fatal: bool)
    | Other
    | NotAnObject

  datatype Envelope = Envelope(version: int, kind: Kind, requestID: Option<string>, sequence: Option<nat>, payload: Payload)

  /** A line of input: rejected before there is an envelope, or an envelope. */
  datatype Line = Rejected(why: ErrorClass) | Record(e: Envelope)

  const VERSION := 1

  predicate RunScoped(k: Kind) {
    k.Run? || k.Cancel? || k.Lifecycle? || k.Diagnostic? || k.Complete?
  }

  predicate IsWorkerEvent(k: Kind) {
    k.Ready? || k.ShutdownAck? || k.Lifecycle? || k.Diagnostic? || k.Complete? || k.Error?
  }

  /** `validateRouting`, in the order of its checks. */
  function ValidateRouting(e: Envelope): Option<ErrorClass> {
    if e.requestID == Some("") then Some(InvalidEnvelope)
    else if RunScoped(e.kind) && e.requestID.None? then Some(InvalidEnvelope)
    else if !RunScoped(e.kind) && !e.kind.Error? && e.requestID.Some? then Some(InvalidEnvelope)
    else if IsWorkerEvent(e.kind) && (e.sequence.None? || e.sequence.value == 0) then Some(InvalidEnvelope)
    else if !IsWorkerEvent(e.kind) && e.sequence.Some? then Some(InvalidEnvelope)
    else None
  }

  predicate ValidPayload(kind: Kind, p: Payload) {
    !p.NotAnObject? &&
    match kind
    case Hello => p.HelloPayload? && p.client != "" && p.capabilities != []
    case Ready => p.ReadyPayload? && p.worker != "" && p.readyCapabilities != []
    case Run => p.RunPayload? && p.args != [] && p.workingDirectory != ""
    case Cancel => p.CancelPayload? && p.reason != ""
    case Lifecycle =>
      && p.LifecyclePayload? && p.phase != "" && p.state != "" && p.lifecycleNS >= 0
      && forall name :: name in p.metrics ==> name != "" && p.metrics[name] >= 0
    case Diagnostic =>
      && p.DiagnosticPayload? && p.linter != "" && p.text != "" && p.path != "" && p.line >= 1 && p.column >= 1
      && p.severity in {"error", "warning", "info"}
    case Complete => p.CompletePayload? && 0 <= p.exitCode <= 255 && p.issues >= 0 && p.elapsedNS >= 0
    case Error => p.ErrorPayload? && p.code != "" && p.message != ""
    case Shutdown => true
    case ShutdownAck => true
    case Unknown(_) => true
  }

  function ValidateEnvelope(e: Envelope): Option<ErrorClass> {
    if e.version != VERSION then Some(UnsupportedVersion)
    else if e.kind.Unknown? then Some(UnknownKind)
    else if ValidateRouting(e).Some? then ValidateRouting(e)
    else if !ValidPayload(e.kind, e.payload) then Some(InvalidPayload)
    else None
  }

  /** The routing rules in one: which fields each kind must and must not have. */
  predicate WellRouted(e: Envelope) {
    && (e.requestID.Some? ==> e.requestID.value != "" && (RunScoped(e.kind) || e.kind.Error?))
    && (RunScoped(e.kind) ==> e.requestID.Some?)
    && (IsWorkerEvent(e.kind) <==> e.sequence.Some?)
    && (e.sequence.Some? ==> e.sequence.value > 0)
  }

  lemma RoutingMeans(e: Envelope)
    ensures ValidateRouting(e).None? <==> WellRouted(e)
  {
  }

  // ----- The decoder

  /** What a decoder answers to `line` after sequence number `last`. */
  function Decode(last: nat, line: Line): Result<Envelope> {
    match line
    case Rejected(why) => Err(why)
    case Record(e) =>
      if ValidateEnvelope(e).Some? then Err(ValidateEnvelope(e).value)
      else if IsWorkerEvent(e.kind) && e.sequence.Some? && e.sequence.value <= last then Err(InvalidSequence)
      else Ok(e)
  }

  function NextSequence(last: nat, line: Line): nat {
    var r := Decode(last, line);
    if r.Ok? && IsWorkerEvent(r.value.kind) && r.value.sequence.Some? then r.value.sequence.value else last
  }

  class Decoder {
    var lastSequence: nat

    constructor ()
      ensures lastSequence == 0
    {
      lastSequence := 0;
    }

    /** An event is accepted only if its number exceeds all before it; a line
        that is rejected leaves the decoder as it was. */
    method DecodeLine(line: Line) returns (r: Result<Envelope>)
      modifies this
      ensures r == Decode(old(lastSequence), line) && lastSequence == NextSequence(old(lastSequence), line)
      ensures r.Err? ==> lastSequence == old(lastSequence)
      ensures r.Ok? && IsWorkerEvent(r.value.kind) ==>
                r.value.sequence == Some(lastSequence) && lastSequence > old(lastSequence)
    {
      if line.Rejected? {
        return Err(line.why);
      }
      var envelope := line.e;
      var err := ValidateEnvelope(envelope);
      if err.Some? {
        return Err(err.value);
      }
      RoutingMeans(envelope);
      if IsWorkerEvent(envelope.kind) {
        var sequence := envelope.sequence.value;
        if sequence <= lastSequence {
          return Err(InvalidSequence);
        }
        lastSequence := sequence;
      }
      r := Ok(envelope);
    }
  }

  lemma DecodeMeans(last: nat, line: Line)
    ensures var r := Decode(last, line);
            if r.Ok? && IsWorkerEvent(r.value.kind) && r.value.sequence.Some?
            then last < r.value.sequence.value && NextSequence(last, line) == r.value.sequence.value
            else NextSequence(last, line) == last
  {
    hide ValidateEnvelope;
  }

  lemma EventAccepted(last: nat, e: Envelope)
    requires ValidateEnvelope(e).None? && e.sequence.Some? && e.sequence.value > last
    ensures Decode(last, Record(e)) == Ok(e) && NextSequence(last, Record(e)) == e.sequence.value
  {
    RoutingMeans(e);
    hide ValidPayload, ValidateRouting;
  }

  // ----- What is accepted, kind by kind

  /** From the controller: a hello with a client and capabilities, a run with a
      request ID, arguments and a directory, a cancellation with a request ID and
      a reason, and a shutdown; all without a number. */
  lemma ControllerKinds(last: nat, id: Option<string>, n: Option<nat>, p: Payload)
    ensures Decode(last, Record(Envelope(1, Hello, id, n, p))).Ok? <==>
            id.None? && n.None? && p.HelloPayload? && p.client != "" && p.capabilities != []
    ensures Decode(last, Record(Envelope(1, Run, id, n, p))).Ok? <==>
            id.Some? && id.value != "" && n.None? && p.RunPayload? && p.args != [] && p.workingDirectory != ""
    ensures Decode(last, Record(Envelope(1, Cancel, id, n, p))).Ok? <==>
            id.Some? && id.value != "" && n.None? && p.CancelPayload? && p.reason != ""
    ensures Decode(last, Record(Envelope(1, Shutdown, id, n, p))).Ok? <==> id.None? && n.None? && !p.NotAnObject?
  {
  }

  /** From the worker: each of its kinds with a number beyond the last one. */
  lemma WorkerKinds(last: nat, id: Option<string>, n: Option<nat>, p: Payload)
    ensures Decode(last, Record(Envelope(1, Ready, id, n, p))).Ok? <==>
            id.None? && n.Some? && n.value > last && p.ReadyPayload? && p.worker != "" && p.readyCapabilities != []
    ensures Decode(last, Record(Envelope(1, ShutdownAck, id, n, p))).Ok? <==>
            id.None? && n.Some? && n.value > last && !p.NotAnObject?
    ensures Decode(last, Record(Envelope(1, Lifecycle, id, n, p))).Ok? <==>
            && id.Some? && id.value != "" && n.Some? && n.value > last
            && p.LifecyclePayload? && p.phase != "" && p.state != "" && p.lifecycleNS >= 0
            && (forall name :: name in p.metrics ==> name != "" && p.metrics[name] >= 0)
    ensures Decode(last, Record(Envelope(1, Complete, id, n, p))).Ok? <==>
            && id.Some? && id.value != "" && n.Some? && n.value > last
            && p.CompletePayload? && 0 <= p.exitCode <= 255 && p.issues >= 0 && p.elapsedNS >= 0
  {
  }

  lemma DiagnosticKinds(last: nat, id: Option<string>, n: Option<nat>, p: Payload)
    ensures Decode(last, Record(Envelope(1, Diagnostic, id, n, p))).Ok? <==>
            && id.Some? && id.value != "" && n.Some? && n.value > last
            && p.DiagnosticPayload? && p.linter != "" && p.text != "" && p.path != "" && p.line >= 1 && p.column >= 1
            && (p.severity == "error" || p.severity == "warning" || p.severity == "info")
    ensures Decode(last, Record(Envelope(1, Error, id, n, p))).Ok? <==>
            && (id.Some? ==> id.value != "") && n.Some? && n.value > last
            && p.ErrorPayload? && p.code != "" && p.message != ""
  {
  }

  /** No other version and no other kind, with the class of each refusal. */
  lemma OthersRefused(last: nat, e: Envelope)
    ensures e.version != 1 ==> Decode(last, Record(e)) == Err(UnsupportedVersion)
    ensures e.version == 1 && e.kind.Unknown? ==> Decode(last, Record(e)) == Err(UnknownKind)
    ensures Decode(last, Record(e)) == Err(InvalidSequence) ==> e.sequence.Some? && 0 < e.sequence.value <= last
  {
    if ValidateEnvelope(e).None? {
      RoutingMeans(e);
    }
  }

  /** The state of a decoder after `lines`. */
  ghost function LastAfter(last: nat, lines: seq<Line>): nat {
    if lines == [] then last else NextSequence(LastAfter(last, lines[..|lines| - 1]), lines[|lines| - 1])
  }

  /** The numbers of the events accepted among `lines`. */
  ghost function AcceptedSequences(last: nat, lines: seq<Line>): seq<nat> {
    if lines == [] then []
    else
      var init, line := lines[..|lines| - 1], lines[|lines| - 1];
      var r := Decode(LastAfter(last, init), line);
      AcceptedSequences(last, init) +
      if r.Ok? && IsWorkerEvent(r.value.kind) && r.value.sequence.Some? then [r.value.sequence.value] else []
  }

  /** Strictly increasing numbers beyond `last`. */
  ghost predicate Ascending(s: seq<nat>, last: nat) {
    (forall i, j :: 0 <= i < j < |s| ==> s[i] < s[j]) && (forall i :: 0 <= i < |s| ==> last < s[i])
  }

  lemma AscendingSnoc(s: seq<nat>, last: nat, x: nat)
    requires Ascending(s, last) && x > if s == [] then last else s[|s| - 1]
    ensures Ascending(s + [x], last)
  {
  }

  /** Over a whole connection, the accepted numbers strictly increase, from
      beyond the first one, and the decoder remembers the last of them. */
  lemma {:induction false} SequencesIncrease(last: nat, lines: seq<Line>)
    ensures var s := AcceptedSequences(last, lines);
            Ascending(s, last) && LastAfter(last, lines) == if s == [] then last else s[|s| - 1]
  {
    if lines != [] {
      var init, line := lines[..|lines| - 1], lines[|lines| - 1];
      SequencesIncrease(last, init);
      DecodeMeans(LastAfter(last, init), line);
      var r := Decode(LastAfter(last, init), line);
      hide Decode, NextSequence, Ascending;
      if r.Ok? && IsWorkerEvent(r.value.kind) && r.value.sequence.Some? {
        AscendingSnoc(AcceptedSequences(last, init), last, r.value.sequence.value);
      } else {
        assert AcceptedSequences(last, lines) == AcceptedSequences(last, init);
      }
    }
  }

  /** Every line is accepted by a decoder that starts after `last`. */
  ghost predicate AllAccepted(last: nat, sent: seq<Envelope>)
  {
    forall i :: 0 <= i < |sent| ==> Decode(LastAfter(last, Records(sent[..i])), Record(sent[i])) == Ok(sent[i])
  }

  ghost function Records(sent: seq<Envelope>): (r: seq<Line>)
    ensures |r| == |sent| && forall i :: 0 <= i < |r| ==> r[i] == Record(sent[i])
  {
    seq(|sent|, i requires 0 <= i < |sent| => Record(sent[i]))
  }

  lemma RecordsSnoc(sent: seq<Envelope>, k: nat)
    requires 0 < k <= |sent|
    ensures Records(sent[..k]) == Records(sent[..k - 1]) + [Record(sent[k - 1])]
  {
  }

  lemma LastSnoc(last: nat, lines: seq<Line>, line: Line)
    ensures LastAfter(last, lines + [line]) == NextSequence(LastAfter(last, lines), line)
  {
    hide NextSequence;
    assert (lines + [line])[..|lines|] == lines;
  }

  /** Valid events whose numbers increase. */
  ghost predicate IncreasingEvents(sent: seq<Envelope>) {
    && (forall i :: 0 <= i < |sent| ==> ValidateEnvelope(sent[i]).None? && sent[i].sequence.Some?)
    && (forall i, j :: 0 <= i < j < |sent| ==> sent[i].sequence.value < sent[j].sequence.value)
  }

  lemma FirstPositive(sent: seq<Envelope>)
    requires IncreasingEvents(sent) && sent != []
    ensures sent[0].sequence.value > 0
  {
    RoutingMeans(sent[0]);
  }

  ghost function SequenceBefore(sent: seq<Envelope>, k: nat): nat
    requires IncreasingEvents(sent) && k <= |sent|
  {
    if k == 0 then 0 else sent[k - 1].sequence.value
  }

  lemma {:induction false} LastOfIncreasing(sent: seq<Envelope>, k: nat)
    requires IncreasingEvents(sent) && k <= |sent|
    ensures LastAfter(0, Records(sent[..k])) == SequenceBefore(sent, k)
  {
    if k > 0 {
      LastOfIncreasing(sent, k - 1);
      FirstPositive(sent);
      EventAccepted(SequenceBefore(sent, k - 1), sent[k - 1]);
      RecordsSnoc(sent, k);
      LastSnoc(0, Records(sent[..k - 1]), Record(sent[k - 1]));
      hide Decode, NextSequence, ValidateEnvelope, Records, LastAfter, IncreasingEvents;
    }
  }

  /** They are all accepted by a fresh decoder. */
  lemma IncreasingAccepted(sent: seq<Envelope>)
    requires IncreasingEvents(sent)
    ensures AllAccepted(0, sent)
  {
    forall i | 0 <= i < |sent|
      ensures Decode(LastAfter(0, Records(sent[..i])), Record(sent[i])) == Ok(sent[i])
    {
      LastOfIncreasing(sent, i);
      FirstPositive(sent);
      EventAccepted(SequenceBefore(sent, i), sent[i]);
    }
  }
}
