/** The request multiplexer of `ProgCache`: many callers share one child
    process, and one reader hands each response to the caller that waits for
    its request ID.

    Callers, the reader and `Close` interleave freely. Each critical section of
    the mutex, each channel operation and each read is one step. */
module ProgCache {

  /** Go's int64. */
  function Wrap(k: int): (r: int)
    ensures -0x8000_0000_0000_0000 <= r < 0x8000_0000_0000_0000
  {
    (k + 0x8000_0000_0000_0000) % 0x1_0000_0000_0000_0000 - 0x8000_0000_0000_0000
  }

  datatype Response = Response(id: int, body: string)

  /** A channel of capacity 1, with the ID it was registered under. */
  datatype Chan = Chan(id: int, buffer: seq<Response>, closed: bool)

  datatype Reader = Reading | Holding(ch: nat, res: Response) | Returned

  datatype Process = Running | Exited | Panicked

  /** `inFlight`: nil once the reader has returned. */
  datatype Table = Nil | Table(m: map<int, nat>)

  datatype Delivery = Delivery(ch: nat, res: Response)

  /** Channel 0 is that of the capability message. The last four fields record
      history: the responses accepted, the sends, the channels whose request
      could not be written, and what callers took. */
  datatype State = State(
    nextID: int,
    table: Table,
    chans: seq<Chan>,
    reader: Reader,
    closing: bool,
    process: Process,
    accepted: seq<Response>,
    sends: seq<Delivery>,
    failed: set<nat>,
    taken: seq<Delivery>)

  const Init := State(0, Table(map[0 := 0]), [Chan(0, [], false)], Reading, false, Running, [], [], {}, [])

  datatype Step =
    | Register              // the first critical section of `writeToChild`
    | WriteFailed(ch: nat)  // its deferred one
    | Decode(res: Response) // the reader reads a response and looks it up
    | Send                  // the reader sends what it holds
    | HangUp                // the reader fails to read
    | StartClose            // `Close`
    | Receive(ch: nat)      // a caller takes its response

  predicate Enabled(s: State, step: Step) {
    s.process == Running &&
    match step
    case Register => s.table.Table?
    case WriteFailed(ch) => 0 < ch < |s.chans|
    case Decode(_) => s.reader.Reading? && s.table.Table?
    case Send => s.reader.Holding? && s.reader.ch < |s.chans| && (s.chans[s.reader.ch].closed || s.chans[s.reader.ch].buffer == [])
    case HangUp => s.reader.Reading? && s.table.Table?
    case StartClose => true
    case Receive(ch) => ch < |s.chans| && s.chans[ch].buffer != []
  }

  /** Closing the channels of `m` one by one closes none of them twice. */
  predicate Closable(m: map<int, nat>, chans: seq<Chan>) {
    && (forall id :: id in m ==> m[id] < |chans| && !chans[m[id]].closed)
    && (forall i, j :: i in m && j in m && m[i] == m[j] ==> i == j)
  }

  predicate Waiting(m: map<int, nat>, ch: nat) {
    exists id :: id in m && m[id] == ch
  }

  function CloseThose(m: map<int, nat>, chans: seq<Chan>): (r: seq<Chan>)
    ensures |r| == |chans|
    ensures forall i :: 0 <= i < |r| ==> r[i] == chans[i].(closed := chans[i].closed || Waiting(m, i))
  {
    seq(|chans|, i requires 0 <= i < |chans| => chans[i].(closed := chans[i].closed || Waiting(m, i)))
  }

  function After(s: State, step: Step): State
    requires Enabled(s, step)
  {
    match step
    case Register =>
      var id := Wrap(s.nextID + 1);
      s.(nextID := id, table := Table(s.table.m[id := |s.chans|]), chans := s.chans + [Chan(id, [], false)])
    case WriteFailed(ch) =>
      s.(failed := s.failed + {ch},
         table := if s.table.Nil? then Nil else Table(s.table.m - {s.chans[ch].id}))
    case Decode(res) =>
      if res.id in s.table.m then
        s.(table := Table(s.table.m - {res.id}), reader := Holding(s.table.m[res.id], res), accepted := s.accepted + [res])
      else s.(process := Exited)
    case Send =>
      var ch, res := s.reader.ch, s.reader.res;
      if s.chans[ch].closed then s.(process := Panicked)
      else s.(reader := Reading,
              chans := s.chans[ch := s.chans[ch].(buffer := s.chans[ch].buffer + [res])],
              sends := s.sends + [Delivery(ch, res)])
    case HangUp =>
      if !s.closing then s.(process := Exited)
      else if !Closable(s.table.m, s.chans) then s.(process := Panicked)
      else s.(table := Nil, reader := Returned, chans := CloseThose(s.table.m, s.chans))
    case StartClose => s.(closing := true)
    case Receive(ch) =>
      s.(chans := s.chans[ch := s.chans[ch].(buffer := s.chans[ch].buffer[1..])],
         taken := s.taken + [Delivery(ch, s.chans[ch].buffer[0])])
  }

  ghost predicate IsRun(s: State, steps: seq<Step>)
    decreases |steps|
  {
    steps == [] || (Enabled(s, steps[0]) && IsRun(After(s, steps[0]), steps[1..]))
  }

  ghost function RunFrom(s: State, steps: seq<Step>): State
    requires IsRun(s, steps)
    decreases |steps|
  {
    if steps == [] then s else RunFrom(After(s, steps[0]), steps[1..])
  }

  // ----- What every step keeps

  ghost predicate SentTo(s: State, ch: nat) {
    exists k :: 0 <= k < |s.sends| && s.sends[k].ch == ch
  }

  ghost predicate HeldFor(s: State, ch: nat) {
    s.reader.Holding? && s.reader.ch == ch
  }

  /** Open, and nothing was sent to it. */
  ghost predicate Untouched(s: State, ch: nat) {
    ch < |s.chans| && !s.chans[ch].closed && s.chans[ch].buffer == [] && !SentTo(s, ch)
  }

  ghost predicate IdsInv(s: State) {
    |s.chans| >= 1 && s.nextID == Wrap(|s.chans| - 1) && (forall i :: 0 <= i < |s.chans| ==> s.chans[i].id == Wrap(i))
  }

  ghost predicate TableInv(s: State) {
    match s.table
    case Nil => s.reader.Returned?
    case Table(m) =>
      && !s.reader.Returned?
      && (forall id :: id in m ==> Untouched(s, m[id]) && !HeldFor(s, m[id]) && s.chans[m[id]].id == id)
  }

  ghost predicate ReaderInv(s: State) {
    match s.reader
    case Holding(ch, res) => Untouched(s, ch) && s.chans[ch].id == res.id
    case Reading => true
    case Returned => true
  }

  ghost predicate SendsInv(s: State) {
    && (forall k :: 0 <= k < |s.sends| ==> s.sends[k].ch < |s.chans| && s.chans[s.sends[k].ch].id == s.sends[k].res.id)
    && (forall j, k :: 0 <= j < k < |s.sends| ==> s.sends[j].ch != s.sends[k].ch)
  }

  ghost predicate BufferInv(s: State) {
    forall ch :: 0 <= ch < |s.chans| && s.chans[ch].buffer != [] ==>
      |s.chans[ch].buffer| == 1 && Delivery(ch, s.chans[ch].buffer[0]) in s.sends
  }

  ghost function Sent(sends: seq<Delivery>): (r: seq<Response>)
    ensures |r| == |sends| && forall k :: 0 <= k < |r| ==> r[k] == sends[k].res
  {
    seq(|sends|, k requires 0 <= k < |sends| => sends[k].res)
  }

  ghost function Held(reader: Reader): seq<Response> {
    if reader.Holding? then [reader.res] else []
  }

  /** While IDs are distinct, a request is waiting, or answered, or closed. */
  ghost predicate Accounted(s: State, ch: nat)
    requires ch < |s.chans|
  {
    || ch in s.failed
    || SentTo(s, ch)
    || HeldFor(s, ch)
    || s.chans[ch].closed
    || (s.table.Table? && s.chans[ch].id in s.table.m && s.table.m[s.chans[ch].id] == ch)
  }

  const MAX_REQUESTS := 0x1_0000_0000_0000_0000

  ghost predicate AccountInv(s: State) {
    |s.chans| <= MAX_REQUESTS ==> forall ch :: 0 <= ch < |s.chans| ==> Accounted(s, ch)
  }

  ghost predicate Inv(s: State) {
    match s
    case State(_, _, _, _, _, process, accepted, sends, _, _) =>
      && process != Panicked
      && IdsInv(s) && TableInv(s) && ReaderInv(s) && SendsInv(s) && BufferInv(s) && AccountInv(s)
      && accepted == Sent(sends) + Held(s.reader)
  }

  lemma WrapInjective(i: nat, j: nat)
    ensures Wrap(i) == Wrap(j) <==> (j - i) % MAX_REQUESTS == 0
  {
    var n := MAX_REQUESTS;
    var a, b := i + 0x8000_0000_0000_0000, j + 0x8000_0000_0000_0000;
    var q := b / n - a / n;
    assert j - i == n * q + (b % n - a % n);
    if a % n == b % n {
      MultipleOf(j - i, q);
    }
  }

  lemma MultipleOf(d: int, q: int)
    requires d == MAX_REQUESTS * q
    ensures d % MAX_REQUESTS == 0
  {
  }

  lemma WrapStep(k: nat)
    ensures Wrap(Wrap(k) + 1) == Wrap(k + 1)
  {
  }

  lemma DistinctIds(s: State, i: nat, j: nat)
    requires IdsInv(s) && |s.chans| <= MAX_REQUESTS && i < |s.chans| && j < |s.chans| && s.chans[i].id == s.chans[j].id
    ensures i == j
  {
    hide Wrap;
    WrapInjective(i, j);
  }

  lemma InitInv()
    ensures Inv(Init)
  {
    assert SendsInv(Init) && BufferInv(Init);
    assert AccountInv(Init) by {
      assert Accounted(Init, 0);
    }
    assert TableInv(Init) && IdsInv(Init);
    hide SendsInv, BufferInv, AccountInv, TableInv, IdsInv;
  }

  lemma RegisterKeepsInv(s: State)
    requires Inv(s) && Enabled(s, Register)
    ensures Inv(After(s, Register))
  {
    var t := After(s, Register);
    WrapStep(|s.chans| - 1);
    hide Wrap;
    assert forall ch :: SentTo(s, ch) <==> SentTo(t, ch);
    assert !SentTo(s, |s.chans|);
    assert Untouched(t, |s.chans|);
    forall ch | 0 <= ch < |t.chans| && |t.chans| <= MAX_REQUESTS
      ensures Accounted(t, ch)
    {
      if ch < |s.chans| {
        assert Accounted(s, ch);
        if t.chans[ch].id == t.nextID {
          DistinctIds(t, ch, |s.chans|);
        }
      }
    }
  }

  lemma WriteFailedKeepsInv(s: State, bad: nat)
    requires Inv(s) && Enabled(s, WriteFailed(bad))
    ensures Inv(After(s, WriteFailed(bad)))
  {
    hide Wrap;
    var t := After(s, WriteFailed(bad));
    assert forall ch :: SentTo(s, ch) <==> SentTo(t, ch);
    forall ch | 0 <= ch < |t.chans| && |t.chans| <= MAX_REQUESTS
      ensures Accounted(t, ch)
    {
      assert Accounted(s, ch);
      if t.chans[ch].id == t.chans[bad].id {
        DistinctIds(s, ch, bad);
      }
    }
  }

  lemma DecodeKeepsInv(s: State, res: Response)
    requires Inv(s) && Enabled(s, Decode(res))
    ensures Inv(After(s, Decode(res)))
  {
    hide Wrap;
    var t := After(s, Decode(res));
    assert forall ch :: SentTo(s, ch) <==> SentTo(t, ch);
    forall ch | 0 <= ch < |t.chans| && |t.chans| <= MAX_REQUESTS
      ensures Accounted(t, ch)
    {
      assert Accounted(s, ch);
    }
  }

  lemma SentAfterSend(s: State)
    requires Enabled(s, Send) && !s.chans[s.reader.ch].closed
    ensures forall ch: nat :: SentTo(After(s, Send), ch) <==> SentTo(s, ch) || ch == s.reader.ch
  {
    var t := After(s, Send);
    assert t.sends[|s.sends|] == Delivery(s.reader.ch, s.reader.res);
    forall ch: nat
      ensures SentTo(t, ch) <==> SentTo(s, ch) || ch == s.reader.ch
    {
      if SentTo(s, ch) {
        var k :| 0 <= k < |s.sends| && s.sends[k].ch == ch;
        assert t.sends[k].ch == ch;
      }
    }
  }

  lemma SendKeepsTable(s: State)
    requires Enabled(s, Send) && ReaderInv(s) && TableInv(s)
    ensures TableInv(After(s, Send))
  {
    SentAfterSend(s);
    hide SentTo;
  }

  lemma SendKeepsSends(s: State)
    requires Enabled(s, Send) && ReaderInv(s) && SendsInv(s) && BufferInv(s)
    ensures SendsInv(After(s, Send)) && BufferInv(After(s, Send))
  {
    var t, c := After(s, Send), s.reader.ch;
    assert forall k :: 0 <= k < |s.sends| ==> s.sends[k].ch != c;
    assert Delivery(c, s.reader.res) in t.sends;
    hide SentTo;
    forall ch | 0 <= ch < |t.chans| && t.chans[ch].buffer != []
      ensures |t.chans[ch].buffer| == 1 && Delivery(ch, t.chans[ch].buffer[0]) in t.sends
    {
    }
  }

  lemma SendKeepsAccount(s: State)
    requires Enabled(s, Send) && ReaderInv(s) && AccountInv(s)
    ensures AccountInv(After(s, Send))
  {
    SentAfterSend(s);
    hide SentTo;
    var t := After(s, Send);
    forall ch | 0 <= ch < |t.chans| && |t.chans| <= MAX_REQUESTS
      ensures Accounted(t, ch)
    {
      assert Accounted(s, ch);
    }
  }

  lemma SendKeepsInv(s: State)
    requires Inv(s) && Enabled(s, Send)
    ensures Inv(After(s, Send)) && !s.chans[s.reader.ch].closed
  {
    SendKeepsTable(s);
    SendKeepsSends(s);
    SendKeepsAccount(s);
    hide Wrap, SentTo, TableInv, SendsInv, BufferInv, AccountInv;
  }

  lemma HangUpKeepsInv(s: State)
    requires Inv(s) && Enabled(s, HangUp)
    ensures Inv(After(s, HangUp)) && Closable(s.table.m, s.chans)
  {
    hide Wrap;
    var t := After(s, HangUp);
    assert forall ch :: SentTo(s, ch) <==> SentTo(t, ch);
    forall ch | 0 <= ch < |t.chans| && |t.chans| <= MAX_REQUESTS
      ensures Accounted(t, ch)
    {
      assert Accounted(s, ch);
    }
  }

  lemma ReceiveKeepsInv(s: State, c: nat)
    requires Inv(s) && Enabled(s, Receive(c))
    ensures Inv(After(s, Receive(c)))
  {
    hide Wrap;
    var t := After(s, Receive(c));
    assert forall ch :: SentTo(s, ch) <==> SentTo(t, ch);
    forall ch | 0 <= ch < |t.chans| && |t.chans| <= MAX_REQUESTS
      ensures Accounted(t, ch)
    {
      assert Accounted(s, ch);
    }
  }

  lemma StepKeepsInv(s: State, step: Step)
    requires Inv(s) && Enabled(s, step)
    ensures Inv(After(s, step))
  {
    match step
    case Register => RegisterKeepsInv(s);
    case WriteFailed(ch) => WriteFailedKeepsInv(s, ch);
    case Decode(res) => DecodeKeepsInv(s, res);
    case Send => SendKeepsInv(s);
    case HangUp => HangUpKeepsInv(s);
    case StartClose =>
      var t := After(s, StartClose);
      assert forall ch :: SentTo(s, ch) <==> SentTo(t, ch);
      assert forall ch :: 0 <= ch < |s.chans| && Accounted(s, ch) ==> Accounted(t, ch);
    case Receive(ch) => ReceiveKeepsInv(s, ch);
  }

  lemma {:induction false} RunKeepsInv(s: State, steps: seq<Step>)
    requires Inv(s) && IsRun(s, steps)
    ensures Inv(RunFrom(s, steps))
    decreases |steps|
  {
    hide Enabled, After, Inv;
    if steps != [] {
      StepKeepsInv(s, steps[0]);
      RunKeepsInv(After(s, steps[0]), steps[1..]);
    }
  }

  // ----- Results over whole runs

  /** No run sends on a closed channel or closes one twice; whenever the reader
      holds a response, its channel is open and empty, so the send goes through
      at once. */
  lemma ReaderNeverBlocks(steps: seq<Step>)
    requires IsRun(Init, steps)
    ensures var s := RunFrom(Init, steps);
            && s.process != Panicked
            && (s.reader.Holding? && s.process == Running ==>
                  Enabled(s, Send) && !s.chans[s.reader.ch].closed && s.chans[s.reader.ch].buffer == [])
  {
    InitInv();
    RunKeepsInv(Init, steps);
  }

  /** Each channel is sent to at most once, and with a response that carries
      the ID of its request; what a caller can take is that response. The
      responses sent are those accepted, in order, except one still held. */
  lemma EachRequestAnsweredByItsOwn(steps: seq<Step>)
    requires IsRun(Init, steps)
    ensures var s := RunFrom(Init, steps);
            && (forall j, k :: 0 <= j < k < |s.sends| ==> s.sends[j].ch != s.sends[k].ch)
            && (forall k :: 0 <= k < |s.sends| ==>
                  s.sends[k].ch < |s.chans| && s.sends[k].res.id == s.chans[s.sends[k].ch].id)
            && (forall ch :: 0 <= ch < |s.chans| && s.chans[ch].buffer != [] ==>
                  |s.chans[ch].buffer| == 1 && Delivery(ch, s.chans[ch].buffer[0]) in s.sends)
            && s.accepted == Sent(s.sends) + Held(s.reader)
  {
    InitInv();
    RunKeepsInv(Init, steps);
  }

  /** The IDs of two requests are equal exactly if they are a multiple of 2^64
      requests apart; request 0 is the capability message. */
  lemma IdsRepeatOnlyAfterWrap(steps: seq<Step>, i: nat, j: nat)
    requires IsRun(Init, steps) && i < j < |RunFrom(Init, steps).chans|
    ensures var s := RunFrom(Init, steps);
            s.chans[i].id == s.chans[j].id <==> (j - i) % 0x1_0000_0000_0000_0000 == 0
  {
    InitInv();
    RunKeepsInv(Init, steps);
    WrapInjective(i, j);
    hide Wrap;
  }

  /** Hence, in a run of fewer than 2^64 requests, no two responses are
      accepted under one ID: the second one ends the process. */
  lemma AcceptedIdsDistinct(steps: seq<Step>, j: nat, k: nat)
    requires IsRun(Init, steps) && |RunFrom(Init, steps).chans| <= MAX_REQUESTS
    requires j < k < |RunFrom(Init, steps).accepted|
    ensures var s := RunFrom(Init, steps);
            s.accepted[j].id != s.accepted[k].id
  {
    InitInv();
    RunKeepsInv(Init, steps);
    var s := RunFrom(Init, steps);
    hide IsRun, RunFrom, AccountInv, BufferInv, Wrap;
    var cj := s.sends[j].ch;
    var ck := if k < |s.sends| then s.sends[k].ch else s.reader.ch;
    assert cj != ck by {
      if k == |s.sends| {
        assert !SentTo(s, ck);
      }
    }
    assert s.chans[cj].id == s.accepted[j].id && s.chans[ck].id == s.accepted[k].id;
    if s.chans[cj].id == s.chans[ck].id {
      DistinctIds(s, cj, ck);
    }
  }

  /** Once the reader has returned, no registered request is left without a
      response or a closed channel: in a run of fewer than 2^64 requests every
      request that could be written was answered, or its channel is closed. */
  lemma NobodyLeftWaiting(steps: seq<Step>, ch: nat)
    requires IsRun(Init, steps) && RunFrom(Init, steps).reader.Returned?
    requires ch < |RunFrom(Init, steps).chans| <= MAX_REQUESTS
    ensures var s := RunFrom(Init, steps);
            WriteFailed(ch) in steps || SentTo(s, ch) || s.chans[ch].closed
  {
    InitInv();
    RunKeepsInv(Init, steps);
    InitFull();
    RunKeepsFull(Init, steps);
    assert Accounted(RunFrom(Init, steps), ch);
  }

  // ----- What callers get, and what ends the process

  /** Each caller has taken at most one response, one that was sent to it. */
  ghost predicate TakenInv(s: State) {
    && (forall k :: 0 <= k < |s.taken| ==>
          s.taken[k] in s.sends && s.taken[k].ch < |s.chans| && s.chans[s.taken[k].ch].buffer == [])
    && (forall j, k :: 0 <= j < k < |s.taken| ==> s.taken[j].ch != s.taken[k].ch)
  }

  /** While IDs are distinct, a request that could not be written is not in the
      table. */
  ghost predicate ForgottenInv(s: State) {
    |s.chans| <= MAX_REQUESTS && s.table.Table? ==>
      forall ch :: ch in s.failed ==>
        ch < |s.chans| && !(s.chans[ch].id in s.table.m && s.table.m[s.chans[ch].id] == ch)
  }

  lemma StepKeepsTaken(s: State, step: Step)
    requires Inv(s) && TakenInv(s) && Enabled(s, step)
    ensures TakenInv(After(s, step))
  {
    hide Wrap, AccountInv, TableInv, IdsInv, SendsInv, Closable;
    match step
    case Send =>
      forall k | 0 <= k < |s.taken|
        ensures s.taken[k].ch != s.reader.ch
      {
        var i :| 0 <= i < |s.sends| && s.sends[i] == s.taken[k];
        assert SentTo(s, s.taken[k].ch);
      }
    case Receive(ch) => assert |s.chans[ch].buffer| == 1;
    case _ =>
  }

  lemma StepKeepsForgotten(s: State, step: Step)
    requires Inv(s) && ForgottenInv(s) && Enabled(s, step)
    ensures ForgottenInv(After(s, step))
  {
    hide Wrap, AccountInv, TableInv, SendsInv, BufferInv, Closable;
    var t := After(s, step);
    if step.Register? && |t.chans| <= MAX_REQUESTS {
      RegisterKeepsInv(s);
      forall ch | ch in s.failed
        ensures t.chans[ch].id != t.nextID
      {
        assert t.chans[|s.chans|].id == t.nextID;
        if t.chans[ch].id == t.nextID {
          DistinctIds(t, ch, |s.chans|);
        }
      }
    }
  }

  /** Channels are closed only together with the table. */
  ghost predicate OpenInv(s: State) {
    s.table.Table? ==> forall ch :: 0 <= ch < |s.chans| ==> !s.chans[ch].closed
  }

  lemma StepKeepsOpen(s: State, step: Step)
    requires OpenInv(s) && Enabled(s, step)
    ensures OpenInv(After(s, step))
  {
    hide Wrap;
  }

  ghost predicate Full(s: State) { Inv(s) && TakenInv(s) && ForgottenInv(s) && OpenInv(s) }

  lemma {:induction false} RunKeepsFull(s: State, steps: seq<Step>)
    requires Full(s) && IsRun(s, steps)
    ensures Full(RunFrom(s, steps)) && (RunFrom(s, steps).closing <==> s.closing || StartClose in steps)
    ensures forall ch :: ch in RunFrom(s, steps).failed <==> ch in s.failed || WriteFailed(ch) in steps
    decreases |steps|
  {
    if steps != [] {
      StepKeepsInv(s, steps[0]);
      StepKeepsTaken(s, steps[0]);
      StepKeepsForgotten(s, steps[0]);
      StepKeepsOpen(s, steps[0]);
      assert After(s, steps[0]).closing <==> s.closing || steps[0] == StartClose;
      assert forall ch :: ch in After(s, steps[0]).failed <==> ch in s.failed || steps[0] == WriteFailed(ch);
      hide Enabled, After, Inv, TakenInv, ForgottenInv, OpenInv;
      assert steps == [steps[0]] + steps[1..];
      RunKeepsFull(After(s, steps[0]), steps[1..]);
    }
  }

  lemma InitFull()
    ensures Full(Init)
  {
    InitInv();
  }

  /** What a caller takes was sent to its channel, so it carries the ID of its
      request; and each takes at most one. */
  lemma CallersTakeTheirOwn(steps: seq<Step>, k: nat)
    requires IsRun(Init, steps) && k < |RunFrom(Init, steps).taken|
    ensures var s := RunFrom(Init, steps);
            && s.taken[k].ch < |s.chans| && s.taken[k].res.id == s.chans[s.taken[k].ch].id
            && s.taken[k] in s.sends && forall j :: 0 <= j < k ==> s.taken[j].ch != s.taken[k].ch
  {
    InitFull();
    RunKeepsFull(Init, steps);
  }

  /** In a run of fewer than 2^64 requests, a response is accepted exactly if its
      ID is that of a request that could be written and was not answered yet; any
      other response ends the process. */
  lemma AcceptedIff(steps: seq<Step>, res: Response)
    requires IsRun(Init, steps) && Enabled(RunFrom(Init, steps), Decode(res))
    requires |RunFrom(Init, steps).chans| <= MAX_REQUESTS
    ensures var s := RunFrom(Init, steps);
            && (After(s, Decode(res)).process == Running <==>
                  exists ch :: 0 <= ch < |s.chans| && s.chans[ch].id == res.id && WriteFailed(ch) !in steps && !SentTo(s, ch))
            && (After(s, Decode(res)).process == Exited <==> After(s, Decode(res)).process != Running)
  {
    InitFull();
    RunKeepsFull(Init, steps);
    var s := RunFrom(Init, steps);
    hide IsRun, RunFrom;
    if res.id in s.table.m {
      var ch := s.table.m[res.id];
      assert Untouched(s, ch);
    }
    forall ch | 0 <= ch < |s.chans| && s.chans[ch].id == res.id && WriteFailed(ch) !in steps && !SentTo(s, ch)
      ensures res.id in s.table.m
    {
      assert Accounted(s, ch);
    }
  }

  /** When reading fails, the process ends if nobody called `Close`, and the
      reader returns otherwise. */
  lemma HangUpIff(steps: seq<Step>)
    requires IsRun(Init, steps) && Enabled(RunFrom(Init, steps), HangUp)
    ensures var t := After(RunFrom(Init, steps), HangUp);
            if StartClose in steps then t.process == Running && t.reader == Returned else t.process == Exited
  {
    InitFull();
    RunKeepsFull(Init, steps);
    HangUpKeepsInv(RunFrom(Init, steps));
  }

  // ----- The object

  lemma WaitingAfter(m: map<int, nat>, id: int, ch: nat)
    requires id !in m
    ensures forall i: nat :: Waiting(m[id := ch], i) <==> Waiting(m, i) || i == ch
  {
    forall i: nat
      ensures Waiting(m[id := ch], i) <==> Waiting(m, i) || i == ch
    {
      if Waiting(m, i) {
        var k :| k in m && m[k] == i;
        assert m[id := ch][k] == i;
      }
      assert m[id := ch][id] == ch;
    }
  }

  lemma CloseNext(m: map<int, nat>, done: map<int, nat>, before: seq<Chan>, id: int)
    requires Closable(m, before) && done.Keys <= m.Keys && (forall i :: i in done ==> done[i] == m[i])
    requires id in m && id !in done
    ensures var chans := CloseThose(done, before);
            && m[id] < |chans| && !chans[m[id]].closed
            && chans[m[id] := chans[m[id]].(closed := true)] == CloseThose(done[id := m[id]], before)
  {
    assert !Waiting(done, m[id]);
    WaitingAfter(done, id, m[id]);
    hide Waiting;
    var closed := CloseThose(done, before)[m[id] := CloseThose(done, before)[m[id]].(closed := true)];
    assert |closed| == |CloseThose(done[id := m[id]], before)|;
  }

  lemma AllClosed(m: map<int, nat>, done: map<int, nat>, before: seq<Chan>)
    requires done.Keys == m.Keys && forall i :: i in done ==> done[i] == m[i]
    ensures CloseThose(done, before) == CloseThose(m, before)
  {
    assert forall i: nat :: Waiting(done, i) <==> Waiting(m, i);
  }

  ghost function Member<T>(those: set<T>): (x: T)
    requires those != {}
    ensures x in those
  {
    var x :| x in those; x
  }

  /** The fields of `ProgCache`; the ghost fields keep the history. Sending on
      or closing a closed channel panics, so both demand an open one. */
  class Cache {
    var nextID: int
    var inFlight: Table
    var chans: seq<Chan>
    var reader: Reader
    var closing: bool
    var process: Process
    ghost var accepted: seq<Response>
    ghost var sends: seq<Delivery>
    ghost var failed: set<nat>
    ghost var taken: seq<Delivery>

    ghost function View(): State
      reads this
    {
      State(nextID, inFlight, chans, reader, closing, process, accepted, sends, failed, taken)
    }

    constructor ()
      ensures View() == Init && Inv(View())
    {
      nextID, inFlight, chans := 0, Table(map[0 := 0]), [Chan(0, [], false)];
      reader, closing, process := Reading, false, Running;
      accepted, sends, failed, taken := [], [], {}, [];
      new;
      InitInv();
    }

    method CloseChannel(ch: nat)
      requires ch < |chans| && !chans[ch].closed
      modifies this`chans
      ensures chans == old(chans)[ch := old(chans)[ch].(closed := true)]
    {
      chans := chans[ch := chans[ch].(closed := true)];
    }

    method SendOn(ch: nat, res: Response)
      requires ch < |chans| && !chans[ch].closed && chans[ch].buffer == []
      modifies this`chans
      ensures chans == old(chans)[ch := old(chans)[ch].(buffer := [res])]
    {
      chans := chans[ch := chans[ch].(buffer := [res])];
    }

    /** The first critical section of `writeToChild`. */
    method RegisterRequest() returns (ch: nat, ok: bool)
      requires Inv(View()) && process == Running
      modifies this
      ensures Inv(View())
      ensures ok == old(inFlight).Table?
      ensures if ok then View() == After(old(View()), Register) && ch == |old(chans)| else View() == old(View())
    {
      if inFlight.Nil? {
        return 0, false;
      }
      RegisterKeepsInv(View());
      hide Inv;
      nextID := Wrap(nextID + 1);
      ch, ok := |chans|, true;
      chans := chans + [Chan(nextID, [], false)];
      inFlight := Table(inFlight.m[nextID := ch]);
    }

    /** The deferred critical section, after a failed write. */
    method ForgetRequest(ch: nat)
      requires Inv(View()) && process == Running && 0 < ch < |chans|
      modifies this
      ensures Inv(View()) && View() == After(old(View()), WriteFailed(ch))
    {
      WriteFailedKeepsInv(View(), ch);
      hide Inv;
      if inFlight.Table? {
        inFlight := Table(inFlight.m - {chans[ch].id});
      }
      failed := failed + {ch};
    }

    /** The reader has read a response: it looks up the channel, and sends. */
    method TakeResponse(res: Response)
      requires Inv(View()) && Enabled(View(), Decode(res))
      modifies this
      ensures Inv(View()) && View() == After(old(View()), Decode(res))
    {
      DecodeKeepsInv(View(), res);
      hide Inv;
      if res.id in inFlight.m {
        reader := Holding(inFlight.m[res.id], res);
        inFlight := Table(inFlight.m - {res.id});
        accepted := accepted + [res];
      } else {
        process := Exited;
      }
    }

    method SendHeld()
      requires Inv(View()) && process == Running && reader.Holding?
      modifies this
      ensures Enabled(old(View()), Send)
      ensures Inv(View()) && View() == After(old(View()), Send)
    {
      assert Untouched(View(), reader.ch);
      SendKeepsInv(View());
      hide Inv;
      assert chans[reader.ch].buffer + [reader.res] == [reader.res];
      SendOn(reader.ch, reader.res);
      sends := sends + [Delivery(reader.ch, reader.res)];
      reader := Reading;
    }

    /** Close every channel that is still in flight, in any order. */
    method CloseInFlight()
      requires inFlight.Table? && Closable(inFlight.m, chans)
      modifies this`chans
      ensures chans == CloseThose(inFlight.m, old(chans))
    {
      var m := inFlight.m;
      var todo: set<int> := m.Keys;
      ghost var before := chans;
      ghost var done: map<int, nat> := map[];
      assert chans == CloseThose(done, before);
      hide CloseThose, Waiting;
      while todo != {}
        invariant todo <= m.Keys && done.Keys == m.Keys - todo
        invariant forall id :: id in done ==> done[id] == m[id]
        invariant chans == CloseThose(done, before)
        decreases |todo|
      {
        ghost var some := Member(todo);
        var id :| id in todo;
        CloseNext(m, done, before, id);
        CloseChannel(m[id]);
        todo, done := todo - {id}, done[id := m[id]];
      }
      AllClosed(m, done, before);
    }

    /** The reader cannot read any more. */
    method StopReading()
      requires Inv(View()) && Enabled(View(), HangUp)
      modifies this
      ensures Inv(View()) && View() == After(old(View()), HangUp)
    {
      HangUpKeepsInv(View());
      hide Inv, Closable;
      if closing {
        CloseInFlight();
        inFlight, reader := Nil, Returned;
      } else {
        process := Exited;
      }
    }
  }
}
