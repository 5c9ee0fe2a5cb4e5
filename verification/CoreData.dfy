// data.py: the circuit breaker and the batch queue of the Core Data client.
module CoreData {
  // ---- Events ----

  // What matters of an event: whether it has a `model_dump` method, and whether
  // the JSON encoder takes it as it is.
  datatype Event = Event(id: string, modelDump: bool, json: bool)

  // The dataclass of transform.py, which has neither.
  predicate SdkEvent(e: Event) { !e.modelDump && !e.json }

  // `send_event` posts the dump of the event. `_send_batch` dumps the events and
  // then posts the events themselves.
  predicate Encodable(e: Event) { e.modelDump }

  predicate BatchEncodable(events: seq<Event>) {
    forall e :: e in events ==> e.modelDump && e.json
  }

  // ---- The breaker by value ----

  datatype Breaker = Breaker(failures: nat, open: bool, lastFailure: real)

  // What a send meets: a token provider that raises, or a service that accepts
  // or refuses a request. The clock is read when the breaker is checked, and
  // again when a failure is recorded.
  datatype Fate = ProviderRaises | Succeeds | Fails

  datatype Attempt = Attempt(checked: real, recorded: real, fate: Fate)

  datatype Send = Send(at: Attempt, encodable: bool)

  datatype Outcome = Raised | Dropped | Delivered | Failed

  const RESET := Breaker(0, false, 0.0)

  predicate LetsThrough(b: Breaker, now: real) {
    !b.open || now - b.lastFailure > 30.0
  }

  // A breaker that lets a request through while open is closed by that.
  function AfterCheck(b: Breaker, now: real): Breaker {
    if b.open && LetsThrough(b, now) then Breaker(0, false, b.lastFailure) else b
  }

  function AfterFailure(b: Breaker, now: real): Breaker {
    Breaker(b.failures + 1, b.open || b.failures + 1 >= 5, now)
  }

  function AfterSuccess(b: Breaker): Breaker {
    Breaker(0, false, b.lastFailure)
  }

  // The payload is built inside the `try`, so what cannot be encoded counts as a
  // failed request.
  function Step(b: Breaker, s: Send): (Breaker, Outcome) {
    if s.at.fate.ProviderRaises? then (b, Raised)
    else if !LetsThrough(b, s.at.checked) then (b, Dropped)
    else if s.encodable && s.at.fate.Succeeds? then (AfterSuccess(AfterCheck(b, s.at.checked)), Delivered)
    else (AfterFailure(AfterCheck(b, s.at.checked), s.at.recorded), Failed)
  }

  function Run(sends: seq<Send>): Breaker {
    if sends == [] then RESET else Step(Run(sends[..|sends| - 1]), sends[|sends| - 1]).0
  }

  function Last(sends: seq<Send>): Outcome
    requires sends != []
  {
    Step(Run(sends[..|sends| - 1]), sends[|sends| - 1]).1
  }

  // When the failures since the last delivery were recorded.
  function FailureTimes(sends: seq<Send>): seq<real> {
    if sends == [] then [] else TimesAfter(FailureTimes(sends[..|sends| - 1]), Last(sends), sends[|sends| - 1])
  }

  function TimesAfter(times: seq<real>, outcome: Outcome, s: Send): seq<real> {
    match outcome
    case Delivered => []
    case Failed => times + [s.at.recorded]
    case _ => times
  }

  // Sequential calls on a clock that does not run backwards.
  predicate Monotone(sends: seq<Send>) {
    && (forall i :: 0 <= i < |sends| ==> sends[i].at.checked <= sends[i].at.recorded)
    && (forall i, j :: 0 <= i < j < |sends| ==> sends[i].at.recorded <= sends[j].at.checked)
  }

  // The circuit is open exactly when five failures are on record.
  lemma {:induction false} OpenIff(sends: seq<Send>)
    ensures Run(sends).open <==> Run(sends).failures >= 5
    ensures Run(sends).failures <= 5
  {
    if sends != [] { OpenIff(sends[..|sends| - 1]); }
  }

  predicate Sorted(times: seq<real>) {
    forall i, j :: 0 <= i < j < |times| ==> times[i] <= times[j]
  }

  // Every fifth gap is longer than half a minute.
  predicate Rests(times: seq<real>) {
    forall i :: 0 < i < |times| && i % 5 == 0 ==> times[i] - times[i - 1] > 30.0
  }

  predicate AllUntil(times: seq<real>, now: real) {
    forall i :: 0 <= i < |times| ==> times[i] <= now
  }

  // How the breaker and the failures on record hang together at a moment.
  predicate Counts(b: Breaker, times: seq<real>, now: real) {
    && b.failures == (if times == [] then 0 else (|times| - 1) % 5 + 1)
    && (b.open <==> b.failures >= 5)
    && (times != [] ==> b.lastFailure == times[|times| - 1])
    && AllUntil(times, now) && Sorted(times) && Rests(times)
  }

  lemma AppendFailure(times: seq<real>, now: real)
    requires Sorted(times) && Rests(times) && AllUntil(times, now)
    requires |times| > 0 && |times| % 5 == 0 ==> now - times[|times| - 1] > 30.0
    ensures Sorted(times + [now]) && Rests(times + [now]) && AllUntil(times + [now], now)
  {
    var longer := times + [now];
    forall i, j | 0 <= i < j < |longer| ensures longer[i] <= longer[j] {
      if j < |times| { assert times[i] <= times[j]; }
    }
    forall i | 0 < i < |longer| && i % 5 == 0 ensures longer[i] - longer[i - 1] > 30.0 {
      if i < |times| { assert times[i] - times[i - 1] > 30.0; }
    }
  }

  lemma NoFailures(now: real)
    ensures Sorted([]) && Rests([]) && AllUntil([], now)
  {
  }

  lemma LaterCounts(b: Breaker, times: seq<real>, now: real, later: real)
    requires Counts(b, times, now) && now <= later
    ensures Counts(b, times, later)
  {
    hide Sorted, Rests;
  }

  lemma FifthRests(b: Breaker, times: seq<real>, now: real, s: Send)
    requires Counts(b, times, now) && now <= s.at.checked <= s.at.recorded && LetsThrough(b, s.at.checked)
    ensures |times| > 0 && |times| % 5 == 0 ==> s.at.recorded - times[|times| - 1] > 30.0
  {
    hide Sorted, Rests, AllUntil;
  }

  lemma FailureCounts(b: Breaker, times: seq<real>, now: real, s: Send)
    requires Counts(b, times, now) && now <= s.at.checked <= s.at.recorded && Step(b, s).1.Failed?
    ensures Counts(Step(b, s).0, times + [s.at.recorded], s.at.recorded)
  {
    LaterCounts(b, times, now, s.at.recorded);
    FifthRests(b, times, now, s);
    AppendFailure(times, s.at.recorded);
    hide Sorted, Rests, AllUntil;
  }

  lemma StepCounts(b: Breaker, times: seq<real>, now: real, s: Send)
    requires Counts(b, times, now) && now <= s.at.checked <= s.at.recorded
    ensures Counts(Step(b, s).0, TimesAfter(times, Step(b, s).1, s), s.at.recorded)
  {
    match Step(b, s).1
    case Failed => FailureCounts(b, times, now, s);
    case Delivered => NoFailures(s.at.recorded);
    case _ => LaterCounts(b, times, now, s.at.recorded);
  }

  function Now(sends: seq<Send>, first: real): real {
    if sends == [] then first else sends[|sends| - 1].at.recorded
  }

  lemma {:induction false} Counted(sends: seq<Send>, first: real)
    requires Monotone(sends)
    ensures Counts(Run(sends), FailureTimes(sends), Now(sends, first))
  {
    if sends == [] {
      NoFailures(first);
    } else {
      var init, last := sends[..|sends| - 1], sends[|sends| - 1];
      Counted(init, last.at.checked);
      StepCounts(Run(init), FailureTimes(init), Now(init, last.at.checked), last);
    }
  }

  lemma {:induction false} SpanOf(times: seq<real>, i: nat, j: nat)
    requires Sorted(times) && Rests(times) && i <= j < |times|
    ensures times[j] - times[i] >= 30.0 * (j / 5 - i / 5) as real
  {
    if i < j {
      SpanOf(times, i, j - 1);
      assert times[j - 1] <= times[j];
    }
  }

  // Without a delivery in between, k failed sends span at least half a minute
  // for every five that went before: no failing service is asked more than
  // five times in thirty seconds for ever.
  lemma FailuresAreSpaced(sends: seq<Send>, i: nat, j: nat)
    requires Monotone(sends) && i <= j < |FailureTimes(sends)|
    ensures FailureTimes(sends)[j] - FailureTimes(sends)[i] >= 30.0 * (j / 5 - i / 5) as real
  {
    Counted(sends, 0.0);
    SpanOf(FailureTimes(sends), i, j);
  }

  // After any run, a send is dropped exactly when five failures are on record
  // and the last of them is not more than thirty seconds old. So a circuit that
  // was left alone for longer lets the next send through.
  lemma DroppedIff(sends: seq<Send>, s: Send)
    requires Monotone(sends) && !s.at.fate.ProviderRaises?
    ensures Step(Run(sends), s).1.Dropped? <==>
      var times := FailureTimes(sends);
      |times| > 0 && |times| % 5 == 0 && s.at.checked - times[|times| - 1] <= 30.0
  {
    hide Step, Counts, FailureTimes, Run;
    Counted(sends, 0.0);
    DroppedWhen(Run(sends), FailureTimes(sends), Now(sends, 0.0), s);
  }

  lemma DroppedWhen(b: Breaker, times: seq<real>, now: real, s: Send)
    requires Counts(b, times, now) && !s.at.fate.ProviderRaises?
    ensures Step(b, s).1.Dropped? <==>
      |times| > 0 && |times| % 5 == 0 && s.at.checked - times[|times| - 1] <= 30.0
  {
    hide Sorted, Rests, AllUntil, AfterCheck, AfterFailure, AfterSuccess;
  }

  // What is let through is delivered exactly when it can be encoded and is
  // accepted, and the record is then empty.
  lemma DeliveredIff(b: Breaker, s: Send)
    ensures var (b', outcome) := Step(b, s);
      && (outcome == Raised <==> s.at.fate.ProviderRaises?)
      && (outcome == Raised || outcome == Dropped ==> b' == b)
      && (outcome != Raised && outcome != Dropped ==>
        (outcome == Delivered <==> s.encodable && s.at.fate.Succeeds?))
      && (outcome == Delivered ==> b'.failures == 0 && !b'.open)
      && (outcome == Failed ==> b'.failures > 0 && b'.lastFailure == s.at.recorded)
  {
  }

  // A batch is encodable exactly when each of its events has a dump and can be
  // encoded as it is.
  lemma BatchEncodableIff(events: seq<Event>, more: seq<Event>, e: Event)
    ensures BatchEncodable([])
    ensures BatchEncodable([e]) <==> e.modelDump && e.json
    ensures BatchEncodable(events + more) <==> BatchEncodable(events) && BatchEncodable(more)
  {
    if BatchEncodable(events + more) {
      forall x | x in events ensures x.modelDump && x.json { assert x in events + more; }
      forall x | x in more ensures x.modelDump && x.json { assert x in events + more; }
    }
  }

  // ---- Breaker and queue together ----

  const MAX_BATCH := 50

  // A batch that left the queue, and what became of it.
  datatype Handed = Handed(batch: seq<Event>, outcome: Outcome)

  datatype Client = Client(breaker: Breaker, pending: seq<Event>, handed: seq<Handed>)

  const IDLE := Client(RESET, [], [])

  datatype Call =
    | SendNow(event: Event, at: Attempt)
    | Enqueue(event: Event, at: Attempt)
    | Flush(at: Attempt)

  function Min(a: int, b: int): int { if a <= b then a else b }

  function NextBatch(c: Client): seq<Event> { c.pending[..Min(|c.pending|, MAX_BATCH)] }

  // Only an exception puts the batch back, at the front.
  function AfterFlush(c: Client, at: Attempt): Client {
    if c.pending == [] then c
    else
      var batch := NextBatch(c);
      var (breaker, outcome) := Step(c.breaker, Send(at, BatchEncodable(batch)));
      if outcome.Raised? then c
      else Client(breaker, c.pending[|batch|..], c.handed + [Handed(batch, outcome)])
  }

  function Queued(c: Client, event: Event): Client { c.(pending := c.pending + [event]) }

  // The client whose queue a call flushes, if it does.
  function Flushes(c: Client, call: Call): (bool, Client) {
    match call
    case SendNow(_, _) => (false, c)
    case Enqueue(event, _) => (|c.pending| + 1 >= MAX_BATCH, Queued(c, event))
    case Flush(_) => (c.pending != [], c)
  }

  function CallStep(c: Client, call: Call): Client {
    match call
    case SendNow(event, at) => c.(breaker := Step(c.breaker, Send(at, Encodable(event))).0)
    case _ => var (flushed, queued) := Flushes(c, call); if flushed then AfterFlush(queued, call.at) else queued
  }

  function ClientRun(calls: seq<Call>): Client {
    if calls == [] then IDLE else CallStep(ClientRun(calls[..|calls| - 1]), calls[|calls| - 1])
  }

  function Enqueued(calls: seq<Call>): seq<Event> {
    if calls == [] then []
    else
      var last := calls[|calls| - 1];
      Enqueued(calls[..|calls| - 1]) + if last.Enqueue? then [last.event] else []
  }

  predicate Loses(outcome: Outcome) { outcome.Dropped? || outcome.Failed? }

  // The events of all batches, of the lost ones, and of the delivered ones.
  function Gone(handed: seq<Handed>): seq<Event> {
    if handed == [] then [] else Gone(handed[..|handed| - 1]) + handed[|handed| - 1].batch
  }

  function Lost(handed: seq<Handed>): seq<Event> {
    if handed == [] then []
    else
      var last := handed[|handed| - 1];
      Lost(handed[..|handed| - 1]) + if Loses(last.outcome) then last.batch else []
  }

  function DeliveredOf(handed: seq<Handed>): seq<Event> {
    if handed == [] then []
    else
      var last := handed[|handed| - 1];
      DeliveredOf(handed[..|handed| - 1]) + if last.outcome.Delivered? then last.batch else []
  }

  predicate Batches(handed: seq<Handed>) {
    forall i :: 0 <= i < |handed| ==> 0 < |handed[i].batch| <= MAX_BATCH && !handed[i].outcome.Raised?
  }

  predicate Conserves(c: Client, enqueued: seq<Event>) {
    Gone(c.handed) + c.pending == enqueued && Batches(c.handed)
  }

  lemma HandedOver(handed: seq<Handed>, h: Handed)
    ensures Gone(handed + [h]) == Gone(handed) + h.batch
    ensures Lost(handed + [h]) == Lost(handed) + if Loses(h.outcome) then h.batch else []
    ensures DeliveredOf(handed + [h]) == DeliveredOf(handed) + if h.outcome.Delivered? then h.batch else []
  {
    assert (handed + [h])[..|handed|] == handed;
  }

  // What left the queue is lost or delivered, and not both.
  lemma {:induction false} LostOrDelivered(handed: seq<Handed>)
    requires Batches(handed)
    ensures multiset(Lost(handed)) + multiset(DeliveredOf(handed)) == multiset(Gone(handed))
  {
    if handed != [] { LostOrDelivered(handed[..|handed| - 1]); }
  }

  // A flush changes nothing, or hands one batch over.
  predicate HandsOver(c: Client, c': Client, h: Handed) {
    && c.pending == h.batch + c'.pending && 0 < |h.batch| <= MAX_BATCH && !h.outcome.Raised?
    && c'.handed == c.handed + [h]
    && (h.outcome.Delivered? ==> BatchEncodable(h.batch))
  }

  lemma FlushHandsOver(c: Client, at: Attempt)
    ensures var batch := NextBatch(c);
      var c', s := AfterFlush(c, at), Send(at, BatchEncodable(batch));
      var outcome := Step(c.breaker, s).1;
      if c.pending == [] || outcome.Raised? then c' == c
      else HandsOver(c, c', Handed(batch, outcome)) && c'.breaker == Step(c.breaker, s).0
  {
    hide BatchEncodable, LetsThrough, AfterCheck, AfterFailure, AfterSuccess;
    assert c.pending == NextBatch(c) + c.pending[|NextBatch(c)|..];
  }

  lemma HandingConserves(c: Client, c': Client, h: Handed, enqueued: seq<Event>)
    requires Conserves(c, enqueued) && HandsOver(c, c', h)
    ensures Conserves(c', enqueued)
  {
    hide BatchEncodable;
    HandedOver(c.handed, h);
  }

  lemma FlushConserves(c: Client, at: Attempt, enqueued: seq<Event>)
    requires Conserves(c, enqueued)
    ensures Conserves(AfterFlush(c, at), enqueued)
  {
    hide Conserves, HandsOver, AfterFlush, Step, NextBatch, BatchEncodable;
    FlushHandsOver(c, at);
    var c', h := AfterFlush(c, at), Handed(NextBatch(c), Step(c.breaker, Send(at, BatchEncodable(NextBatch(c)))).1);
    if HandsOver(c, c', h) { HandingConserves(c, c', h, enqueued); }
  }

  lemma QueuedConserves(c: Client, event: Event, enqueued: seq<Event>)
    requires Conserves(c, enqueued)
    ensures Conserves(Queued(c, event), enqueued + [event])
  {
  }

  lemma CallConserves(c: Client, call: Call, enqueued: seq<Event>)
    requires Conserves(c, enqueued)
    ensures Conserves(CallStep(c, call), enqueued + if call.Enqueue? then [call.event] else [])
  {
    hide AfterFlush, Queued, Step, BatchEncodable;
    match call
    case SendNow(_, _) => assert enqueued + [] == enqueued;
    case Flush(at) =>
      assert enqueued + [] == enqueued;
      FlushConserves(c, at, enqueued);
    case Enqueue(event, at) =>
      QueuedConserves(c, event, enqueued);
      FlushConserves(Queued(c, event), at, enqueued + [event]);
  }

  // Over every run: the batches that left the queue, lost or delivered, followed
  // by what is pending are the enqueued events, in order and once each.
  lemma {:induction false} QueueConserves(calls: seq<Call>)
    ensures var c := ClientRun(calls);
      && Gone(c.handed) + c.pending == Enqueued(calls) && Batches(c.handed)
      && multiset(Lost(c.handed)) + multiset(DeliveredOf(c.handed)) + multiset(c.pending) == multiset(Enqueued(calls))
  {
    RunConserves(calls);
    var c := ClientRun(calls);
    LostOrDelivered(c.handed);
    assert multiset(Gone(c.handed) + c.pending) == multiset(Gone(c.handed)) + multiset(c.pending);
  }

  lemma {:induction false} RunConserves(calls: seq<Call>)
    ensures Conserves(ClientRun(calls), Enqueued(calls))
  {
    if calls != [] {
      RunConserves(calls[..|calls| - 1]);
      CallConserves(ClientRun(calls[..|calls| - 1]), calls[|calls| - 1], Enqueued(calls[..|calls| - 1]));
    }
  }

  // A flush hands over all that is pending, but no more than fifty events.
  lemma FlushTakes(c: Client, at: Attempt)
    ensures var c' := AfterFlush(c, at);
      && (at.fate.ProviderRaises? ==> c' == c)
      && (!at.fate.ProviderRaises? ==> c'.pending == if |c.pending| <= 50 then [] else c.pending[50..])
  {
    hide BatchEncodable;
  }

  // An event is flushed at once from the fiftieth on, and only then.
  lemma EnqueueFlushes(c: Client, event: Event, at: Attempt)
    ensures |c.pending| < 49 ==> CallStep(c, Enqueue(event, at)) == c.(pending := c.pending + [event])
    ensures |c.pending| >= 49 ==>
      CallStep(c, Enqueue(event, at)) == CallStep(c.(pending := c.pending + [event]), Flush(at))
    ensures CallStep(c, SendNow(event, at)).pending == c.pending && CallStep(c, SendNow(event, at)).handed == c.handed
  {
    hide AfterFlush, Step;
  }

  // ---- When events are lost ----

  // The call flushes a queue that is not empty, and the batch is dropped by the
  // open breaker or its request fails.
  predicate LosesAt(calls: seq<Call>, i: nat)
    requires i < |calls|
  {
    LosesBatch(ClientRun(calls[..i]), calls[i])
  }

  predicate LosesBatch(c: Client, call: Call) {
    var (flushed, queued) := Flushes(c, call);
    flushed && Loses(Step(queued.breaker, Send(call.at, BatchEncodable(NextBatch(queued)))).1)
  }

  lemma StepLoses(c: Client, call: Call)
    requires Batches(c.handed)
    ensures Lost(CallStep(c, call).handed) == [] <==> Lost(c.handed) == [] && !LosesBatch(c, call)
  {
    var (flushed, queued) := Flushes(c, call);
    if flushed {
      var batch := NextBatch(queued);
      HandedOver(c.handed, Handed(batch, Step(c.breaker, Send(call.at, BatchEncodable(batch))).1));
    }
  }

  // Nothing is lost exactly when no flush of a queue that is not empty is
  // dropped or fails.
  lemma {:induction false} NothingLostIff(calls: seq<Call>)
    ensures Lost(ClientRun(calls).handed) == [] <==> forall i :: 0 <= i < |calls| ==> !LosesAt(calls, i)
  {
    if calls != [] {
      var n := |calls| - 1;
      var init := calls[..n];
      NothingLostIff(init);
      RunConserves(init);
      StepLoses(ClientRun(init), calls[n]);
      forall i | 0 <= i < n ensures LosesAt(calls, i) <==> LosesAt(init, i) {
        assert calls[..i] == init[..i];
      }
      assert LosesAt(calls, n) <==> LosesBatch(ClientRun(init), calls[n]);
    }
  }

  // Fewer than fifty events only fill the queue.
  lemma {:induction false} Filling(event: Event, at: Attempt, calls: seq<Call>)
    requires |calls| < MAX_BATCH && forall i :: 0 <= i < |calls| ==> calls[i] == Enqueue(event, at)
    ensures var c := ClientRun(calls);
      && c.breaker == RESET && c.handed == [] && |c.pending| == |calls|
      && forall e :: e in c.pending ==> e == event
  {
    if calls != [] { Filling(event, at, calls[..|calls| - 1]); }
  }

  // The request of the fiftieth fails: all fifty are lost.
  lemma FailingFlushLoses(event: Event, at: Attempt, calls: seq<Call>)
    requires at.fate.Fails? && |calls| == MAX_BATCH && forall i :: 0 <= i < |calls| ==> calls[i] == Enqueue(event, at)
    ensures var c := ClientRun(calls);
      c.pending == [] && Lost(c.handed) == Enqueued(calls) && |Lost(c.handed)| == MAX_BATCH
  {
    var init := calls[..|calls| - 1];
    Filling(event, at, init);
    RunConserves(calls);
    var c := Queued(ClientRun(init), event);
    var batch := NextBatch(c);
    assert batch == c.pending;
    HandedOver([], Handed(batch, Failed));
    assert ClientRun(calls).handed == [] + [Handed(batch, Failed)];
  }

  // ---- Events of the SDK ----

  // An event of transform.py is never delivered: past the breaker its encoding
  // raises inside the `try`, which is recorded as a failure.
  lemma SdkSendFails(b: Breaker, e: Event, at: Attempt)
    requires SdkEvent(e)
    ensures var outcome := Step(b, Send(at, Encodable(e))).1;
      && !outcome.Delivered?
      && (outcome.Failed? <==> !at.fate.ProviderRaises? && LetsThrough(b, at.checked))
  {
  }

  predicate AllSdk(calls: seq<Call>) {
    forall i :: 0 <= i < |calls| && !calls[i].Flush? ==> SdkEvent(calls[i].event)
  }

  lemma {:induction false} EnqueuedSdk(calls: seq<Call>)
    requires AllSdk(calls)
    ensures forall e :: e in Enqueued(calls) ==> SdkEvent(e)
  {
    if calls != [] { EnqueuedSdk(calls[..|calls| - 1]); }
  }

  predicate OnlyEncodable(handed: seq<Handed>) {
    forall i :: 0 <= i < |handed| && handed[i].outcome.Delivered? ==> BatchEncodable(handed[i].batch)
  }

  lemma {:induction false} OnlyLost(handed: seq<Handed>)
    requires Batches(handed) && OnlyEncodable(handed) && forall e :: e in Gone(handed) ==> SdkEvent(e)
    ensures DeliveredOf(handed) == [] && Lost(handed) == Gone(handed)
  {
    if handed != [] {
      var last := handed[|handed| - 1];
      OnlyLost(handed[..|handed| - 1]);
      assert last.batch[0] in Gone(handed);
    }
  }

  lemma FlushEncodable(c: Client, at: Attempt)
    requires OnlyEncodable(c.handed)
    ensures OnlyEncodable(AfterFlush(c, at).handed)
  {
    hide AfterFlush, Step, BatchEncodable, NextBatch;
    FlushHandsOver(c, at);
  }

  lemma {:induction false} RunEncodable(calls: seq<Call>)
    ensures OnlyEncodable(ClientRun(calls).handed)
  {
    if calls == [] { return; }
    hide OnlyEncodable, AfterFlush, Step;
    var c, last := ClientRun(calls[..|calls| - 1]), calls[|calls| - 1];
    RunEncodable(calls[..|calls| - 1]);
    FlushEncodable(Flushes(c, last).1, last.at);
  }

  // So over every run of the SDK's own events nothing is ever delivered: the
  // lost events followed by the pending ones are the enqueued ones.
  lemma SdkEventsLost(calls: seq<Call>)
    requires AllSdk(calls)
    ensures var c := ClientRun(calls);
      DeliveredOf(c.handed) == [] && Lost(c.handed) + c.pending == Enqueued(calls)
  {
    RunConserves(calls);
    EnqueuedSdk(calls);
    RunEncodable(calls);
    var c := ClientRun(calls);
    forall e | e in Gone(c.handed) ensures SdkEvent(e) {
      assert e in Gone(c.handed) + c.pending;
    }
    OnlyLost(c.handed);
  }

  // ---- The breaker of such a run ----

  // The sends that the calls make.
  function Sends(calls: seq<Call>): seq<Send> {
    if calls == [] then []
    else
      var init, last := calls[..|calls| - 1], calls[|calls| - 1];
      Sends(init) + SendsOf(ClientRun(init), last)
  }

  function SendsOf(c: Client, call: Call): seq<Send> {
    match call
    case SendNow(event, at) => [Send(at, Encodable(event))]
    case _ =>
      var (flushed, queued) := Flushes(c, call);
      if flushed then [Send(call.at, BatchEncodable(NextBatch(queued)))] else []
  }

  lemma RunAppend(sends: seq<Send>, s: Send)
    ensures Run(sends + [s]) == Step(Run(sends), s).0
  {
    assert (sends + [s])[..|sends|] == sends;
  }

  lemma CallBreaker(c: Client, call: Call)
    ensures var made := SendsOf(c, call);
      && |made| <= 1
      && CallStep(c, call).breaker == if made == [] then c.breaker else Step(c.breaker, made[0]).0
  {
    hide AfterFlush, BatchEncodable, NextBatch, HandsOver;
    if !call.SendNow? { FlushHandsOver(Flushes(c, call).1, call.at); }
  }

  lemma {:induction false} BreakerOfRun(calls: seq<Call>)
    ensures ClientRun(calls).breaker == Run(Sends(calls))
  {
    if calls == [] { return; }
    hide CallStep, SendsOf, Step, Run;
    var init, last := calls[..|calls| - 1], calls[|calls| - 1];
    BreakerOfRun(init);
    CallBreaker(ClientRun(init), last);
    var made := SendsOf(ClientRun(init), last);
    if made == [] {
      assert Sends(calls) == Sends(init);
    } else {
      assert made == [made[0]];
      RunAppend(Sends(init), made[0]);
    }
  }

  predicate MonotoneCalls(calls: seq<Call>) {
    && (forall i :: 0 <= i < |calls| ==> calls[i].at.checked <= calls[i].at.recorded)
    && (forall i, j :: 0 <= i < j < |calls| ==> calls[i].at.recorded <= calls[j].at.checked)
  }

  lemma {:induction false} SendsMonotone(calls: seq<Call>)
    requires MonotoneCalls(calls)
    ensures Monotone(Sends(calls))
    ensures forall k :: 0 <= k < |Sends(calls)| ==> Sends(calls)[k].at.recorded <= calls[|calls| - 1].at.recorded
  {
    if calls != [] { SendsMonotone(calls[..|calls| - 1]); }
  }

  // The failed sends of a run of calls, single and in batches, are spaced.
  lemma CallsAreSpaced(calls: seq<Call>, i: nat, j: nat)
    requires MonotoneCalls(calls) && i <= j < |FailureTimes(Sends(calls))|
    ensures FailureTimes(Sends(calls))[j] - FailureTimes(Sends(calls))[i] >= 30.0 * (j / 5 - i / 5) as real
    ensures ClientRun(calls).breaker.open <==> ClientRun(calls).breaker.failures >= 5
  {
    SendsMonotone(calls);
    FailuresAreSpaced(Sends(calls), i, j);
    BreakerOfRun(calls);
    OpenIff(Sends(calls));
  }

  function Raises(calls: seq<Call>): nat {
    if calls == [] then 0
    else Raises(calls[..|calls| - 1]) + if calls[|calls| - 1].at.fate.ProviderRaises? then 1 else 0
  }

  // The queue only grows past one batch by the calls whose token provider raised.
  lemma {:induction false} QueueBounded(calls: seq<Call>)
    ensures |ClientRun(calls).pending| < MAX_BATCH + Raises(calls)
  {
    if calls != [] { QueueBounded(calls[..|calls| - 1]); }
  }

  // ---- The client object ----

  class CoreDataClient {
    var failureCount: nat
    var lastFailureTime: real
    var circuitOpen: bool
    var eventQueue: seq<Event>
    ghost var handed: seq<Handed>

    constructor ()
      ensures State() == IDLE
    {
      failureCount, lastFailureTime, circuitOpen := 0, 0.0, false;
      eventQueue, handed := [], [];
    }

    function Circuit(): Breaker
      reads this
    {
      Breaker(failureCount, circuitOpen, lastFailureTime)
    }

    ghost function State(): Client
      reads this
    {
      Client(Circuit(), eventQueue, handed)
    }

    method CheckCircuitBreaker(now: real) returns (through: bool)
      modifies this`failureCount, this`circuitOpen
      ensures through == old(LetsThrough(Circuit(), now))
      ensures Circuit() == old(AfterCheck(Circuit(), now))
    {
      if !circuitOpen { return true; }
      if now - lastFailureTime > 30.0 {
        circuitOpen := false;
        failureCount := 0;
        return true;
      }
      return false;
    }

    method RecordFailure(now: real)
      modifies this`failureCount, this`circuitOpen, this`lastFailureTime
      ensures Circuit() == old(AfterFailure(Circuit(), now))
    {
      failureCount := failureCount + 1;
      lastFailureTime := now;
      if failureCount >= 5 {
        circuitOpen := true;
      }
    }

    method RecordSuccess()
      modifies this`failureCount, this`circuitOpen
      ensures Circuit() == old(AfterSuccess(Circuit()))
    {
      failureCount := 0;
      circuitOpen := false;
    }

    // What `send_event` and `_send_batch` have in common.
    method Post(at: Attempt, encodable: bool) returns (outcome: Outcome)
      modifies this`failureCount, this`circuitOpen, this`lastFailureTime
      ensures (Circuit(), outcome) == old(Step(Circuit(), Send(at, encodable)))
    {
      if at.fate.ProviderRaises? { return Raised; }
      var through := CheckCircuitBreaker(at.checked);
      if !through { return Dropped; }
      if encodable && at.fate.Succeeds? {
        RecordSuccess();
        return Delivered;
      }
      RecordFailure(at.recorded);
      return Failed;
    }

    method SendEvent(event: Event, at: Attempt) returns (outcome: Outcome)
      modifies this`failureCount, this`circuitOpen, this`lastFailureTime
      ensures State() == CallStep(old(State()), SendNow(event, at))
      ensures outcome == old(Step(Circuit(), Send(at, Encodable(event)))).1
    {
      outcome := Post(at, event.modelDump);
    }

    // `_flush_queue`
    method FlushQueue(at: Attempt)
      modifies this
      ensures State() == AfterFlush(old(State()), at)
    {
      if eventQueue == [] { return; }
      var n := if |eventQueue| < MAX_BATCH then |eventQueue| else MAX_BATCH;
      var batch := eventQueue[..n];
      eventQueue := eventQueue[n..];
      var outcome := Post(at, BatchEncodable(batch));
      if outcome.Raised? {
        eventQueue := batch + eventQueue;
      } else {
        handed := handed + [Handed(batch, outcome)];
      }
    }

    method SendEventAsync(event: Event, at: Attempt)
      modifies this
      ensures State() == CallStep(old(State()), Enqueue(event, at))
    {
      eventQueue := eventQueue + [event];
      if |eventQueue| >= MAX_BATCH {
        FlushQueue(at);
      }
    }
  }
}
