// controller/messaging/command.py: the subscription thread, the semaphore and
// the worker threads, as a state machine over every interleaving.
module Messaging {
  // How the command of a request ends: with a result, with an EdgexError or an
  // invalid payload, or with another exception, which leaves the worker.
  datatype Ending = Answers | Fails | Escapes

  // A request as it arrives; `parsed` is whether its topic is a command topic.
  datatype Envelope = Envelope(parsed: bool, requestId: string, ending: Ending)

  // The service's names, `max_concurrent`, and the requests in order of arrival.
  datatype Setting = Setting(basePrefix: string, serviceName: string, limit: nat, envelopes: seq<Envelope>)

  function ResponseTopic(basePrefix: string, serviceName: string, requestId: string): string {
    basePrefix + "/response/" + serviceName + "/" + requestId
  }

  // The service's response topic, and behind the last slash the request id.
  lemma TopicIs(requestId: string)
    ensures ResponseTopic("edgex", "device-virtual", requestId) == "edgex/response/device-virtual/" + requestId
  {
    assert "edgex" + "/response/" + "device-virtual" + "/" == "edgex/response/device-virtual/";
  }

  // Responses to different requests go to different topics.
  lemma TopicInjective(basePrefix: string, serviceName: string, a: string, b: string)
    requires ResponseTopic(basePrefix, serviceName, a) == ResponseTopic(basePrefix, serviceName, b)
    ensures a == b
  {
    var prefix := basePrefix + "/response/" + serviceName + "/";
    assert a == (prefix + a)[|prefix|..] && b == (prefix + b)[|prefix|..];
  }

  // The subscription thread holds at most one request, known by its number.
  datatype Subscriber = Idle | Parsed(n: nat) | Acquired(n: nat) | Rejecting(n: nat)

  datatype Phase = Running | Responded

  // `busy` marks the rejections.
  datatype Response = Response(request: nat, topic: string, isError: bool, busy: bool)

  // `leaked` counts the permits of threads that could not be started.
  datatype State = State(
    taken: nat,
    subscriber: Subscriber,
    permits: nat,
    leaked: nat,
    workers: map<nat, Phase>,
    responses: seq<Response>)

  // One step of one thread. A publish that raises is logged and forgotten. A
  // worker ends when it has responded, or when its command escapes.
  datatype Event =
    | Take
    | Acquire
    | Start(fails: bool)
    | Reject(published: bool)
    | Respond(worker: nat, published: bool)
    | End(worker: nat)

  function Initial(c: Setting): State { State(0, Idle, c.limit, 0, map[], []) }

  predicate InPhase(s: State, w: nat, phase: Phase) { w in s.workers && s.workers[w] == phase }

  predicate Enabled(c: Setting, s: State, e: Event) {
    match e
    case Take => s.subscriber.Idle? && s.taken < |c.envelopes|
    case Acquire => s.subscriber.Parsed?
    case Start(_) => s.subscriber.Acquired?
    case Reject(_) => s.subscriber.Rejecting?
    case Respond(w, _) => InPhase(s, w, Running) && w < |c.envelopes| && !c.envelopes[w].ending.Escapes?
    case End(w) =>
      InPhase(s, w, Responded) || (InPhase(s, w, Running) && w < |c.envelopes| && c.envelopes[w].ending.Escapes?)
  }

  function Published(c: Setting, s: State, n: nat, isError: bool, busy: bool, published: bool): seq<Response> {
    if published && n < |c.envelopes|
    then
      s.responses + [Response(n, ResponseTopic(c.basePrefix, c.serviceName, c.envelopes[n].requestId), isError, busy)]
    else s.responses
  }

  function Next(c: Setting, s: State, e: Event): State
    requires Enabled(c, s, e)
  {
    match e
    case Take =>
      s.(taken := s.taken + 1, subscriber := if c.envelopes[s.taken].parsed then Parsed(s.taken) else Idle)
    case Acquire =>
      if s.permits > 0 then s.(permits := s.permits - 1, subscriber := Acquired(s.subscriber.n))
      else s.(subscriber := Rejecting(s.subscriber.n))
    case Start(fails) =>
      if fails then s.(subscriber := Idle, leaked := s.leaked + 1)
      else s.(subscriber := Idle, workers := s.workers[s.subscriber.n := Running])
    case Reject(published) =>
      s.(subscriber := Idle, responses := Published(c, s, s.subscriber.n, true, true, published))
    case Respond(w, published) =>
      s.(workers := s.workers[w := Responded],
        responses := Published(c, s, w, c.envelopes[w].ending.Fails?, false, published))
    case End(w) =>
      s.(workers := s.workers - {w}, permits := s.permits + 1)
  }

  predicate IsRun(c: Setting, events: seq<Event>)
    decreases |events|, 0
  {
    events == [] ||
    (IsRun(c, events[..|events| - 1]) && Enabled(c, After(c, events[..|events| - 1]), events[|events| - 1]))
  }

  function After(c: Setting, events: seq<Event>): State
    requires IsRun(c, events)
    decreases |events|, 1
  {
    if events == [] then Initial(c) else Next(c, After(c, events[..|events| - 1]), events[|events| - 1])
  }

  // ---- What every interleaving keeps ----

  function Held(s: State): nat { if s.subscriber.Acquired? then 1 else 0 }

  predicate PermitsKept(c: Setting, s: State) {
    s.permits + |s.workers| + Held(s) + s.leaked == c.limit
  }

  predicate Unanswered(s: State, n: nat) {
    forall i :: 0 <= i < |s.responses| ==> s.responses[i].request != n
  }

  // The requests in hand are known ones and have not been answered.
  predicate InHand(c: Setting, s: State) {
    && s.taken <= |c.envelopes|
    && (!s.subscriber.Idle? ==>
      s.subscriber.n < s.taken && s.subscriber.n !in s.workers && Unanswered(s, s.subscriber.n))
    && (forall w :: w in s.workers ==> w < s.taken)
    && (forall w :: w in s.workers && s.workers[w].Running? ==> Unanswered(s, w))
  }

  predicate OwnTopics(c: Setting, s: State) {
    forall i :: 0 <= i < |s.responses| ==>
      var r := s.responses[i];
      && r.request < s.taken && r.request < |c.envelopes|
      && r.topic == ResponseTopic(c.basePrefix, c.serviceName, c.envelopes[r.request].requestId)
  }

  predicate AtMostOnce(s: State) {
    forall i, j :: 0 <= i < j < |s.responses| ==> s.responses[i].request != s.responses[j].request
  }

  // A rejection is an error, and any other response is one exactly when its
  // command failed; a command that escapes has no other response.
  predicate ErrorsTold(c: Setting, s: State) {
    forall i :: 0 <= i < |s.responses| ==> Told(c, s.responses[i])
  }

  predicate Told(c: Setting, r: Response) {
    if r.busy then r.isError
    else r.request < |c.envelopes| && c.envelopes[r.request].ending == if r.isError then Fails else Answers
  }

  ghost predicate Inv(c: Setting, s: State) {
    PermitsKept(c, s) && InHand(c, s) && OwnTopics(c, s) && AtMostOnce(s) && ErrorsTold(c, s)
  }

  lemma StepKeepsPermits(c: Setting, s: State, e: Event)
    requires Inv(c, s) && Enabled(c, s, e)
    ensures PermitsKept(c, Next(c, s, e))
  {
  }

  lemma StepKeepsRequests(c: Setting, s: State, e: Event)
    requires Inv(c, s) && Enabled(c, s, e)
    ensures InHand(c, Next(c, s, e))
  {
  }

  lemma StepKeepsResponses(c: Setting, s: State, e: Event)
    requires Inv(c, s) && Enabled(c, s, e)
    ensures OwnTopics(c, Next(c, s, e)) && AtMostOnce(Next(c, s, e))
  {
    hide Told;
  }

  lemma StepTellsErrors(c: Setting, s: State, e: Event)
    requires Inv(c, s) && Enabled(c, s, e)
    ensures ErrorsTold(c, Next(c, s, e))
  {
    hide OwnTopics, AtMostOnce, PermitsKept, ResponseTopic;
  }

  // Permits, requests and responses, at every moment of every interleaving.
  lemma {:induction false} RunKeeps(c: Setting, events: seq<Event>)
    requires IsRun(c, events)
    ensures Inv(c, After(c, events))
  {
    if events != [] {
      var init, last := events[..|events| - 1], events[|events| - 1];
      RunKeeps(c, init);
      StepKeepsPermits(c, After(c, init), last);
      StepKeepsRequests(c, After(c, init), last);
      StepKeepsResponses(c, After(c, init), last);
      StepTellsErrors(c, After(c, init), last);
    }
  }

  // A request is rejected as busy only while every permit is taken by a live
  // worker or lost with a thread that did not start.
  lemma RejectedOnlyWhenBusy(c: Setting, events: seq<Event>)
    requires IsRun(c, events) && After(c, events).subscriber.Parsed?
    ensures var s := After(c, events);
      Next(c, s, Acquire).subscriber.Rejecting? <==> |s.workers| + s.leaked == c.limit
  {
    RunKeeps(c, events);
  }

  // ---- Every request is answered, unless something went wrong ----

  // No thread failed to start, and no publish raised.
  predicate CleanStep(e: Event) {
    match e
    case Start(fails) => !fails
    case Reject(published) => published
    case Respond(_, published) => published
    case _ => true
  }

  predicate Clean(events: seq<Event>) {
    forall i :: 0 <= i < |events| ==> CleanStep(events[i])
  }

  // A command request whose command does not escape.
  predicate Answerable(c: Setting, n: nat) {
    n < |c.envelopes| && c.envelopes[n].parsed && !c.envelopes[n].ending.Escapes?
  }

  predicate Answered(s: State, n: nat) { !Unanswered(s, n) }

  predicate Pending(s: State, n: nat) {
    (!s.subscriber.Idle? && s.subscriber.n == n) || (n in s.workers && s.workers[n].Running?)
  }

  // Every answerable request taken so far is answered or still in hand, and
  // only command requests are.
  predicate Accounted(c: Setting, s: State) {
    && s.leaked == 0
    && s.taken <= |c.envelopes|
    && (forall n :: 0 <= n < s.taken && Answerable(c, n) ==> Answered(s, n) || Pending(s, n))
    && (forall n :: 0 <= n < s.taken && (Answered(s, n) || Pending(s, n)) ==> c.envelopes[n].parsed)
  }

  lemma StepAccounts(c: Setting, s: State, e: Event)
    requires Inv(c, s) && Enabled(c, s, e) && Accounted(c, s) && CleanStep(e)
    ensures Accounted(c, Next(c, s, e))
  {
    var s' := Next(c, s, e);
    forall n | 0 <= n < s'.taken
      ensures Answerable(c, n) ==> Answered(s', n) || Pending(s', n)
      ensures Answered(s', n) || Pending(s', n) ==> c.envelopes[n].parsed
    {
      OneAccounted(c, s, e, n);
    }
  }

  lemma OneAccounted(c: Setting, s: State, e: Event, n: nat)
    requires Inv(c, s) && Enabled(c, s, e) && Accounted(c, s) && CleanStep(e) && n < Next(c, s, e).taken
    ensures var s' := Next(c, s, e);
      && (Answerable(c, n) ==> Answered(s', n) || Pending(s', n))
      && (Answered(s', n) || Pending(s', n) ==> c.envelopes[n].parsed)
  {
    hide ResponseTopic, ErrorsTold, PermitsKept, AtMostOnce;
    var s' := Next(c, s, e);
    if |s'.responses| > |s.responses| {
      var r := s'.responses[|s.responses|];
      assert Answered(s', r.request);
      assert forall i :: 0 <= i < |s.responses| ==> s'.responses[i] == s.responses[i];
    }
  }

  lemma {:induction false} RunAccounts(c: Setting, events: seq<Event>)
    requires IsRun(c, events) && Clean(events)
    ensures Accounted(c, After(c, events))
  {
    if events != [] {
      var init, last := events[..|events| - 1], events[|events| - 1];
      RunAccounts(c, init);
      RunKeeps(c, init);
      StepAccounts(c, After(c, init), last);
    }
  }

  // When nothing is in hand any more, all permits are back and every command
  // request has its one response, unless its command escaped.
  lemma QuietRun(c: Setting, events: seq<Event>)
    requires IsRun(c, events) && Clean(events)
    requires var s := After(c, events); s.subscriber.Idle? && s.workers == map[]
    ensures var s := After(c, events);
      && s.permits == c.limit
      && AtMostOnce(s) && OwnTopics(c, s) && ErrorsTold(c, s)
      && forall n :: 0 <= n < s.taken ==>
        n < |c.envelopes| && (Answerable(c, n) ==> Answered(s, n)) && (Answered(s, n) ==> c.envelopes[n].parsed)
  {
    RunKeeps(c, events);
    RunAccounts(c, events);
  }

  // ---- Every run comes to an end ----

  // Every request was taken, and nothing is in hand.
  predicate Over(c: Setting, s: State) {
    s.taken == |c.envelopes| && s.subscriber.Idle? && s.workers == map[]
  }

  // The steps that the requests in hand and the untaken ones can still need.
  function SubscriberWork(s: State): nat {
    match s.subscriber
    case Idle => 0
    case Parsed(_) => 4
    case Acquired(_) => 3
    case Rejecting(_) => 1
  }

  function WorkerWork(workers: map<nat, Phase>, n: nat): nat {
    if n == 0 then 0
    else
      WorkerWork(workers, n - 1) +
      if n - 1 !in workers then 0 else if workers[n - 1].Running? then 2 else 1
  }

  lemma {:induction false} WorkChanges(before: map<nat, Phase>, after: map<nat, Phase>, w: nat, n: nat)
    requires forall k :: k != w ==> (k in before <==> k in after) && (k in before ==> before[k] == after[k])
    ensures WorkerWork(after, n) - WorkerWork(before, n) ==
      if w < n then WorkerWork(after, w + 1) - WorkerWork(after, w) - WorkerWork(before, w + 1) + WorkerWork(before, w)
      else 0
  {
    if n > 0 { WorkChanges(before, after, w, n - 1); }
  }

  function Work(c: Setting, s: State): int {
    5 * (|c.envelopes| - s.taken) + SubscriberWork(s) + WorkerWork(s.workers, |c.envelopes|)
  }

  lemma StepWorks(c: Setting, s: State, e: Event)
    requires Inv(c, s) && Enabled(c, s, e)
    ensures Work(c, Next(c, s, e)) < Work(c, s)
  {
    hide OwnTopics, AtMostOnce, PermitsKept, ErrorsTold, ResponseTopic;
    match e
    case Start(fails) =>
      if !fails { WorkChanges(s.workers, Next(c, s, e).workers, s.subscriber.n, |c.envelopes|); }
    case Respond(w, _) => WorkChanges(s.workers, Next(c, s, e).workers, w, |c.envelopes|);
    case End(w) => WorkChanges(s.workers, Next(c, s, e).workers, w, |c.envelopes|);
    case _ =>
  }

  // No interleaving has more than five steps for each request.
  lemma {:induction false} RunBounded(c: Setting, events: seq<Event>)
    requires IsRun(c, events)
    ensures |events| <= |events| + Work(c, After(c, events)) <= 5 * |c.envelopes|
  {
    hide Work, Next, Inv;
    RunKeeps(c, events);
    WorkLeft(c, After(c, events));
    if events == [] {
      WorkAtStart(c);
    } else {
      var init, last := events[..|events| - 1], events[|events| - 1];
      RunBounded(c, init);
      RunKeeps(c, init);
      StepWorks(c, After(c, init), last);
    }
  }

  lemma WorkLeft(c: Setting, s: State)
    requires Inv(c, s)
    ensures Work(c, s) >= 0
  {
  }

  lemma WorkAtStart(c: Setting)
    ensures Work(c, Initial(c)) == 5 * |c.envelopes|
  {
    NoWork(|c.envelopes|);
  }

  lemma {:induction false} NoWork(n: nat)
    ensures WorkerWork(map[], n) == 0
  {
    if n > 0 { NoWork(n - 1); }
  }

  // The threads never wait for each other: while anything is left to do some
  // step is possible, and a clean one.
  lemma NeverStuck(c: Setting, s: State) returns (e: Event)
    requires Inv(c, s) && !Over(c, s)
    ensures Enabled(c, s, e) && CleanStep(e)
  {
    hide OwnTopics, AtMostOnce, PermitsKept, ErrorsTold;
    match s.subscriber
    case Parsed(_) => e := Acquire;
    case Acquired(_) => e := Start(false);
    case Rejecting(_) => e := Reject(true);
    case Idle =>
      if s.workers == map[] {
        e := Take;
      } else {
        var w :| w in s.workers;
        e := if InPhase(s, w, Running) && !c.envelopes[w].ending.Escapes? then Respond(w, true) else End(w);
      }
  }

  // So every run can go on until every request is dealt with and every worker
  // has ended, and cleanly so if it was clean.
  lemma {:induction false} RunCompletes(c: Setting, events: seq<Event>) returns (whole: seq<Event>)
    requires IsRun(c, events)
    ensures events <= whole && IsRun(c, whole) && Over(c, After(c, whole))
    ensures Clean(events) ==> Clean(whole)
    decreases 5 * |c.envelopes| - |events|
  {
    hide Next, Enabled, CleanStep, Inv, Work;
    RunKeeps(c, events);
    whole := events;
    if !Over(c, After(c, events)) {
      var e := NeverStuck(c, After(c, events));
      assert (events + [e])[..|events|] == events;
      RunBounded(c, events + [e]);
      whole := RunCompletes(c, events + [e]);
    }
  }
}
