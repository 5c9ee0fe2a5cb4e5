// command.py: the allowed request failures of each device and the operating
// state that they drive.
module FailureTracker {
  import opened Wrappers

  datatype OperatingState = Up | Down | Disabled

  // `allowed_fails` and `device_down_timeout`
  datatype Config = Config(allowed: int, timeout: int)

  // One device: its entry in the tracker, if any, and its cached state.
  datatype Health = Health(count: Option<int>, state: OperatingState)

  // What becomes of a request: an EdgexError before the state gate (a locked
  // service or device), and behind the gate a success, an EdgexError, a failed
  // assertion (an EdgexError too), or an exception that is no EdgexError.
  datatype Fate = Locked | Succeeds | Fails | AssertionFails | Escapes

  // `patched` is whether Core Metadata accepts an operating-state patch.
  datatype Attempt = Attempt(fate: Fate, patched: bool)

  // What the caller gets: a result, an EdgexError of the state gate or of the
  // request, another exception, or, after a request that succeeded, the
  // EdgexError of the refused patch to UP.
  datatype Result = Success | Refusal | Failure | Uncaught | Unrestored {
    predicate Worked() { Success? || Unrestored? }
  }

  function Remaining(h: Health): int { if h.count.Some? then h.count.value else 0 }

  // `_validate_service_and_device_state` on a device that is DOWN: a tracked
  // device is let through again unless its count is exactly zero.
  predicate Refused(c: Config, h: Health) {
    h.state.Down? && (c.allowed == 0 || c.timeout == 0 || h.count == Some(0))
  }

  function AfterFailure(c: Config, h: Health, patched: bool): Health {
    if c.allowed <= 0 then h
    else
      var left := Remaining(h) - 1;
      Health(Some(left), if left == 0 && patched then Down else h.state)
  }

  function AfterSuccess(c: Config, h: Health, patched: bool): Health {
    if c.allowed <= 0 || Remaining(h) >= c.allowed then h
    else Health(Some(c.allowed), if h.state.Down? && patched then Up else h.state)
  }

  // The count is restored before the patch, which raises outside the `try`.
  predicate PatchMissed(c: Config, h: Health, patched: bool) {
    c.allowed > 0 && Remaining(h) < c.allowed && h.state.Down? && !patched
  }

  function Step(c: Config, h: Health, a: Attempt): (Health, Result) {
    if a.fate.Locked? then (AfterFailure(c, h, a.patched), Failure)
    else if Refused(c, h) then (AfterFailure(c, h, a.patched), Refusal)
    else
      match a.fate
      case Succeeds => (AfterSuccess(c, h, a.patched), if PatchMissed(c, h, a.patched) then Unrestored else Success)
      case AssertionFails => (AfterFailure(c, h.(state := Disabled), a.patched), Failure)
      case Escapes => (h, Uncaught)
      case _ => (AfterFailure(c, h, a.patched), Failure)
  }

  // The tracker and the operating states of all devices.
  class Tracker {
    const config: Config
    var counts: map<string, int>
    var states: map<string, OperatingState>

    constructor (config: Config, states: map<string, OperatingState>)
      ensures this.config == config && this.states == states && counts == map[]
    {
      this.config, this.states, counts := config, states, map[];
    }

    function Of(name: string): Health
      requires name in states
      reads this
    {
      Health(if name in counts then Some(counts[name]) else None, states[name])
    }

    // `initialize_failure_tracker`
    method Initialize()
      modifies this`counts
      ensures forall name :: name in states ==>
        Of(name).count == if config.allowed > 0 then Some(config.allowed) else old(Of(name)).count
    {
      if config.allowed <= 0 { return; }
      var names := states.Keys;
      while names != {}
        invariant names <= states.Keys
        invariant forall name :: name in states && name !in names ==> name in counts && counts[name] == config.allowed
        decreases |names|
      {
        var name :| name in names;
        counts := counts[name := config.allowed];
        names := names - {name};
      }
    }

    // Nothing is known to have changed for any other device.
    twostate predicate OnlyTouches(name: string)
      reads this
    {
      && states.Keys == old(states.Keys)
      && (forall other :: other in states && other != name ==> states[other] == old(states[other]))
      && (forall other :: other != name ==> (other in counts <==> other in old(counts)))
      && (forall other :: other != name && other in counts && other in old(counts) ==>
        counts[other] == old(counts[other]))
    }

    // `device_request_failed`
    method RequestFailed(name: string, patched: bool)
      requires name in states
      modifies this
      ensures OnlyTouches(name) && name in states
      ensures Of(name) == AfterFailure(config, old(Of(name)), patched)
    {
      if config.allowed > 0 {
        counts := counts[name := (if name in counts then counts[name] else 0) - 1];
        if counts[name] == 0 && states[name] != Down && patched {
          states := states[name := Down];
        }
      }
    }

    // `device_request_succeeded`
    method RequestSucceeded(name: string, patched: bool) returns (raised: bool)
      requires name in states
      modifies this
      ensures OnlyTouches(name) && name in states
      ensures Of(name) == AfterSuccess(config, old(Of(name)), patched)
      ensures raised == PatchMissed(config, old(Of(name)), patched)
      ensures raised ==> config.allowed > 0 && old(states)[name] == Down && !patched
    {
      raised := false;
      var count := if name in counts then counts[name] else 0;
      if config.allowed > 0 && count < config.allowed {
        counts := counts[name := config.allowed];
        if states[name] == Down {
          if patched { states := states[name := Up]; } else { raised := true; }
        }
      }
    }

    // `command_read` and `command_write`, as far as the tracker sees them.
    method Command(name: string, a: Attempt) returns (result: Result)
      requires name in states
      modifies this
      ensures OnlyTouches(name) && name in states
      ensures (Of(name), result) == Step(config, old(Of(name)), a)
    {
      if a.fate.Locked? {
        RequestFailed(name, a.patched);
        return Failure;
      }
      if states[name] == Down {
        if config.allowed == 0 || config.timeout == 0 || (name in counts && counts[name] == 0) {
          RequestFailed(name, a.patched);
          return Refusal;
        }
      }
      if a.fate.Escapes? { return Uncaught; }
      if a.fate.Succeeds? {
        var raised := RequestSucceeded(name, a.patched);
        return if raised then Unrestored else Success;
      }
      if a.fate.AssertionFails? {
        states := states[name := Disabled];
      }
      RequestFailed(name, a.patched);
      return Failure;
    }
  }

  // ---- Whole runs of one device ----

  function Run(c: Config, h: Health, run: seq<Attempt>): Health
    decreases |run|, c, h
  {
    if run == [] then h else Step(c, Run(c, h, run[..|run| - 1]), run[|run| - 1]).0
  }

  function Last(c: Config, h: Health, run: seq<Attempt>): Result
    requires run != []
  {
    Step(c, Run(c, h, run[..|run| - 1]), run[|run| - 1]).1
  }

  // The EdgexErrors since the last success.
  function Errors(c: Config, h: Health, run: seq<Attempt>): nat
    decreases |run|, c, h
  {
    if run == [] then 0
    else ErrorsAfter(Errors(c, h, run[..|run| - 1]), Last(c, h, run))
  }

  function ErrorsAfter(before: nat, result: Result): nat {
    if result.Worked() then 0 else if result.Uncaught? then before else before + 1
  }

  // The refusals of the state gate since the last success.
  function Refusals(c: Config, h: Health, run: seq<Attempt>): nat
    decreases |run|, c, h
  {
    if run == [] then 0
    else
      var before := Refusals(c, h, run[..|run| - 1]);
      match Last(c, h, run)
      case Success => 0
      case Unrestored => 0
      case Refusal => before + 1
      case _ => before
  }

  // Since the last success an assertion failed after the allowed errors were
  // used up.
  predicate LateAssertion(c: Config, h: Health, run: seq<Attempt>)
    decreases |run|, c, h
  {
    run != [] &&
    var init := run[..|run| - 1];
    && !Last(c, h, run).Worked()
    && (LateAssertion(c, h, init) ||
      (run[|run| - 1].fate.AssertionFails? && Last(c, h, run).Failure? && Errors(c, h, init) >= c.allowed))
  }

  predicate AllPatched(run: seq<Attempt>) {
    forall i :: 0 <= i < |run| ==> run[i].patched
  }

  predicate Tracked(c: Config, h: Health) {
    c.allowed > 0 && h.count == Some(c.allowed)
  }

  lemma RunStep(c: Config, h: Health, run: seq<Attempt>, a: Attempt)
    ensures Run(c, h, run + [a]) == Step(c, Run(c, h, run), a).0
    ensures Last(c, h, run + [a]) == Step(c, Run(c, h, run), a).1
    ensures Errors(c, h, run + [a]) == ErrorsAfter(Errors(c, h, run), Step(c, Run(c, h, run), a).1)
  {
  }

  lemma StepCount(c: Config, h: Health, a: Attempt, errors: nat)
    requires c.allowed > 0 && h.count == Some(c.allowed - errors)
    ensures Step(c, h, a).0.count == Some(c.allowed - ErrorsAfter(errors, Step(c, h, a).1))
  {
  }

  // The count is what is left of the allowed errors, and goes below zero.
  lemma {:induction false} CountIs(c: Config, h: Health, run: seq<Attempt>)
    requires Tracked(c, h)
    ensures Run(c, h, run).count == Some(c.allowed - Errors(c, h, run))
    decreases |run|
  {
    if run == [] { return; }
    hide Run, Errors, Last, Step, ErrorsAfter;
    var init, last := run[..|run| - 1], run[|run| - 1];
    CountIs(c, h, init);
    StepCount(c, Run(c, h, init), last, Errors(c, h, init));
    RunStep(c, h, init, last);
    assert init + [last] == run;
  }

  // A device is DOWN exactly when it has used up its allowed errors and no
  // assertion has failed since.
  lemma {:induction false} DownIff(c: Config, h: Health, run: seq<Attempt>)
    requires Tracked(c, h) && !h.state.Down? && AllPatched(run)
    ensures Run(c, h, run).state.Down? <==> Errors(c, h, run) >= c.allowed && !LateAssertion(c, h, run)
    ensures LateAssertion(c, h, run) ==> Errors(c, h, run) > c.allowed
    decreases |run|
  {
    if run != [] {
      var init := run[..|run| - 1];
      DownIff(c, h, init);
      CountIs(c, h, init);
    }
  }

  lemma {:induction false} NoLateAssertion(c: Config, h: Health, run: seq<Attempt>)
    requires forall i :: 0 <= i < |run| ==> !run[i].fate.AssertionFails?
    ensures !LateAssertion(c, h, run)
    decreases |run|
  {
    if run != [] { NoLateAssertion(c, h, run[..|run| - 1]); }
  }

  // Without assertions: exactly when the errors since the last success reach
  // the allowed number.
  lemma DownWithoutAssertions(c: Config, h: Health, run: seq<Attempt>)
    requires Tracked(c, h) && !h.state.Down? && AllPatched(run)
    requires forall i :: 0 <= i < |run| ==> !run[i].fate.AssertionFails?
    ensures Run(c, h, run).state.Down? <==> Errors(c, h, run) >= c.allowed
  {
    DownIff(c, h, run);
    NoLateAssertion(c, h, run);
  }

  // With a positive timeout the gate refuses exactly the request that follows
  // the last allowed error.
  lemma GateIff(c: Config, h: Health, run: seq<Attempt>)
    requires Tracked(c, h) && !h.state.Down? && AllPatched(run) && c.timeout != 0
    ensures Refused(c, Run(c, h, run)) <==> Errors(c, h, run) == c.allowed
  {
    DownIff(c, h, run);
    CountIs(c, h, run);
  }

  // So at most one request between two successes is refused by the gate.
  lemma {:induction false} OneRefusal(c: Config, h: Health, run: seq<Attempt>)
    requires Tracked(c, h) && !h.state.Down? && AllPatched(run) && c.timeout != 0
    ensures Refusals(c, h, run) <= if Errors(c, h, run) > c.allowed then 1 else 0
    decreases |run|
  {
    if run != [] {
      var init := run[..|run| - 1];
      OneRefusal(c, h, init);
      GateIff(c, h, init);
    }
  }

  // How the i-th request of a run ends.
  function ResultAt(c: Config, h: Health, run: seq<Attempt>, i: nat): Result
    requires i < |run|
  {
    Last(c, h, run[..i + 1])
  }

  lemma {:induction false} RefusalsAdd(c: Config, h: Health, run: seq<Attempt>, i: nat, j: nat)
    requires i <= j < |run| && ResultAt(c, h, run, i).Refusal?
    requires forall k :: i < k <= j ==> !ResultAt(c, h, run, k).Worked()
    ensures Refusals(c, h, run[..j + 1]) >= 1
    ensures i < j && ResultAt(c, h, run, j).Refusal? ==> Refusals(c, h, run[..j + 1]) >= 2
    decreases j
  {
    hide Step, Run;
    assert run[..j + 1][..j] == run[..j];
    if i < j {
      RefusalsAdd(c, h, run, i, j - 1);
      assert !ResultAt(c, h, run, j).Worked();
    }
  }

  // Between two refusals there is a success.
  lemma SuccessBetween(c: Config, h: Health, run: seq<Attempt>, i: nat, j: nat) returns (k: nat)
    requires Tracked(c, h) && !h.state.Down? && AllPatched(run) && c.timeout != 0
    requires i < j < |run| && ResultAt(c, h, run, i).Refusal? && ResultAt(c, h, run, j).Refusal?
    ensures i < k < j && ResultAt(c, h, run, k).Worked()
  {
    hide Step, Run, Refusals, Errors, Last, ResultAt;
    OneRefusal(c, h, run[..j + 1]);
    if forall k :: i < k < j ==> !ResultAt(c, h, run, k).Worked() {
      RefusalsAdd(c, h, run, i, j);
      assert false;
    }
    k :| i < k < j && ResultAt(c, h, run, k).Worked();
  }

  // Without a timeout a device that is DOWN stays DOWN and is never tried again.
  lemma {:induction false} DownForever(c: Config, h: Health, run: seq<Attempt>)
    requires c.timeout == 0 && h.state.Down?
    ensures Run(c, h, run).state.Down?
    ensures run != [] ==> Last(c, h, run).Refusal? || (Last(c, h, run).Failure? && run[|run| - 1].fate.Locked?)
    decreases |run|
  {
    if run != [] { DownForever(c, h, run[..|run| - 1]); }
  }

  lemma StepUntracked(c: Config, h: Health, a: Attempt, errors: nat)
    requires c.allowed > 0 && !h.state.Down? && Remaining(h) == 0 - errors && !a.fate.Succeeds?
    ensures var (h', result) := Step(c, h, a);
      !h'.state.Down? && Remaining(h') == 0 - ErrorsAfter(errors, result)
  {
  }

  // Without allowed failures nothing is counted, and no request marks a device
  // DOWN or UP.
  lemma {:induction false} NothingCounted(c: Config, h: Health, run: seq<Attempt>)
    requires c.allowed <= 0
    ensures Run(c, h, run).count == h.count
    ensures Run(c, h, run).state == h.state || Run(c, h, run).state == Disabled
    decreases |run|
  {
    if run != [] { NothingCounted(c, h, run[..|run| - 1]); }
  }

  // With none allowed at all, a device that is DOWN is never tried again either.
  lemma {:induction false} DownUncounted(c: Config, h: Health, run: seq<Attempt>)
    requires c.allowed == 0 && h.state.Down?
    ensures Run(c, h, run) == h
    ensures run != [] ==> Last(c, h, run).Refusal? || (Last(c, h, run).Failure? && run[|run| - 1].fate.Locked?)
    decreases |run|
  {
    if run != [] { DownUncounted(c, h, run[..|run| - 1]); }
  }

  // The administrative state is tested first, and then the gate, which refuses
  // exactly on a device that is DOWN and uncounted, without a retry, or just used
  // up; either way the request counts as an error.
  lemma GateOrder(c: Config, h: Health, a: Attempt)
    ensures var (h', result) := Step(c, h, a);
      && (a.fate.Locked? ==> result == Failure)
      && (result == Refusal <==>
        !a.fate.Locked? && h.state.Down? && (c.allowed == 0 || c.timeout == 0 || h.count == Some(0)))
      && (a.fate.Locked? || result == Refusal ==>
        var left := Remaining(h) - 1;
        h' == if c.allowed <= 0 then h else Health(Some(left), if left == 0 && a.patched then Down else h.state))
  {
  }

  // Otherwise a request gets past the gate: on a device that is not DOWN, and on
  // one whose failures are counted, retried after a while, and not just used up.
  // It then ends as its fate says; after a success the patch to UP can be missed
  // on a DOWN device whose count is not full.
  lemma PastTheGate(c: Config, h: Health, a: Attempt)
    requires !h.state.Down? || (c.allowed != 0 && c.timeout != 0 && h.count != Some(0))
    ensures var result := Step(c, h, a).1;
      && (a.fate.Locked? || a.fate.Fails? || a.fate.AssertionFails? ==> result == Failure)
      && (a.fate.Escapes? ==> result == Uncaught && Step(c, h, a).0 == h)
      && (a.fate.Succeeds? ==> result.Worked())
      && (a.fate.Succeeds? ==>
        var missing := h.count.None? || h.count.value < c.allowed;
        (result == Unrestored <==> h.state.Down? && !a.patched && c.allowed > 0 && missing))
  {
  }

  // A device that the tracker does not know, such as one added after the start,
  // never goes DOWN before its first success, however often it fails.
  lemma {:induction false} UntrackedNeverDown(c: Config, h: Health, run: seq<Attempt>)
    requires c.allowed > 0 && h.count == None && !h.state.Down?
    requires forall i :: 0 <= i < |run| ==> !run[i].fate.Succeeds?
    ensures !Run(c, h, run).state.Down? && Remaining(Run(c, h, run)) == 0 - Errors(c, h, run)
    decreases |run|
  {
    if run == [] { return; }
    hide Run, Errors, Last, Step, ErrorsAfter;
    var init, last := run[..|run| - 1], run[|run| - 1];
    UntrackedNeverDown(c, h, init);
    StepUntracked(c, Run(c, h, init), last, Errors(c, h, init));
    RunStep(c, h, init, last);
    assert init + [last] == run;
  }

  // One operating-state patch refused at the wrong moment, and the device is
  // never marked DOWN however long it goes on failing.
  lemma {:induction false} MissedPatch(c: Config, h: Health, run: seq<Attempt>)
    requires c.allowed > 0 && h.count.Some? && h.count.value <= 0 && !h.state.Down?
    requires forall i :: 0 <= i < |run| ==> !run[i].fate.Succeeds?
    ensures !Run(c, h, run).state.Down?
    ensures Run(c, h, run).count.Some? && Run(c, h, run).count.value <= 0
    decreases |run|
  {
    if run != [] { MissedPatch(c, h, run[..|run| - 1]); }
  }

  // The twin on the way up: after a refused patch to UP the count is full again,
  // so no later success retries it, and a device that works stays DOWN.
  lemma UnrestoredStaysDown(c: Config, h: Health, a: Attempt)
    ensures Step(c, h, a).1 == Unrestored ==> StuckDown(c, Step(c, h, a).0)
  {
  }

  predicate StuckDown(c: Config, h: Health) {
    c.allowed > 0 && c.timeout != 0 && h == Health(Some(c.allowed), Down)
  }

  lemma {:induction false} MissedUpPatch(c: Config, h: Health, run: seq<Attempt>)
    requires StuckDown(c, h)
    requires forall i :: 0 <= i < |run| ==> run[i].fate.Succeeds? || run[i].fate.Escapes?
    ensures Run(c, h, run) == h
    ensures run != [] && run[|run| - 1].fate.Succeeds? ==> Last(c, h, run) == Success
    decreases |run|
  {
    if run != [] { MissedUpPatch(c, h, run[..|run| - 1]); }
  }

  // One error is enough for a success to try the patch again: the next one, or
  // the one after it when only one error is allowed, which the gate lets pass.
  lemma ErrorRestores(c: Config, h: Health, fails: Attempt, succeeds: Attempt)
    requires StuckDown(c, h) && fails.fate.Fails? && succeeds.fate.Succeeds? && succeeds.patched
    ensures var once := Step(c, Step(c, h, fails).0, succeeds);
      var twice := Step(c, once.0, succeeds);
      && twice == (Health(Some(c.allowed), Up), Success)
      && (once == twice <==> c.allowed > 1)
      && (c.allowed == 1 ==> once.1 == Refusal)
  {
  }

  // With assertions the number of errors alone does not decide: here a device
  // is DISABLED after three errors with one allowed.
  lemma AssertionHidesDown()
    ensures var c, h := Config(1, 30), Health(Some(1), Up);
      var run := [Attempt(Fails, true), Attempt(Succeeds, true), Attempt(AssertionFails, true)];
      && Tracked(c, h) && AllPatched(run)
      && Errors(c, h, run) == 3 && Run(c, h, run) == Health(Some(-2), Disabled)
      && !Refused(c, Run(c, h, run))
  {
    var c, h := Config(1, 30), Health(Some(1), Up);
    var none: seq<Attempt> := [];
    RunStep(c, h, none, Attempt(Fails, true));
    RunStep(c, h, none + [Attempt(Fails, true)], Attempt(Succeeds, true));
    RunStep(c, h, none + [Attempt(Fails, true)] + [Attempt(Succeeds, true)], Attempt(AssertionFails, true));
    assert none + [Attempt(Fails, true)] + [Attempt(Succeeds, true)] + [Attempt(AssertionFails, true)] ==
      [Attempt(Fails, true), Attempt(Succeeds, true), Attempt(AssertionFails, true)];
  }
}
