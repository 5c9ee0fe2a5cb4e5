// executor.py: the fixed-rate loop of an auto event.
module Schedule {
  import opened Wrappers

  // One turn of the loop, by the clock: the stop flag is tested at `checked`,
  // the remaining wait is computed at `now`, the wait is over at `woken`, and an
  // execution begins at `begun`.
  datatype Turn = Turn(checked: real, now: real, woken: real, begun: real)

  // When the stop flag is set, if ever.
  type StopTime = Option<real>

  predicate Stopped(stop: StopTime, at: real) { stop.Some? && stop.value <= at }

  function Times(n: nat, interval: real): real { n as real * interval }

  function Deadline(start: real, interval: real, n: nat): real { start + Times(n + 1, interval) }

  // The clock does not run backwards, and a wait ends early only for the stop
  // flag.
  predicate Turns(start: real, interval: real, stop: StopTime, turns: seq<Turn>) {
    && (forall i :: 0 <= i < |turns| ==> turns[i].checked <= turns[i].now <= turns[i].woken <= turns[i].begun)
    && (forall i, j :: 0 <= i < j < |turns| ==> turns[i].begun <= turns[j].checked)
    && (forall i :: 0 <= i < |turns| ==>
      turns[i].woken >= Deadline(start, interval, i) || Stopped(stop, turns[i].woken))
  }

  predicate Goes(deadline: real, stop: StopTime, turn: Turn) {
    !Stopped(stop, turn.checked) && (deadline - turn.now > 0.0 ==> !Stopped(stop, turn.woken))
  }

  // The stop flag is tested before a turn, and after a wait once more.
  lemma GoesIs(deadline: real, turn: Turn, at: real)
    ensures Goes(deadline, None, turn)
    ensures Goes(deadline, Some(at), turn) <==>
      turn.checked < at && (turn.now < deadline ==> turn.woken < at)
  {
  }

  // `run`: when its executions begin, up to the end of the turns.
  method Run(start: real, interval: real, stop: StopTime, turns: seq<Turn>) returns (begun: seq<real>)
    requires Turns(start, interval, stop, turns)
    ensures |begun| <= |turns|
    ensures forall i :: 0 <= i < |begun| ==>
      begun[i] == turns[i].begun && Goes(Deadline(start, interval, i), stop, turns[i])
    ensures |begun| < |turns| ==> !Goes(Deadline(start, interval, |begun|), stop, turns[|begun|])
    ensures OnSchedule(start, interval, stop, begun)
  {
    begun := [];
    var deadline := start + interval;
    assert Times(1, interval) == interval;
    for i := 0 to |turns|
      invariant |begun| == i && deadline == Deadline(start, interval, i)
      invariant forall k :: 0 <= k < i ==>
          begun[k] == turns[k].begun && Goes(Deadline(start, interval, k), stop, turns[k])
      invariant OnSchedule(start, interval, stop, begun)
    {
      if Stopped(stop, turns[i].checked) { return; }
      var wait := deadline - turns[i].now;
      if wait > 0.0 {
        if Stopped(stop, turns[i].woken) { return; }
      }
      Advance(start, interval, i);
      deadline := deadline + interval;
      begun := begun + [turns[i].begun];
    }
  }

  lemma Advance(start: real, interval: real, n: nat)
    ensures Deadline(start, interval, n) + interval == Deadline(start, interval, n + 1)
  {
  }

  // No execution begins before its slot, and only the last one can begin after
  // the stop.
  predicate OnSchedule(start: real, interval: real, stop: StopTime, begun: seq<real>) {
    && (forall i :: 0 <= i < |begun| ==> begun[i] >= Deadline(start, interval, i))
    && (forall i, j :: 0 <= i < j < |begun| ==> begun[i] <= begun[j])
    && (forall i :: 0 <= i < |begun| - 1 ==> !Stopped(stop, begun[i]))
  }

  function Begun(begun: seq<real>, until: real): nat {
    if begun == [] then 0 else Begun(begun[..|begun| - 1], until) + if begun[|begun| - 1] <= until then 1 else 0
  }

  lemma {:induction false} BegunPrefix(begun: seq<real>, until: real)
    requires forall i, j :: 0 <= i < j < |begun| ==> begun[i] <= begun[j]
    ensures Begun(begun, until) <= |begun|
    ensures forall i :: 0 <= i < |begun| ==> (begun[i] <= until <==> i < Begun(begun, until))
  {
    if begun != [] { BegunPrefix(begun[..|begun| - 1], until); }
  }

  // At most one execution for every whole interval that has passed.
  lemma RateLimit(start: real, interval: real, stop: StopTime, begun: seq<real>, until: real)
    requires interval > 0.0 && OnSchedule(start, interval, stop, begun) && until >= start
    ensures Begun(begun, until) <= ((until - start) / interval).Floor
  {
    hide Deadline, Times;
    BegunPrefix(begun, until);
    var n := Begun(begun, until);
    if n > 0 {
      assert Deadline(start, interval, n - 1) <= begun[n - 1] <= until;
      SpanUntil(start, interval, n, until);
    } else {
      NoSpan(interval, until - start);
    }
    FloorOf(n, interval, until - start);
  }

  lemma SpanUntil(start: real, interval: real, n: nat, until: real)
    requires n > 0 && Deadline(start, interval, n - 1) <= until
    ensures n as real * interval <= until - start
  {
  }

  lemma NoSpan(interval: real, span: real)
    requires span >= 0.0
    ensures 0 as real * interval <= span
  {
  }

  lemma FloorOf(n: nat, interval: real, span: real)
    requires interval > 0.0 && n as real * interval <= span
    ensures n <= (span / interval).Floor
  {
    Scaled(span / interval, n as real, interval);
    assert span / interval * interval == span;
  }

  lemma Scaled(x: real, y: real, factor: real)
    ensures x < y && factor > 0.0 ==> x * factor < y * factor
  {
  }

  lemma AtMostOneAfterStop(start: real, interval: real, stop: StopTime, begun: seq<real>, i: nat, j: nat)
    requires OnSchedule(start, interval, stop, begun) && i < |begun| && j < |begun|
    requires Stopped(stop, begun[i]) && Stopped(stop, begun[j])
    ensures i == j == |begun| - 1
  {
  }
}
