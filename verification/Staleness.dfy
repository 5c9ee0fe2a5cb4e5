// Bounded staleness of on-change auto events, over every run.
module Staleness {
  import opened Wrappers
  import opened AutoEvents

  // A receiver that overlays every batch it is sent.
  type View = map<string, Value>

  function Overlay(view: View, batch: seq<Sample>): View {
    if batch == [] then view
    else var cv := batch[|batch| - 1]; Overlay(view, batch[..|batch| - 1])[cv.name := cv.value]
  }

  predicate DistinctNames(batch: seq<Sample>) {
    forall i, j :: 0 <= i < j < |batch| ==> batch[i].name != batch[j].name
  }

  // Readings of one device: no name twice, the declared kind of each name, and
  // a value of that kind.
  predicate Proper(kinds: map<string, Kind>, batch: seq<Sample>) {
    && batch != [] && DistinctNames(batch)
    && forall cv :: cv in batch ==> cv.name in kinds && kinds[cv.name] == cv.kind && OfKind(cv)
  }

  predicate OfKind(cv: Sample) {
    match cv.kind
    case Numeric => cv.value.Number?
    case Binary => cv.value.Bytes?
    case Plain => cv.value != Null
  }

  lemma ProperReadable(kinds: map<string, Kind>, batch: seq<Sample>)
    requires Proper(kinds, batch)
    ensures Readable(batch)
  {
  }

  // ---- Overlays and memories, name by name ----

  lemma {:induction false} OverlayMiss(view: View, batch: seq<Sample>, name: string)
    requires forall cv :: cv in batch ==> cv.name != name
    ensures (name in Overlay(view, batch)) == (name in view)
    ensures name in view ==> Overlay(view, batch)[name] == view[name]
  {
    if batch != [] {
      assert batch[|batch| - 1] in batch;
      OverlayMiss(view, batch[..|batch| - 1], name);
    }
  }

  lemma {:induction false} OverlayHit(view: View, batch: seq<Sample>, cv: Sample)
    requires cv in batch && forall other :: other in batch && other.name == cv.name ==> other == cv
    ensures cv.name in Overlay(view, batch) && Overlay(view, batch)[cv.name] == cv.value
  {
    var init, last := batch[..|batch| - 1], batch[|batch| - 1];
    assert last in batch;
    if last != cv { OverlayHit(view, init, cv); }
  }

  lemma DistinctUnique(batch: seq<Sample>)
    requires DistinctNames(batch)
    ensures forall x, y :: x in batch && y in batch && x.name == y.name ==> x == y
  {
  }

  // Remembering a batch of distinct names.
  lemma {:induction false} RenewedKeys(lib: Library, batch: seq<Sample>)
    requires Readable(batch)
    ensures Renewed(lib, batch).Keys == Names(batch)
  {
    if batch != [] {
      var init := batch[..|batch| - 1];
      RenewedKeys(lib, init);
      assert Names(batch) == Names(init) + {batch[|batch| - 1].name};
    }
  }

  lemma {:induction false} RenewedAt(lib: Library, batch: seq<Sample>, i: nat)
    requires Readable(batch) && DistinctNames(batch) && i < |batch|
    ensures batch[i].name in Renewed(lib, batch)
    ensures Renewed(lib, batch)[batch[i].name] == Remembered(lib, batch[i])
  {
    if i < |batch| - 1 { RenewedAt(lib, batch[..|batch| - 1], i); }
  }

  // ---- One comparison of a batch whose names are all remembered ----

  predicate AllKnown(last: Memory, batch: seq<Sample>) {
    forall i :: 0 <= i < |batch| ==> !Unknown(last, batch[i].name)
  }

  // Sample by sample: what changed is remembered anew and reported, and the
  // rest is kept.
  predicate Sifted(lib: Library, threshold: real, last: Memory, batch: seq<Sample>, result: Comparison)
    requires Readable(batch)
  {
    && result.last.Keys == last.Keys
    && (forall cv :: cv in result.changed ==> cv in batch)
    && (forall i :: 0 <= i < |batch| ==> batch[i].name in last && SampleSifted(lib, threshold, last, batch[i], result))
  }

  predicate SampleSifted(lib: Library, threshold: real, last: Memory, cv: Sample, result: Comparison)
    requires cv.kind == Binary ==> cv.value.Bytes?
    requires cv.name in last
  {
    && cv.name in result.last
    && (cv in result.changed <==> Differs(lib, threshold, last[cv.name], cv))
    && result.last[cv.name] == if cv in result.changed then Remembered(lib, cv) else last[cv.name]
  }

  lemma {:induction false} CompareSifts(lib: Library, threshold: real, base: Memory, last: Memory,
                                       batch: seq<Sample>, i: nat, changed: seq<Sample>)
    requires i <= |batch| && Readable(batch) && DistinctNames(batch) && AllKnown(base, batch)
    requires last.Keys == base.Keys
    requires forall cv :: cv in changed ==> cv in batch[..i]
    requires forall k :: 0 <= k < i ==>
      SampleSifted(lib, threshold, base, batch[k], Comparison(last, changed, changed == []))
    requires forall k :: i <= k < |batch| ==> last[batch[k].name] == base[batch[k].name]
    ensures Sifted(lib, threshold, base, batch, CompareFrom(lib, threshold, last, batch, i, changed))
    ensures var r := CompareFrom(lib, threshold, last, batch, i, changed); r.same <==> r.changed == []
    decreases |batch| - i
  {
    if i < |batch| {
      var cv := batch[i];
      assert cv !in batch[..i];
      if Differs(lib, threshold, last[cv.name], cv) {
        var changed' := changed + [cv];
        CompareSifts(lib, threshold, base, last[cv.name := Remembered(lib, cv)], batch, i + 1, changed');
      } else {
        CompareSifts(lib, threshold, base, last, batch, i + 1, changed);
      }
    }
  }

  lemma {:induction false} CompareUnknown(lib: Library, threshold: real, last: Memory, batch: seq<Sample>, i: nat,
                                         changed: seq<Sample>, k: nat)
    requires i <= k < |batch| && Readable(batch) && DistinctNames(batch)
    requires Unknown(last, batch[k].name)
    ensures CompareFrom(lib, threshold, last, batch, i, changed) == Fresh(lib, batch)
    decreases k - i
  {
    var cv := batch[i];
    if !Unknown(last, cv.name) {
      if Differs(lib, threshold, last[cv.name], cv) {
        CompareUnknown(lib, threshold, last[cv.name := Remembered(lib, cv)], batch, i + 1, changed + [cv], k);
      } else {
        CompareUnknown(lib, threshold, last, batch, i + 1, changed, k);
      }
    }
  }

  lemma {:induction false} SubsetOfSameSize(x: set<string>, y: set<string>)
    requires x <= y && |x| == |y|
    ensures x == y
  {
    if e :| e in y && e !in x {
      assert |y - {e}| == |y| - 1;
      SubsetSize(x, y - {e});
    }
  }

  lemma {:induction false} SubsetSize(x: set<string>, y: set<string>)
    requires x <= y
    ensures |x| <= |y|
    decreases x
  {
    if e :| e in x { SubsetSize(x - {e}, y - {e}); }
  }

  // A comparison either starts afresh with the whole batch, or sifts it.
  lemma CompareCases(lib: Library, threshold: real, last: Memory, batch: seq<Sample>)
    requires Readable(batch) && DistinctNames(batch)
    ensures var r := Compare(lib, threshold, last, batch);
      r == Fresh(lib, batch) ||
      (last.Keys == Names(batch) && Sifted(lib, threshold, last, batch, r) && (r.same <==> r.changed == []))
  {
    if |last| == |Names(batch)| {
      if k :| 0 <= k < |batch| && Unknown(last, batch[k].name) {
        CompareUnknown(lib, threshold, last, batch, 0, [], k);
      } else {
        assert AllKnown(last, batch);
        CompareSifts(lib, threshold, last, last, batch, 0, []);
        SubsetOfSameSize(Names(batch), last.Keys);
      }
    }
  }

  // ---- Runs ----

  datatype World = World(memory: Memory, view: View, latest: Option<seq<Sample>>)

  function Step(lib: Library, c: Config, w: World, read: Read): World
    requires Usable(read)
  {
    var (memory, sent) := Execute(lib, c, w.memory, read);
    World(memory,
      if sent.Some? then Overlay(w.view, sent.value) else w.view,
      if read.Values? then Some(read.batch) else w.latest)
  }

  // Any mix of failed run, empty run and proper batches.
  predicate ProperRun(kinds: map<string, Kind>, run: seq<Read>) {
    forall i :: 0 <= i < |run| && run[i].Values? ==> Proper(kinds, run[i].batch)
  }

  function Run(lib: Library, c: Config, kinds: map<string, Kind>, run: seq<Read>): World
    requires ProperRun(kinds, run)
  {
    if run == [] then World(map[], map[], None)
    else
      var init, last := run[..|run| - 1], run[|run| - 1];
      if last.Values? then ProperReadable(kinds, last.batch); Step(lib, c, Run(lib, c, kinds, init), last)
      else Step(lib, c, Run(lib, c, kinds, init), last)
  }

  // The receiver's value against the latest sample.
  predicate Near(lib: Library, cv: Sample, shown: Value, bound: real) {
    match cv.kind
    case Numeric => shown.Number? && cv.value.Number? && Distance(shown.r, cv.value.r) <= bound
    case Binary => shown.Bytes? && cv.value.Bytes? && Checksum(lib, shown.b) == Checksum(lib, cv.value.b)
    case Plain => shown == cv.value
  }

  predicate ViewWithin(lib: Library, w: World, bound: real) {
    w.latest.Some? ==>
      forall cv :: cv in w.latest.value ==> cv.name in w.view && Near(lib, cv, w.view[cv.name], bound)
  }

  // The receiver's value against the executor's memory.
  predicate Backed(lib: Library, kind: Kind, remembered: Value, shown: Value, slack: real) {
    match kind
    case Numeric => remembered.Number? && shown.Number? && Distance(remembered.r, shown.r) <= slack
    case Binary => shown.Bytes? && remembered == Number(Checksum(lib, shown.b) as real)
    case Plain => remembered == shown && shown != Null
  }

  // The latest sample against the executor's memory.
  predicate UpToDate(lib: Library, threshold: real, remembered: Value, cv: Sample) {
    OfKind(cv) &&
    match cv.kind
    case Numeric => remembered.Number? && Distance(remembered.r, cv.value.r) <= threshold
    case _ => remembered == Remembered(lib, cv)
  }

  predicate AllBacked(lib: Library, kinds: map<string, Kind>, w: World, slack: real) {
    forall name :: name in w.memory ==>
      name in kinds && name in w.view && Backed(lib, kinds[name], w.memory[name], w.view[name], slack)
  }

  predicate AllUpToDate(lib: Library, threshold: real, memory: Memory, batch: seq<Sample>) {
    && memory.Keys == Names(batch)
    && forall cv :: cv in batch ==> cv.name in memory && UpToDate(lib, threshold, memory[cv.name], cv)
  }

  // What every execution keeps. The slack between memory and view is zero when
  // only changes are sent, and the threshold when whole batches are.
  predicate Inv(lib: Library, c: Config, kinds: map<string, Kind>, w: World) {
    && AllBacked(lib, kinds, w, Slack(c))
    && match w.latest
       case None => w.memory == map[]
       case Some(batch) => Proper(kinds, batch) && AllUpToDate(lib, c.threshold, w.memory, batch)
  }

  function Slack(c: Config): real { if c.changedOnly then 0.0 else c.threshold }

  lemma FreshKeeps(lib: Library, c: Config, kinds: map<string, Kind>, w: World, batch: seq<Sample>)
    requires Proper(kinds, batch) && Readable(batch) && c.threshold >= 0.0
    ensures Inv(lib, c, kinds, World(Renewed(lib, batch), Overlay(w.view, batch), Some(batch)))
  {
    RenewedKeys(lib, batch);
    DistinctUnique(batch);
    var memory, view := Renewed(lib, batch), Overlay(w.view, batch);
    forall cv | cv in batch
      ensures cv.name in memory && memory[cv.name] == Remembered(lib, cv)
      ensures cv.name in view && view[cv.name] == cv.value
    {
      var i :| 0 <= i < |batch| && batch[i] == cv;
      RenewedAt(lib, batch, i);
      OverlayHit(w.view, batch, cv);
    }
    BackedByName(lib, c, kinds, batch, World(memory, view, Some(batch)));
  }

  // The view after a sifted batch was sent, for one sample of the batch.
  lemma SentView(lib: Library, c: Config, kinds: map<string, Kind>, w: World, batch: seq<Sample>, r: Comparison,
                 cv: Sample)
    requires Proper(kinds, batch) && Readable(batch) && cv in batch
    requires Sifted(lib, c.threshold, w.memory, batch, r)
    ensures var sent := if r.changed == [] then [] else if c.changedOnly then r.changed else batch;
      var view := Overlay(w.view, sent);
      if cv in sent then cv.name in view && view[cv.name] == cv.value
      else cv.name in w.view ==> cv.name in view && view[cv.name] == w.view[cv.name]
  {
    DistinctUnique(batch);
    var sent := if r.changed == [] then [] else if c.changedOnly then r.changed else batch;
    if cv in sent { OverlayHit(w.view, sent, cv); } else { OverlayMiss(w.view, sent, cv.name); }
  }

  // One sample: the memory stays within the threshold of the sample, and the
  // view within the slack of the memory.
  lemma SampleKept(lib: Library, c: Config, cv: Sample, was: Value, shownWas: Value, changed: bool, sent: bool,
                   now: Value, shown: Value)
    requires c.threshold >= 0.0 && OfKind(cv) && Backed(lib, cv.kind, was, shownWas, Slack(c))
    requires changed <==> Differs(lib, c.threshold, was, cv)
    requires changed ==> sent
    requires c.changedOnly && sent ==> changed
    requires now == if changed then Remembered(lib, cv) else was
    requires shown == if sent then cv.value else shownWas
    ensures UpToDate(lib, c.threshold, now, cv) && Backed(lib, cv.kind, now, shown, Slack(c))
  {
  }

  lemma SiftedSample(lib: Library, c: Config, kinds: map<string, Kind>, w: World, batch: seq<Sample>, r: Comparison,
                     cv: Sample, sent: seq<Sample>)
    requires AllBacked(lib, kinds, w, Slack(c)) && Proper(kinds, batch) && Readable(batch) && c.threshold >= 0.0
    requires w.memory.Keys == Names(batch) && Sifted(lib, c.threshold, w.memory, batch, r)
    requires cv in batch && sent == if r.changed == [] then [] else if c.changedOnly then r.changed else batch
    ensures cv.name in r.last && UpToDate(lib, c.threshold, r.last[cv.name], cv)
    ensures var view := Overlay(w.view, sent);
      cv.name in view && Backed(lib, cv.kind, r.last[cv.name], view[cv.name], Slack(c))
  {
    var i :| 0 <= i < |batch| && batch[i] == cv;
    assert SampleSifted(lib, c.threshold, w.memory, batch[i], r);
    SentView(lib, c, kinds, w, batch, r, cv);
    SampleKept(lib, c, cv, w.memory[cv.name], w.view[cv.name], cv in r.changed, cv in sent,
      r.last[cv.name], Overlay(w.view, sent)[cv.name]);
  }

  lemma SiftedKeeps(lib: Library, c: Config, kinds: map<string, Kind>, w: World, batch: seq<Sample>, r: Comparison)
    requires Inv(lib, c, kinds, w) && Proper(kinds, batch) && Readable(batch) && c.threshold >= 0.0
    requires w.memory.Keys == Names(batch) && Sifted(lib, c.threshold, w.memory, batch, r)
    ensures var sent := if r.changed == [] then [] else if c.changedOnly then r.changed else batch;
      Inv(lib, c, kinds, World(r.last, Overlay(w.view, sent), Some(batch)))
  {
    var sent := if r.changed == [] then [] else if c.changedOnly then r.changed else batch;
    var view := Overlay(w.view, sent);
    forall cv | cv in batch
      ensures cv.name in r.last && UpToDate(lib, c.threshold, r.last[cv.name], cv)
      ensures cv.name in view && Backed(lib, cv.kind, r.last[cv.name], view[cv.name], Slack(c))
    {
      SiftedSample(lib, c, kinds, w, batch, r, cv, sent);
    }
    BackedByName(lib, c, kinds, batch, World(r.last, view, Some(batch)));
  }

  lemma BackedByName(lib: Library, c: Config, kinds: map<string, Kind>, batch: seq<Sample>, w: World)
    requires Proper(kinds, batch) && w.memory.Keys == Names(batch)
    requires forall cv :: cv in batch ==>
      cv.name in w.memory && cv.name in w.view && Backed(lib, cv.kind, w.memory[cv.name], w.view[cv.name], Slack(c))
    ensures AllBacked(lib, kinds, w, Slack(c))
  {
  }

  lemma StepKeeps(lib: Library, c: Config, kinds: map<string, Kind>, w: World, read: Read)
    requires c.onChange && c.threshold >= 0.0 && Inv(lib, c, kinds, w)
    requires read.Values? ==> Proper(kinds, read.batch)
    requires Usable(read)
    ensures Inv(lib, c, kinds, Step(lib, c, w, read))
  {
    if read.Values? {
      var batch := read.batch;
      var r := Compare(lib, c.threshold, w.memory, batch);
      CompareCases(lib, c.threshold, w.memory, batch);
      if r == Fresh(lib, batch) {
        FreshKeeps(lib, c, kinds, w, batch);
      } else {
        SiftedKeeps(lib, c, kinds, w, batch, r);
        assert r.changed == [] ==> Overlay(w.view, []) == w.view;
      }
    }
  }

  lemma {:induction false} RunKeeps(lib: Library, c: Config, kinds: map<string, Kind>, run: seq<Read>)
    requires c.onChange && c.threshold >= 0.0 && ProperRun(kinds, run)
    ensures Inv(lib, c, kinds, Run(lib, c, kinds, run))
  {
    if run != [] {
      var init, last := run[..|run| - 1], run[|run| - 1];
      RunKeeps(lib, c, kinds, init);
      if last.Values? { ProperReadable(kinds, last.batch); }
      StepKeeps(lib, c, kinds, Run(lib, c, kinds, init), last);
    }
  }

  // The bound: the threshold when only changes are sent, twice the threshold
  // when whole batches are sent.
  lemma BoundedStaleness(lib: Library, c: Config, kinds: map<string, Kind>, run: seq<Read>)
    requires c.onChange && c.threshold >= 0.0 && ProperRun(kinds, run)
    ensures ViewWithin(lib, Run(lib, c, kinds, run), if c.changedOnly then c.threshold else 2.0 * c.threshold)
  {
    RunKeeps(lib, c, kinds, run);
    var w := Run(lib, c, kinds, run);
    if w.latest.Some? {
      forall cv | cv in w.latest.value
        ensures cv.name in w.view &&
          Near(lib, cv, w.view[cv.name], if c.changedOnly then c.threshold else 2.0 * c.threshold)
      {
        assert UpToDate(lib, c.threshold, w.memory[cv.name], cv);
        assert Backed(lib, kinds[cv.name], w.memory[cv.name], w.view[cv.name], Slack(c));
      }
    }
  }

  // Without on-change every batch is sent, and the view is exact.
  lemma {:induction false} AlwaysSentExact(lib: Library, c: Config, kinds: map<string, Kind>, run: seq<Read>)
    requires !c.onChange && ProperRun(kinds, run)
    ensures ViewWithin(lib, Run(lib, c, kinds, run), 0.0)
    ensures Run(lib, c, kinds, run).latest.Some? ==> Proper(kinds, Run(lib, c, kinds, run).latest.value)
  {
    if run != [] {
      var init, last := run[..|run| - 1], run[|run| - 1];
      AlwaysSentExact(lib, c, kinds, init);
      if last.Values? {
        ProperReadable(kinds, last.batch);
        DistinctUnique(last.batch);
        forall cv | cv in last.batch {
          OverlayHit(Run(lib, c, kinds, init).view, last.batch, cv);
        }
      }
    }
  }

  // ---- The bound for whole batches cannot be improved ----

  function Pair(n: string, m: string, x: real, y: real): seq<Sample> {
    [Sample(n, Numeric, Number(x)), Sample(m, Numeric, Number(y))]
  }

  function PairMemory(n: string, m: string, x: real, y: real): Memory {
    map[n := Number(x), m := Number(y)]
  }

  lemma PairProper(n: string, m: string, x: real, y: real)
    requires n != m
    ensures Proper(map[n := Numeric, m := Numeric], Pair(n, m, x, y)) && Readable(Pair(n, m, x, y))
    ensures Names(Pair(n, m, x, y)) == PairMemory(n, m, x, y).Keys == {n, m}
  {
    var batch := Pair(n, m, x, y);
    assert Names(batch) == {n, m} by {
      assert batch[0].name in Names(batch) && batch[1].name in Names(batch);
    }
  }

  lemma PairOverlaid(lib: Library, n: string, m: string, x: real, y: real, view: View)
    requires n != m
    ensures Readable(Pair(n, m, x, y))
    ensures Renewed(lib, Pair(n, m, x, y)) == PairMemory(n, m, x, y)
    ensures Overlay(view, Pair(n, m, x, y)) == view[n := Number(x)][m := Number(y)]
  {
    var batch := Pair(n, m, x, y);
    var first := batch[..1];
    assert first == [batch[0]] && first[..0] == [];
    assert Renewed(lib, first) == map[n := Number(x)];
    assert Overlay(view, first) == view[n := Number(x)];
  }

  lemma CompareStep(lib: Library, t: real, last: Memory, batch: seq<Sample>, i: nat, changed: seq<Sample>)
    requires i <= |batch| && Readable(batch)
    ensures CompareFrom(lib, t, last, batch, i, changed) ==
      if i == |batch| then Comparison(last, changed, changed == [])
      else if Unknown(last, batch[i].name) then Fresh(lib, batch)
      else if Differs(lib, t, last[batch[i].name], batch[i])
      then CompareFrom(lib, t, last[batch[i].name := Remembered(lib, batch[i])], batch, i + 1, changed + [batch[i]])
      else CompareFrom(lib, t, last, batch, i + 1, changed)
  {
  }

  lemma PairRemembered(n: string, m: string, u: real, v: real, y: real)
    requires n != m
    ensures |PairMemory(n, m, u, v)| == 2
    ensures PairMemory(n, m, u, v)[n] == Number(u) && PairMemory(n, m, u, v)[m] == Number(v)
    ensures PairMemory(n, m, u, v)[m := Number(y)] == PairMemory(n, m, u, y)
  {
    assert PairMemory(n, m, u, v).Keys == {n, m};
    assert |PairMemory(n, m, u, v)| == |{n, m}|;
  }

  // Comparing a pair with a remembered pair, when the first value is within
  // the threshold.
  lemma PairCompared(lib: Library, t: real, n: string, m: string, u: real, v: real, x: real, y: real)
    requires n != m && Distance(u, x) <= t
    ensures Readable(Pair(n, m, x, y))
    ensures var batch := Pair(n, m, x, y);
      Compare(lib, t, PairMemory(n, m, u, v), batch) ==
        if Distance(v, y) > t then Comparison(PairMemory(n, m, u, y), [batch[1]], false)
        else Comparison(PairMemory(n, m, u, v), [], true)
  {
    hide CompareFrom, Fresh, Names, Proper;
    var last, batch := PairMemory(n, m, u, v), Pair(n, m, x, y);
    PairProper(n, m, x, y);
    PairRemembered(n, m, u, v, y);
    assert |{n, m}| == 2;
    CompareStep(lib, t, last, batch, 0, []);
    CompareStep(lib, t, last, batch, 1, []);
    CompareStep(lib, t, last, batch, 2, []);
    var changed: seq<Sample> := [];
    CompareStep(lib, t, PairMemory(n, m, u, y), batch, 2, changed + [batch[1]]);
    assert changed + [batch[1]] == [batch[1]];
  }

  lemma {:induction false} RunStep(lib: Library, c: Config, kinds: map<string, Kind>, run: seq<Read>, read: Read)
    requires ProperRun(kinds, run + [read])
    ensures ProperRun(kinds, run) && Usable(read)
    ensures Run(lib, c, kinds, run + [read]) == Step(lib, c, Run(lib, c, kinds, run), read)
  {
    var whole := run + [read];
    assert whole[|whole| - 1] == read && whole[..|whole| - 1] == run;
    forall i | 0 <= i < |run| && run[i].Values? ensures Proper(kinds, run[i].batch) { assert whole[i] == run[i]; }
    if read.Values? { ProperReadable(kinds, read.batch); }
  }

  lemma FirstRead(lib: Library, c: Config, n: string, m: string, w: World)
    requires n != m && c.onChange && w.memory == map[]
    ensures Usable(Values(Pair(n, m, 0.0, 0.0)))
    ensures Step(lib, c, w, Values(Pair(n, m, 0.0, 0.0))).memory == PairMemory(n, m, 0.0, 0.0)
  {
    PairProper(n, m, 0.0, 0.0);
    PairOverlaid(lib, n, m, 0.0, 0.0, map[]);
    assert |w.memory| == 0 && |{n, m}| == 2;
  }

  lemma SecondRead(lib: Library, t: real, n: string, m: string, w: World)
    requires n != m && t > 0.0 && w.memory == PairMemory(n, m, 0.0, 0.0)
    ensures Usable(Values(Pair(n, m, t, 3.0 * t)))
    ensures var w' := Step(lib, Config(true, t, false), w, Values(Pair(n, m, t, 3.0 * t)));
      w'.memory == PairMemory(n, m, 0.0, 3.0 * t) && n in w'.view && w'.view[n] == Number(t)
  {
    hide Compare, Renewed, Overlay, Names;
    var c, batch := Config(true, t, false), Pair(n, m, t, 3.0 * t);
    PairProper(n, m, t, 3.0 * t);
    PairCompared(lib, t, n, m, 0.0, 0.0, t, 3.0 * t);
    assert Execute(lib, c, w.memory, Values(batch)) == (PairMemory(n, m, 0.0, 3.0 * t), Some(batch));
    PairOverlaid(lib, n, m, t, 3.0 * t, w.view);
  }

  lemma ThirdRead(lib: Library, t: real, n: string, m: string, w: World)
    requires n != m && t > 0.0 && w.memory == PairMemory(n, m, 0.0, 3.0 * t)
    ensures Usable(Values(Pair(n, m, -t, 3.0 * t)))
    ensures Step(lib, Config(true, t, false), w, Values(Pair(n, m, -t, 3.0 * t))) ==
      World(w.memory, w.view, Some(Pair(n, m, -t, 3.0 * t)))
  {
    hide Compare, Renewed, Overlay, Names, PairMemory;
    var c, batch := Config(true, t, false), Pair(n, m, -t, 3.0 * t);
    PairProper(n, m, -t, 3.0 * t);
    PairCompared(lib, t, n, m, 0.0, 3.0 * t, -t, 3.0 * t);
    assert Execute(lib, c, w.memory, Values(batch)) == (w.memory, None);
  }

  // Three readings of two resources leave the receiver exactly twice the
  // threshold away from the latest value of the first.
  function DriftingRun(t: real, n: string, m: string): seq<Read> {
    [] + [Values(Pair(n, m, 0.0, 0.0))] + [Values(Pair(n, m, t, 3.0 * t))] + [Values(Pair(n, m, -t, 3.0 * t))]
  }

  lemma DriftingRunProper(t: real, n: string, m: string)
    requires n != m
    ensures ProperRun(map[n := Numeric, m := Numeric], DriftingRun(t, n, m))
  {
  }

  lemma DriftingRunEnds(lib: Library, t: real, n: string, m: string)
    requires t > 0.0 && n != m
    ensures ProperRun(map[n := Numeric, m := Numeric], DriftingRun(t, n, m))
    ensures var w := Run(lib, Config(true, t, false), map[n := Numeric, m := Numeric], DriftingRun(t, n, m));
      w.latest == Some(Pair(n, m, -t, 3.0 * t)) && n in w.view && w.view[n] == Number(t)
  {
    var c, kinds := Config(true, t, false), map[n := Numeric, m := Numeric];
    var r0, r1, r2 := Values(Pair(n, m, 0.0, 0.0)), Values(Pair(n, m, t, 3.0 * t)), Values(Pair(n, m, -t, 3.0 * t));
    DriftingRunProper(t, n, m);
    RunStep(lib, c, kinds, [] + [r0] + [r1], r2);
    RunStep(lib, c, kinds, [] + [r0], r1);
    RunStep(lib, c, kinds, [], r0);
    FirstRead(lib, c, n, m, Run(lib, c, kinds, []));
    SecondRead(lib, t, n, m, Run(lib, c, kinds, [] + [r0]));
    ThirdRead(lib, t, n, m, Run(lib, c, kinds, [] + [r0] + [r1]));
  }

  lemma BoundAttained(lib: Library, t: real, n: string, m: string, bound: real)
    requires t > 0.0 && n != m
    ensures ProperRun(map[n := Numeric, m := Numeric], DriftingRun(t, n, m))
    ensures var w := Run(lib, Config(true, t, false), map[n := Numeric, m := Numeric], DriftingRun(t, n, m));
      ViewWithin(lib, w, bound) ==> bound >= 2.0 * t
  {
    DriftingRunEnds(lib, t, n, m);
    assert Pair(n, m, -t, 3.0 * t)[0] in Pair(n, m, -t, 3.0 * t);
  }

  // When only changes are sent, a value that drifts by the threshold is not:
  // the receiver is the whole threshold away.
  function DriftedRun(t: real, n: string, m: string): seq<Read> {
    [] + [Values(Pair(n, m, 0.0, 0.0))] + [Values(Pair(n, m, t, 0.0))]
  }

  lemma DriftedRunProper(t: real, n: string, m: string)
    requires n != m
    ensures ProperRun(map[n := Numeric, m := Numeric], DriftedRun(t, n, m))
  {
    PairProper(n, m, 0.0, 0.0);
    PairProper(n, m, t, 0.0);
  }

  lemma DriftedRead(lib: Library, t: real, n: string, m: string, w: World)
    requires n != m && t >= 0.0 && w.memory == PairMemory(n, m, 0.0, 0.0)
    ensures Usable(Values(Pair(n, m, t, 0.0)))
    ensures Step(lib, Config(true, t, true), w, Values(Pair(n, m, t, 0.0))) ==
      World(w.memory, w.view, Some(Pair(n, m, t, 0.0)))
  {
    hide Compare, Renewed, Overlay, Names, PairMemory;
    var c, batch := Config(true, t, true), Pair(n, m, t, 0.0);
    PairProper(n, m, t, 0.0);
    PairCompared(lib, t, n, m, 0.0, 0.0, t, 0.0);
    assert Execute(lib, c, w.memory, Values(batch)) == (w.memory, None);
  }

  lemma FirstView(lib: Library, c: Config, n: string, m: string, w: World)
    requires n != m && c.onChange && w.memory == map[]
    ensures Usable(Values(Pair(n, m, 0.0, 0.0)))
    ensures var w' := Step(lib, c, w, Values(Pair(n, m, 0.0, 0.0)));
      n in w'.view && w'.view[n] == Number(0.0)
  {
    PairProper(n, m, 0.0, 0.0);
    PairOverlaid(lib, n, m, 0.0, 0.0, w.view);
    assert |w.memory| == 0 && |{n, m}| == 2;
  }

  lemma DriftedRunEnds(lib: Library, t: real, n: string, m: string)
    requires t >= 0.0 && n != m
    ensures ProperRun(map[n := Numeric, m := Numeric], DriftedRun(t, n, m))
    ensures var w := Run(lib, Config(true, t, true), map[n := Numeric, m := Numeric], DriftedRun(t, n, m));
      w.latest == Some(Pair(n, m, t, 0.0)) && n in w.view && w.view[n] == Number(0.0)
  {
    var c, kinds := Config(true, t, true), map[n := Numeric, m := Numeric];
    var r0, r1 := Values(Pair(n, m, 0.0, 0.0)), Values(Pair(n, m, t, 0.0));
    DriftedRunProper(t, n, m);
    RunStep(lib, c, kinds, [] + [r0], r1);
    RunStep(lib, c, kinds, [], r0);
    FirstRead(lib, c, n, m, Run(lib, c, kinds, []));
    FirstView(lib, c, n, m, Run(lib, c, kinds, []));
    DriftedRead(lib, t, n, m, Run(lib, c, kinds, [] + [r0]));
  }

  lemma ChangedOnlyBoundAttained(lib: Library, t: real, n: string, m: string, bound: real)
    requires t >= 0.0 && n != m
    ensures ProperRun(map[n := Numeric, m := Numeric], DriftedRun(t, n, m))
    ensures var w := Run(lib, Config(true, t, true), map[n := Numeric, m := Numeric], DriftedRun(t, n, m));
      ViewWithin(lib, w, bound) ==> bound >= t
  {
    DriftedRunEnds(lib, t, n, m);
    assert Pair(n, m, t, 0.0)[0] in Pair(n, m, t, 0.0);
  }
}
