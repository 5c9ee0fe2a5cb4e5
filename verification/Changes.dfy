// Exactly when an on-change execution sends something, and what.
module Changes {
  import opened Wrappers
  import opened AutoEvents
  import opened Staleness

  // A sample against what is remembered for its name, by kind: further away than
  // the threshold, another checksum, or another value.
  predicate Moved(lib: Library, threshold: real, was: Value, cv: Sample) {
    match cv.kind
    case Numeric =>
      was.Number? && cv.value.Number? && (was.r - cv.value.r > threshold || cv.value.r - was.r > threshold)
    case Binary => was.Number? && cv.value.Bytes? && was.r != Checksum(lib, cv.value.b) as real
    case Plain => was != cv.value
  }

  // A memory of exactly the names of the batch, with a value for each.
  predicate Knows(memory: Memory, batch: seq<Sample>) {
    && memory.Keys == Names(batch)
    && forall i :: 0 <= i < |batch| ==> batch[i].name in memory && Remembers(memory[batch[i].name], batch[i].kind)
  }

  predicate Remembers(was: Value, kind: Kind) {
    if kind == Plain then was != Null else was.Number?
  }

  // The moved samples, in order.
  function MovedOf(lib: Library, threshold: real, memory: Memory, batch: seq<Sample>): seq<Sample>
    requires forall i :: 0 <= i < |batch| ==> batch[i].name in memory
  {
    if batch == [] then []
    else
      var last := batch[|batch| - 1];
      MovedOf(lib, threshold, memory, batch[..|batch| - 1]) +
        if Moved(lib, threshold, memory[last.name], last) then [last] else []
  }

  lemma MovedOfStep(lib: Library, threshold: real, memory: Memory, batch: seq<Sample>, i: nat)
    requires i < |batch| && forall k :: 0 <= k < |batch| ==> batch[k].name in memory
    ensures MovedOf(lib, threshold, memory, batch[..i + 1]) ==
      MovedOf(lib, threshold, memory, batch[..i]) +
      if Moved(lib, threshold, memory[batch[i].name], batch[i]) then [batch[i]] else []
  {
    hide Moved;
    assert batch[..i + 1][..i] == batch[..i];
  }

  lemma DiffersIsMoved(lib: Library, threshold: real, was: Value, cv: Sample)
    requires OfKind(cv) && Remembers(was, cv.kind)
    ensures was != Null
    ensures Differs(lib, threshold, was, cv) <==> Moved(lib, threshold, was, cv)
  {
  }

  lemma {:induction false} SiftFrom(lib: Library, threshold: real, memory: Memory, last: Memory, batch: seq<Sample>,
                                    i: nat, changed: seq<Sample>)
    requires i <= |batch| && Readable(batch) && DistinctNames(batch) && Knows(memory, batch)
    requires forall k :: 0 <= k < |batch| ==> OfKind(batch[k])
    requires last.Keys == memory.Keys
    requires forall k :: i <= k < |batch| ==> last[batch[k].name] == memory[batch[k].name]
    requires changed == MovedOf(lib, threshold, memory, batch[..i])
    ensures var r := CompareFrom(lib, threshold, last, batch, i, changed);
      r.changed == MovedOf(lib, threshold, memory, batch) && (r.same <==> r.changed == [])
    decreases |batch| - i
  {
    hide Differs, Moved, MovedOf, CompareFrom, Names, Remembers;
    CompareStep(lib, threshold, last, batch, i, changed);
    if i == |batch| {
      assert batch[..i] == batch;
    } else {
      var cv := batch[i];
      MovedOfStep(lib, threshold, memory, batch, i);
      assert Remembers(memory[cv.name], cv.kind);
      DiffersIsMoved(lib, threshold, memory[cv.name], cv);
      if Moved(lib, threshold, memory[cv.name], cv) {
        SiftFrom(lib, threshold, memory, last[cv.name := Remembered(lib, cv)], batch, i + 1, changed + [cv]);
      } else {
        assert changed + [] == changed;
        SiftFrom(lib, threshold, memory, last, batch, i + 1, changed);
      }
    }
  }

  lemma {:induction false} MovedOfEmpty(lib: Library, threshold: real, memory: Memory, batch: seq<Sample>)
    requires forall i :: 0 <= i < |batch| ==> batch[i].name in memory
    ensures MovedOf(lib, threshold, memory, batch) == [] <==>
      forall i :: 0 <= i < |batch| ==> !Moved(lib, threshold, memory[batch[i].name], batch[i])
  {
    hide Moved;
    if batch != [] { MovedOfEmpty(lib, threshold, memory, batch[..|batch| - 1]); }
  }

  lemma ProperKinds(kinds: map<string, Kind>, batch: seq<Sample>)
    requires Proper(kinds, batch)
    ensures forall i :: 0 <= i < |batch| ==> OfKind(batch[i])
  {
    forall i | 0 <= i < |batch| ensures OfKind(batch[i]) {
      assert batch[i] in batch;
    }
  }

  // With the names of the batch in memory, an execution sends nothing exactly
  // when no sample has moved. Otherwise it sends the moved samples in order, or
  // the whole batch, by mode.
  lemma SentIff(lib: Library, c: Config, kinds: map<string, Kind>, memory: Memory, batch: seq<Sample>)
    requires c.onChange && Proper(kinds, batch) && Knows(memory, batch)
    ensures Usable(Values(batch))
    ensures var (memory', sent) := Execute(lib, c, memory, Values(batch));
      var moved := MovedOf(lib, c.threshold, memory, batch);
      && (sent.None? <==> forall i :: 0 <= i < |batch| ==> !Moved(lib, c.threshold, memory[batch[i].name], batch[i]))
      && (sent.None? <==> moved == [])
      && (sent.Some? ==> sent.value == if c.changedOnly then moved else batch)
  {
    ProperReadable(kinds, batch);
    ProperKinds(kinds, batch);
    assert batch[..0] == [];
    assert |memory| == |memory.Keys|;
    SiftFrom(lib, c.threshold, memory, memory, batch, 0, []);
    MovedOfEmpty(lib, c.threshold, memory, batch);
    hide CompareFrom, Moved, MovedOf, Names;
  }

  // What is remembered afterwards: the moved samples anew, the rest as before.
  lemma RememberedAfter(lib: Library, c: Config, kinds: map<string, Kind>, memory: Memory, batch: seq<Sample>, i: nat)
    requires c.onChange && Proper(kinds, batch) && Knows(memory, batch) && i < |batch|
    ensures Usable(Values(batch)) && Readable(batch)
    ensures var memory' := Execute(lib, c, memory, Values(batch)).0;
      var cv := batch[i];
      && memory'.Keys == memory.Keys
      && memory'[cv.name] ==
        if Moved(lib, c.threshold, memory[cv.name], cv) then Remembered(lib, cv) else memory[cv.name]
  {
    ProperReadable(kinds, batch);
    ProperKinds(kinds, batch);
    assert |memory| == |memory.Keys|;
    CompareSifts(lib, c.threshold, memory, memory, batch, 0, []);
    DiffersIsMoved(lib, c.threshold, memory[batch[i].name], batch[i]);
    hide CompareFrom, Moved, Differs, Names;
    var r := CompareFrom(lib, c.threshold, memory, batch, 0, []);
    assert SampleSifted(lib, c.threshold, memory, batch[i], r);
  }

  // With other names in memory, or a missing value, an execution starts afresh:
  // the whole batch is sent and remembered.
  lemma FreshWhenUnknown(lib: Library, c: Config, memory: Memory, batch: seq<Sample>)
    requires c.onChange && batch != [] && Readable(batch) && DistinctNames(batch)
    requires |memory| != |Names(batch)| ||
      exists i :: 0 <= i < |batch| && (batch[i].name !in memory || memory[batch[i].name] == Null)
    ensures Execute(lib, c, memory, Values(batch)) == (Renewed(lib, batch), Some(batch))
  {
    if |memory| == |Names(batch)| {
      var k :| 0 <= k < |batch| && (batch[k].name !in memory || memory[batch[k].name] == Null);
      CompareUnknown(lib, c.threshold, memory, batch, 0, [], k);
    }
    hide CompareFrom, Renewed, Names;
  }

  // After any run, reading the same proper batch twice sends nothing the second
  // time, and changes nothing any more.
  lemma SameTwiceSendsNothing(lib: Library, c: Config, kinds: map<string, Kind>, run: seq<Read>, batch: seq<Sample>)
    requires c.onChange && c.threshold >= 0.0 && ProperRun(kinds, run) && Proper(kinds, batch)
    ensures Usable(Values(batch))
    ensures var once := Execute(lib, c, Run(lib, c, kinds, run).memory, Values(batch)).0;
      Execute(lib, c, once, Values(batch)) == (once, None)
  {
    ProperReadable(kinds, batch);
    ProperKinds(kinds, batch);
    RunKeeps(lib, c, kinds, run);
    var w := Run(lib, c, kinds, run);
    StepKeeps(lib, c, kinds, w, Values(batch));
    var once := Execute(lib, c, w.memory, Values(batch)).0;
    assert AllUpToDate(lib, c.threshold, once, batch);
    UpToDateKnows(lib, c.threshold, kinds, once, batch);
    SentIff(lib, c, kinds, once, batch);
    NothingRemembered(lib, c, kinds, once, batch);
  }

  lemma UpToDateKnows(lib: Library, threshold: real, kinds: map<string, Kind>, memory: Memory, batch: seq<Sample>)
    requires Proper(kinds, batch) && AllUpToDate(lib, threshold, memory, batch)
    ensures Knows(memory, batch)
    ensures forall i :: 0 <= i < |batch| ==> !Moved(lib, threshold, memory[batch[i].name], batch[i])
  {
    forall i | 0 <= i < |batch|
      ensures batch[i].name in memory && Remembers(memory[batch[i].name], batch[i].kind)
      ensures !Moved(lib, threshold, memory[batch[i].name], batch[i])
    {
      assert batch[i] in batch;
      assert UpToDate(lib, threshold, memory[batch[i].name], batch[i]);
    }
  }

  lemma NothingRemembered(lib: Library, c: Config, kinds: map<string, Kind>, memory: Memory, batch: seq<Sample>)
    requires c.onChange && Proper(kinds, batch) && Knows(memory, batch)
    requires forall i :: 0 <= i < |batch| ==> !Moved(lib, c.threshold, memory[batch[i].name], batch[i])
    ensures Usable(Values(batch)) && Execute(lib, c, memory, Values(batch)).0 == memory
  {
    hide Execute, Moved, Remembers, Differs;
    ProperReadable(kinds, batch);
    var memory' := Execute(lib, c, memory, Values(batch)).0;
    RememberedAfter(lib, c, kinds, memory, batch, 0);
    forall name | name in memory ensures name in memory' && memory'[name] == memory[name] {
      var i :| 0 <= i < |batch| && batch[i].name == name;
      RememberedAfter(lib, c, kinds, memory, batch, i);
    }
  }

  // Without on-change, and for reads that fail or give nothing.
  lemma AlwaysOrNever(lib: Library, c: Config, memory: Memory, read: Read)
    requires Usable(read)
    ensures !read.Values? ==> Execute(lib, c, memory, read) == (memory, None)
    ensures read.Values? && !c.onChange ==> Execute(lib, c, memory, read) == (memory, Some(read.batch))
  {
  }

  // A numeric sample whose value is no number counts as the number its text
  // parses to, or as zero.
  lemma FloatOf(lib: Library, v: Value)
    ensures v.Number? ==> ToFloat(lib, v) == v.r
    ensures v.Text? && ParseFloat(lib, v.s).Some? ==> ToFloat(lib, v) == ParseFloat(lib, v.s).value
    ensures !v.Number? && !(v.Text? && ParseFloat(lib, v.s).Some?) ==> ToFloat(lib, v) == 0.0
  {
  }

  // And it is compared as that number, whatever is remembered.
  lemma NumericDiffers(lib: Library, threshold: real, was: Value, cv: Sample)
    requires cv.kind == Numeric
    ensures var x, y := ToFloat(lib, was), ToFloat(lib, cv.value);
      Differs(lib, threshold, was, cv) <==> x - y > threshold || y - x > threshold
  {
  }
}
