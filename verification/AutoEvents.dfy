// The on-change auto-event executor (executor.py): what it remembers, what it
// sends, and how far a receiver can be from the latest reading.
module AutoEvents {
  import opened Wrappers

  // How a value type is compared: with the threshold, by checksum, or for
  // equality.
  datatype Kind = Numeric | Binary | Plain

  datatype Value = Null | Number(r: real) | Bytes(b: seq<int>) | Text(s: string)

  datatype Sample = Sample(name: string, kind: Kind, value: Value)

  // The checksum of bytes, and the float that a text parses to.
  datatype Library = Library(crc: seq<int> -> int, parse: string -> Option<real>)

  function Checksum(lib: Library, b: seq<int>): int { lib.crc(b) }

  function ParseFloat(lib: Library, s: string): Option<real> { lib.parse(s) }

  // `_to_float`, with 0 for what cannot be converted.
  function ToFloat(lib: Library, v: Value): real {
    match v
    case Number(r) => r
    case Text(s) => (match ParseFloat(lib, s) case Some(r) => r case None => 0.0)
    case _ => 0.0
  }

  function Distance(x: real, y: real): real { if x >= y then x - y else y - x }

  // A binary sample carries bytes; the checksum of None would raise.
  predicate Readable(batch: seq<Sample>) {
    forall i :: 0 <= i < |batch| && batch[i].kind == Binary ==> batch[i].value.Bytes?
  }

  // What the executor remembers of a sample.
  function Remembered(lib: Library, cv: Sample): Value
    requires cv.kind == Binary ==> cv.value.Bytes?
  {
    if cv.kind == Binary then Number(Checksum(lib, cv.value.b) as real) else cv.value
  }

  predicate Differs(lib: Library, threshold: real, last: Value, cv: Sample)
    requires cv.kind == Binary ==> cv.value.Bytes?
  {
    match cv.kind
    case Numeric => Distance(ToFloat(lib, last), ToFloat(lib, cv.value)) > threshold
    case _ => last != Remembered(lib, cv)
  }

  type Memory = map<string, Value>

  function Names(batch: seq<Sample>): set<string> {
    set i | 0 <= i < |batch| :: batch[i].name
  }

  // `_renew_last_readings`
  function Renewed(lib: Library, batch: seq<Sample>): Memory
    requires Readable(batch)
  {
    if batch == [] then map[]
    else var cv := batch[|batch| - 1]; Renewed(lib, batch[..|batch| - 1])[cv.name := Remembered(lib, cv)]
  }

  predicate Unknown(last: Memory, name: string) {
    name !in last || last[name] == Null
  }

  datatype Comparison = Comparison(last: Memory, changed: seq<Sample>, same: bool)

  function Fresh(lib: Library, batch: seq<Sample>): Comparison
    requires Readable(batch)
  {
    Comparison(Renewed(lib, batch), batch, false)
  }

  // The loop of `_compare_readings` from sample i on.
  function CompareFrom(lib: Library, threshold: real, last: Memory, batch: seq<Sample>, i: nat,
                       changed: seq<Sample>): Comparison
    requires i <= |batch| && Readable(batch)
    decreases |batch| - i
  {
    if i == |batch| then Comparison(last, changed, changed == [])
    else
      var cv := batch[i];
      if Unknown(last, cv.name) then Fresh(lib, batch)
      else if Differs(lib, threshold, last[cv.name], cv)
      then CompareFrom(lib, threshold, last[cv.name := Remembered(lib, cv)], batch, i + 1, changed + [cv])
      else CompareFrom(lib, threshold, last, batch, i + 1, changed)
  }

  function Compare(lib: Library, threshold: real, last: Memory, batch: seq<Sample>): Comparison
    requires Readable(batch)
  {
    if |last| != |Names(batch)| then Fresh(lib, batch) else CompareFrom(lib, threshold, last, batch, 0, [])
  }

  // A read raises, gives nothing, or gives samples.
  datatype Read = Raised | Empty | Values(batch: seq<Sample>)

  datatype Config = Config(onChange: bool, threshold: real, changedOnly: bool)

  predicate Usable(read: Read) {
    read.Values? ==> read.batch != [] && Readable(read.batch)
  }

  // One execution: the new memory and the batch handed to the send handler.
  function Execute(lib: Library, c: Config, last: Memory, read: Read): (Memory, Option<seq<Sample>>)
    requires Usable(read)
  {
    if !read.Values? then (last, None)
    else if !c.onChange then (last, Some(read.batch))
    else
      var result := Compare(lib, c.threshold, last, read.batch);
      (result.last,
        if result.same then None
        else Some(if c.changedOnly && result.changed != [] then result.changed else read.batch))
  }

  class AutoEventExecutor {
    const lib: Library
    const config: Config
    var lastReadings: Memory
    var changedReadings: seq<Sample>

    constructor (lib: Library, config: Config)
      ensures this.lib == lib && this.config == config && lastReadings == map[] && changedReadings == []
    {
      this.lib, this.config, lastReadings, changedReadings := lib, config, map[], [];
    }

    method RenewLastReadings(batch: seq<Sample>)
      requires Readable(batch)
      modifies this`lastReadings
      ensures lastReadings == Renewed(lib, batch)
    {
      lastReadings := map[];
      for i := 0 to |batch|
        invariant lastReadings == Renewed(lib, batch[..i])
      {
        assert batch[..i + 1][..i] == batch[..i];
        lastReadings := lastReadings[batch[i].name := Remembered(lib, batch[i])];
      }
      assert batch[..|batch|] == batch;
    }

    method CompareReadings(batch: seq<Sample>) returns (same: bool)
      requires Readable(batch)
      modifies this
      ensures Comparison(lastReadings, changedReadings, same) ==
        Compare(lib, config.threshold, old(lastReadings), batch)
    {
      if |lastReadings| != |Names(batch)| {
        RenewLastReadings(batch);
        changedReadings := batch;
        return false;
      }
      same := true;
      changedReadings := [];
      for i := 0 to |batch|
        invariant same == (changedReadings == [])
        invariant CompareFrom(lib, config.threshold, lastReadings, batch, i, changedReadings) ==
          Compare(lib, config.threshold, old(lastReadings), batch)
      {
        var cv := batch[i];
        if Unknown(lastReadings, cv.name) {
          RenewLastReadings(batch);
          changedReadings := batch;
          return false;
        }
        if Differs(lib, config.threshold, lastReadings[cv.name], cv) {
          lastReadings := lastReadings[cv.name := Remembered(lib, cv)];
          same := false;
          changedReadings := changedReadings + [cv];
        }
      }
    }

    method ExecuteOnce(read: Read) returns (sent: Option<seq<Sample>>)
      requires Usable(read)
      modifies this
      ensures (lastReadings, sent) == Execute(lib, config, old(lastReadings), read)
    {
      if !read.Values? { return None; }
      if config.onChange {
        var same := CompareReadings(read.batch);
        if same { return None; }
      }
      var values := read.batch;
      if config.onChange && config.changedOnly && changedReadings != [] {
        values := changedReadings;
      }
      return Some(values);
    }
  }
}
