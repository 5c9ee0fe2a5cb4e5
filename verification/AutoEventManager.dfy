// manager.py: one executor for each schedulable auto event of each device.
module AutoEventManager {
  import opened Wrappers
  import opened Maps

  // `scheduled` is whether the source has a name and the interval parses.
  datatype AutoEvent = AutoEvent(sourceName: string, scheduled: bool)

  // `eligible` is whether the device is neither locked nor DOWN.
  datatype Device = Device(name: string, eligible: bool, autoEvents: seq<AutoEvent>)

  // What an executor was started for.
  datatype Source = Source(device: string, sourceName: string)

  function Schedulable(d: Device): seq<Source> {
    if d.autoEvents == [] || !d.eligible then [] else From(d.name, d.autoEvents)
  }

  function From(name: string, events: seq<AutoEvent>): seq<Source> {
    if events == [] then []
    else
      var last := events[|events| - 1];
      From(name, events[..|events| - 1]) + if last.scheduled then [Source(name, last.sourceName)] else []
  }

  class Executor {
    const source: Source
    var running: bool

    constructor (source: Source)
      ensures this.source == source && !running
    {
      this.source, running := source, false;
    }

    method Start()
      modifies this
      ensures running
    {
      running := true;
    }

    method Stop()
      modifies this
      ensures !running
    {
      running := false;
    }
  }

  function Sources(executors: seq<Executor>): seq<Source> {
    seq(|executors|, i requires 0 <= i < |executors| => executors[i].source)
  }

  // The auto events that are scheduled, in order, and none of a device that is
  // locked or DOWN.
  predicate Picks(events: seq<AutoEvent>, places: seq<nat>) {
    && (forall k :: 0 <= k < |places| ==> places[k] < |events| && events[places[k]].scheduled)
    && (forall k, l :: 0 <= k < l < |places| ==> places[k] < places[l])
    && (forall i :: 0 <= i < |events| && events[i].scheduled ==> i in places)
  }

  lemma {:induction false} FromPicks(name: string, events: seq<AutoEvent>) returns (places: seq<nat>)
    ensures Picks(events, places) && |From(name, events)| == |places|
    ensures forall k :: 0 <= k < |places| ==>
      places[k] < |events| && From(name, events)[k] == Source(name, events[places[k]].sourceName)
  {
    hide Picks;
    if events == [] {
      places := [];
      NoPicks();
      return;
    }
    var n := |events| - 1;
    var init := events[..n];
    places := FromPicks(name, init);
    PicksStep(events, places);
    if events[n].scheduled { places := places + [n]; }
  }

  lemma NoPicks()
    ensures Picks([], [])
  {
  }

  lemma PicksStep(events: seq<AutoEvent>, earlier: seq<nat>)
    requires events != [] && Picks(events[..|events| - 1], earlier)
    ensures var n := |events| - 1; Picks(events, if events[n].scheduled then earlier + [n] else earlier)
  {
    var n := |events| - 1;
    var init := events[..n];
    var places := if events[n].scheduled then earlier + [n] else earlier;
    forall k | 0 <= k < |places| ensures places[k] < |events| && events[places[k]].scheduled {
      if k < |earlier| { assert places[k] == earlier[k] && init[earlier[k]] == events[earlier[k]]; }
    }
    forall i | 0 <= i < |events| && events[i].scheduled ensures i in places {
      if i < n { assert init[i] == events[i] && i in earlier; } else { assert places[|places| - 1] == n; }
    }
  }

  lemma SchedulableIs(d: Device) returns (places: seq<nat>)
    ensures !d.eligible ==> Schedulable(d) == []
    ensures d.eligible ==> Picks(d.autoEvents, places) && |Schedulable(d)| == |places|
    ensures d.eligible ==> forall k :: 0 <= k < |places| ==>
      places[k] < |d.autoEvents| && Schedulable(d)[k] == Source(d.name, d.autoEvents[places[k]].sourceName)
  {
    places := FromPicks(d.name, d.autoEvents);
  }

  datatype ManagerCall = Restart(name: string, device: Option<Device>) | Stop(name: string) | StopEverything {
    // A restart finds the device of that name in the cache, or none.
    predicate WellNamed() { Restart? && device.Some? ==> device.value.name == name }
  }

  class AutoEventManager {
    var executors: map<string, seq<Executor>>
    // Every executor ever made.
    ghost var made: set<Executor>
    // Those that a second `start_auto_events` forgot while they ran.
    ghost var forgotten: set<Executor>

    constructor ()
      ensures executors == map[] && made == {} && forgotten == {} && Coherent()
    {
      executors, made, forgotten := map[], {}, {};
    }

    // The executors that run are exactly the stored and the forgotten ones; each
    // is stored under the device it was made for.
    ghost predicate Coherent()
      reads this, made
    {
      && (forall name, i :: name in executors && 0 <= i < |executors[name]| ==>
        executors[name][i] in made && executors[name][i].source.device == name)
      && (forall e :: e in made ==> (e.running <==> Stored(e) || e in forgotten))
      && (forall e :: e in forgotten ==> e in made && !Stored(e))
    }

    ghost predicate Stored(e: Executor)
      reads this
    {
      e.source.device in executors && e in executors[e.source.device]
    }

    ghost predicate NoneStored()
      reads this
    {
      forall e :: e in made ==> !Stored(e)
    }

    // The executors that run are exactly the stored ones.
    ghost predicate LiveAreStored()
      reads this, made
    {
      forall e :: e in made ==> (e.running <==> Stored(e))
    }

    ghost function StoredUnder(name: string): seq<Source>
      reads this
    {
      if name in executors then Sources(executors[name]) else []
    }

    // `stop_for_device`
    method StopForDevice(name: string)
      requires Coherent()
      modifies this, made
      ensures Coherent() && made == old(made) && forgotten == old(forgotten)
      ensures executors == old(executors) - {name}
    {
      var existing := if name in executors then executors[name] else [];
      executors := executors - {name};
      for i := 0 to |existing|
        invariant executors == old(executors) - {name} && made == old(made) && forgotten == old(forgotten)
        invariant forall e :: e in made ==>
          (e.running <==> old(e.running) && e !in existing[..i])
      {
        existing[i].Stop();
      }
      assert existing[..|existing|] == existing;
    }

    method StartExecutor(source: Source)
      requires Coherent() && source.device in executors
      modifies this
      ensures Coherent() && fresh(made - old(made)) && old(made) <= made && forgotten == old(forgotten)
      ensures source.device in executors
      ensures executors - {source.device} == old(executors) - {source.device}
      ensures StoredUnder(source.device) == old(StoredUnder(source.device)) + [source]
    {
      ghost var was := executors[source.device];
      var executor := new Executor(source);
      executors := executors[source.device := executors[source.device] + [executor]];
      made := made + {executor};
      executor.Start();
      assert executors[source.device] == was + [executor];
    }

    method Reserve(name: string)
      requires Coherent()
      modifies this`executors
      ensures Coherent() && StoredUnder(name) == old(StoredUnder(name)) && name in executors
      ensures executors - {name} == old(executors) - {name}
    {
      executors := executors[name := if name in executors then executors[name] else []];
    }

    // `_start_for_device`
    method StartForDevice(d: Device)
      requires Coherent()
      modifies this
      ensures Coherent() && fresh(made - old(made)) && old(made) <= made && forgotten == old(forgotten)
      ensures StoredUnder(d.name) == old(StoredUnder(d.name)) + Schedulable(d)
      ensures d.name in executors <==> d.name in old(executors) || (d.autoEvents != [] && d.eligible)
      ensures executors - {d.name} == old(executors) - {d.name}
    {
      if d.autoEvents == [] || !d.eligible { return; }
      Reserve(d.name);
      hide Coherent, Sources;
      for i := 0 to |d.autoEvents|
        invariant d.name in executors && executors - {d.name} == old(executors) - {d.name}
        invariant Coherent() && fresh(made - old(made)) && old(made) <= made && forgotten == old(forgotten)
        invariant StoredUnder(d.name) == old(StoredUnder(d.name)) + From(d.name, d.autoEvents[..i])
      {
        assert d.autoEvents[..i + 1][..i] == d.autoEvents[..i];
        if d.autoEvents[i].scheduled {
          StartExecutor(Source(d.name, d.autoEvents[i].sourceName));
        }
      }
      assert d.autoEvents[..|d.autoEvents|] == d.autoEvents;
    }

    // `restart_for_device`; the device is None when it is not in the cache.
    method RestartForDevice(name: string, device: Option<Device>)
      requires Coherent() && (device.Some? ==> device.value.name == name)
      modifies this, made
      ensures Coherent() && fresh(made - old(made)) && forgotten == old(forgotten)
      ensures executors - {name} == old(executors) - {name}
      ensures StoredUnder(name) == if device.Some? then Schedulable(device.value) else []
    {
      StopForDevice(name);
      if device.Some? {
        StartForDevice(device.value);
      }
    }

    lemma LiveIff()
      requires Coherent()
      ensures LiveAreStored() <==> forgotten == {}
    {
      if e :| e in forgotten { assert e.running && !Stored(e); }
    }

    // The map is cleared, but nothing is stopped.
    method Forget()
      requires Coherent()
      modifies this
      ensures Coherent() && executors == map[] && made == old(made)
      ensures forgotten == old(forgotten) + set e | e in old(made) && old(Stored(e))
    {
      forgotten := forgotten + set e | e in made && Stored(e);
      executors := map[];
    }

    // `start_auto_events`
    method StartAutoEvents(devices: seq<Device>)
      requires Coherent()
      requires forall i, j :: 0 <= i < j < |devices| ==> devices[i].name != devices[j].name
      modifies this
      ensures Coherent() && fresh(made - old(made))
      ensures forgotten == old(forgotten) + set e | e in old(made) && old(Stored(e))
      ensures LiveAreStored() <==> old(forgotten) == {} && old(NoneStored())
      ensures forall i :: 0 <= i < |devices| ==> StoredUnder(devices[i].name) == Schedulable(devices[i])
      ensures forall name :: name in executors ==> exists i :: 0 <= i < |devices| && devices[i].name == name
    {
      hide Coherent, Sources, Schedulable, Stored;
      Forget();
      ghost var lost := forgotten;
      for i := 0 to |devices|
        invariant Coherent() && fresh(made - old(made)) && forgotten == lost
        invariant forall k :: 0 <= k < i ==> StoredUnder(devices[k].name) == Schedulable(devices[k])
        invariant forall name :: name in executors ==> exists k :: 0 <= k < i && devices[k].name == name
      {
        ghost var before := executors;
        StartForDevice(devices[i]);
        OthersKept(before, executors, devices[i].name);
      }
      LiveIff();
    }

    // `stop_all`
    method StopAll()
      requires Coherent()
      modifies this, made
      ensures Coherent() && made == old(made) && forgotten == old(forgotten) && executors == map[]
    {
      var names := executors.Keys;
      while names != {}
        invariant names == executors.Keys
        invariant Coherent() && made == old(made) && forgotten == old(forgotten)
        decreases |names|
      {
        var name :| name in names;
        StopForDevice(name);
        names := names - {name};
      }
    }

    // One start of a new manager, and then any restarts and stops.
    method OneStart(devices: seq<Device>, calls: seq<ManagerCall>)
      requires Coherent() && executors == map[] && forgotten == {}
      requires forall i, j :: 0 <= i < j < |devices| ==> devices[i].name != devices[j].name
      requires forall i :: 0 <= i < |calls| ==> calls[i].WellNamed()
      modifies this, made
      ensures Coherent() && LiveAreStored()
    {
      StartAutoEvents(devices);
      LiveIff();
      for i := 0 to |calls|
        invariant Coherent() && forgotten == {} && fresh(made - old(made))
      {
        match calls[i]
        case Restart(name, device) => RestartForDevice(name, device);
        case Stop(name) => StopForDevice(name);
        case StopEverything => StopAll();
      }
      LiveIff();
    }
  }
}
