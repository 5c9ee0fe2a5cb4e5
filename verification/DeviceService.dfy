// device_service.py: cache-first add, patch and delete of devices, undone when
// Core Metadata refuses.
module DeviceService {
  import opened Wrappers
  import opened Maps
  import opened Devices
  import opened Metadata

  // ---- The two stores by value ----

  // Unconfigured Core Metadata is None.
  datatype Stores = Stores(local: map<string, Record>, remote: Option<map<string, Fields>>)

  // How Core Metadata answers a request that it can serve: it accepts it, with
  // an id for an added device (empty when the response has none), or the client
  // raises MetadataError and nothing has changed there. Adding a name it has,
  // or patching or deleting one it has not, is refused anyway.
  datatype Reply = Accepted(id: string) | Refused

  // What the driver's validation says, unless it is bypassed.
  datatype Check = Bypassed | Passed | Failed

  datatype Operation =
    | AddDevice(name: string, id: string, fields: Fields, uid: string)
    | PatchDevice(name: string, updates: Updates)
    | DeleteDevice(name: string)

  datatype Outcome =
    | Done(id: string)
    | Duplicate
    | NotFound
    | ServerError
    | Unencodable // a TypeError of the JSON encoder, which nothing catches

  // `_add_device_to_metadata`
  function AddToMetadata(s: Stores, name: string, record: Record, check: Check, reply: Reply, uid: string):
    (Stores, Outcome)
  {
    var id := if record.id == "" then uid else record.id;
    if check.Failed? then (s, ServerError)
    else if s.remote.None? then (Stores(s.local[name := Record(id, record.fields)], None), Done(id))
    else if reply.Refused? || name in s.remote.value then (s, ServerError)
    else
      var newId := if reply.id != "" then reply.id else id;
      (Stores(s.local[name := Record(newId, record.fields)], Some(s.remote.value[name := Received(record.fields)])),
        Done(newId))
  }

  // What Core Metadata reads from the document of an added device.
  function Received(f: Fields): Fields { DeviceFromDto(DeviceToDto(f)) }

  function AddStep(key: string, s: Stores, op: Operation, check: Check, reply: Reply): (Stores, Outcome)
    requires op.AddDevice?
  {
    if op.name in s.local then (s, Duplicate)
    else AddToMetadata(s, op.name, Record(op.id, op.fields.(serviceName := key)), check, reply, op.uid)
  }

  function Updated(r: Record, u: Updates): Record { Record(OrElse(u.id, r.id), Apply(r.fields, u)) }

  function PatchStep(s: Stores, op: Operation, check: Check, reply: Reply): (Stores, Outcome)
    requires op.PatchDevice?
  {
    if op.name !in s.local then (s, NotFound)
    else
      var was := s.local[op.name];
      var record := Updated(was, op.updates);
      var local := s.local[op.name := record];
      if check.Failed? then (s, ServerError)
      else if s.remote.None? then (Stores(local, None), Done(record.id))
      else if !Encodable(op.updates) then (Stores(local, s.remote), Unencodable)
      else if reply.Refused? || op.name !in s.remote.value then (s, ServerError)
      else
        (Stores(local, Some(s.remote.value[op.name := Apply(s.remote.value[op.name], op.updates)])), Done(record.id))
  }

  function DeleteStep(s: Stores, op: Operation, reply: Reply): (Stores, Outcome)
    requires op.DeleteDevice?
  {
    if op.name !in s.local then (s, NotFound)
    else if s.remote.None? then (Stores(s.local - {op.name}, None), Done(""))
    else if reply.Refused? || op.name !in s.remote.value then (s, ServerError)
    else (Stores(s.local - {op.name}, Some(s.remote.value - {op.name})), Done(""))
  }

  function Step(key: string, s: Stores, op: Operation, check: Check, reply: Reply): (Stores, Outcome) {
    match op
    case AddDevice(_, _, _, _) => AddStep(key, s, op, check, reply)
    case PatchDevice(_, _) => PatchStep(s, op, check, reply)
    case DeleteDevice(_) => DeleteStep(s, op, reply)
  }

  // Two patches in a row are the merged patch, in both stores.
  lemma TwoPatches(key: string, s: Stores, name: string, u: Updates, v: Updates)
    requires Encodable(u) && Encodable(v)
    ensures var once := Step(key, s, PatchDevice(name, u), Bypassed, Accepted("")).0;
      Step(key, once, PatchDevice(name, v), Bypassed, Accepted("")).0 ==
      Step(key, s, PatchDevice(name, Merge(u, v)), Bypassed, Accepted("")).0
  {
    if name in s.local {
      PatchesMerge(s.local[name].fields, u, v);
      var once := Updated(s.local[name], u);
      assert Updated(once, v) == Updated(s.local[name], Merge(u, v));
      assert s.local[name := once][name := Updated(once, v)] == s.local[name := Updated(once, v)];
    }
    if s.remote.Some? && name in s.remote.value {
      PatchesMerge(s.remote.value[name], u, v);
      var once := Apply(s.remote.value[name], u);
      assert s.remote.value[name := once][name := Apply(once, v)] == s.remote.value[name := Apply(once, v)];
    }
    hide Apply;
  }

  // ---- Agreement, over every run ----

  // The same device names, with the same kept attributes.
  predicate Agree(s: Stores) {
    s.remote.Some? ==>
      && s.local.Keys == s.remote.value.Keys
      && forall name :: name in s.local ==> s.local[name].fields == s.remote.value[name]
  }

  // The one step that separates the stores: a patch that passes validation,
  // changes a kept attribute and carries AutoEvent objects.
  predicate Separates(s: Stores, op: Operation, check: Check) {
    && s.remote.Some? && op.PatchDevice? && op.name in s.local && !check.Failed?
    && !Encodable(op.updates)
    && Apply(s.local[op.name].fields, op.updates) != s.local[op.name].fields
  }

  lemma AddAgrees(key: string, s: Stores, op: Operation, check: Check, reply: Reply)
    requires Agree(s) && op.AddDevice?
    ensures Agree(AddStep(key, s, op, check, reply).0)
  {
    WireRoundTrip(op.fields.(serviceName := key));
  }

  lemma PatchAgreement(s: Stores, op: Operation, check: Check, reply: Reply)
    requires Agree(s) && op.PatchDevice?
    ensures Agree(PatchStep(s, op, check, reply).0) <==> !Separates(s, op, check)
  {
    if Separates(s, op, check) {
      assert op.name in PatchStep(s, op, check, reply).0.local;
    }
  }

  lemma StepAgreement(key: string, s: Stores, op: Operation, check: Check, reply: Reply)
    requires Agree(s)
    ensures Agree(Step(key, s, op, check, reply).0) <==> !Separates(s, op, check)
  {
    match op
    case AddDevice(_, _, _, _) => AddAgrees(key, s, op, check, reply);
    case PatchDevice(_, _) => PatchAgreement(s, op, check, reply);
    case DeleteDevice(_) =>
  }

  // How an operation ends, by what a caller can see before it.
  lemma AddOutcome(key: string, s: Stores, op: Operation, check: Check, reply: Reply)
    requires op.AddDevice?
    ensures var outcome := Step(key, s, op, check, reply).1;
      var served := s.remote.None? || (reply.Accepted? && op.name !in s.remote.value);
      && (outcome == Duplicate <==> op.name in s.local)
      && (outcome.Done? <==> op.name !in s.local && !check.Failed? && served)
      && (outcome.Duplicate? || outcome.Done? || outcome == ServerError)
    ensures var outcome := Step(key, s, op, check, reply).1;
      var given := if op.id == "" then op.uid else op.id;
      outcome.Done? ==> outcome.id == if s.remote.Some? && reply.id != "" then reply.id else given
  {
  }

  lemma PatchOutcome(key: string, s: Stores, op: Operation, check: Check, reply: Reply)
    requires op.PatchDevice?
    ensures var outcome := Step(key, s, op, check, reply).1;
      var objects := op.updates.autoEvents.Some? && |op.updates.autoEvents.value| > 0;
      var served := s.remote.None? || (!objects && reply.Accepted? && op.name in s.remote.value);
      && (outcome == NotFound <==> op.name !in s.local)
      && (outcome == Unencodable <==> op.name in s.local && !check.Failed? && s.remote.Some? && objects)
      && (outcome.Done? <==> op.name in s.local && !check.Failed? && served)
      && (outcome.NotFound? || outcome.Unencodable? || outcome.Done? || outcome == ServerError)
  {
  }

  lemma DeleteOutcome(key: string, s: Stores, op: Operation, check: Check, reply: Reply)
    requires op.DeleteDevice?
    ensures var outcome := Step(key, s, op, check, reply).1;
      var served := s.remote.None? || (reply.Accepted? && op.name in s.remote.value);
      && (outcome == NotFound <==> op.name !in s.local)
      && (outcome.Done? <==> op.name in s.local && served)
      && (outcome.NotFound? || outcome.Done? || outcome == ServerError)
  {
  }

  // A failed operation leaves both stores as they were, except for the
  // unencodable patch.
  lemma RollbackExact(key: string, s: Stores, op: Operation, check: Check, reply: Reply)
    ensures var (s', outcome) := Step(key, s, op, check, reply);
      !outcome.Done? && !outcome.Unencodable? ==> s' == s
  {
  }

  // A successful operation shows in both stores under its name: a device is
  // there with the reported id, a second identical patch would change nothing,
  // and a deleted name is gone. No operation touches another name.
  lemma DoneIsVisible(key: string, s: Stores, op: Operation, check: Check, reply: Reply)
    requires Agree(s) && Step(key, s, op, check, reply).1.Done?
    ensures var (s', outcome) := Step(key, s, op, check, reply);
      match op
      case AddDevice(name, _, fields, _) =>
        && name !in s.local && name in s'.local
        && s'.local[name] == Record(outcome.id, fields.(serviceName := key))
        && (s'.remote.Some? ==> name in s'.remote.value && s'.remote.value[name] == s'.local[name].fields)
      case PatchDevice(name, updates) =>
        && name in s.local && name in s'.local && outcome.id == s'.local[name].id
        && Step(key, s', op, Bypassed, Accepted("")) == (s', outcome)
        && PatchedInto(s.local[name].fields, updates, s'.local[name].fields)
        && Follows(s.local[name].id, updates.id, s'.local[name].id)
        && (s'.remote.Some? ==> name in s'.remote.value && s'.remote.value[name] == s'.local[name].fields)
      case DeleteDevice(name) =>
        name in s.local && name !in s'.local && (s'.remote.Some? ==> name !in s'.remote.value)
  {
    match op
    case AddDevice(_, _, fields, _) => WireRoundTrip(fields.(serviceName := key));
    case PatchDevice(name, updates) =>
      ApplyIdempotent(s.local[name].fields, updates);
      ApplyPatches(s.local[name].fields, updates, Apply(s.local[name].fields, updates));
      var s' := Step(key, s, op, check, reply).0;
      PatchAgreement(s, op, check, reply);
      assert s'.local[name := s'.local[name]] == s'.local;
      assert s'.remote.Some? ==> s'.remote.value[name := s'.remote.value[name]] == s'.remote.value;
    case DeleteDevice(_) =>
  }

  predicate SameElsewhere<T(==)>(m: map<string, T>, m': map<string, T>, name: string) {
    m - {name} == m' - {name}
  }

  lemma OthersUntouched(key: string, s: Stores, op: Operation, check: Check, reply: Reply)
    ensures var s' := Step(key, s, op, check, reply).0;
      && SameElsewhere(s.local, s'.local, op.name)
      && (s.remote.Some? <==> s'.remote.Some?)
      && (s.remote.Some? && s'.remote.Some? ==> SameElsewhere(s.remote.value, s'.remote.value, op.name))
  {
  }

  datatype Event = Event(op: Operation, check: Check, reply: Reply)

  function Run(key: string, events: seq<Event>, configured: bool): (s: Stores)
    ensures s.remote.Some? <==> configured
  {
    if events == [] then Stores(map[], if configured then Some(map[]) else None)
    else
      var last := events[|events| - 1];
      Step(key, Run(key, events[..|events| - 1], configured), last.op, last.check, last.reply).0
  }

  // The stores agree at every moment of a run exactly when none of its steps is
  // a separating one.
  predicate AgreesThroughout(key: string, events: seq<Event>, configured: bool) {
    forall i :: 0 <= i <= |events| ==> Agree(Run(key, events[..i], configured))
  }

  predicate SeparatesAt(key: string, events: seq<Event>, configured: bool, i: nat)
    requires i < |events|
  {
    Separates(Run(key, events[..i], configured), events[i].op, events[i].check)
  }

  predicate NeverSeparates(key: string, events: seq<Event>, configured: bool) {
    forall i :: 0 <= i < |events| ==> !SeparatesAt(key, events, configured, i)
  }

  lemma RunStep(key: string, events: seq<Event>, configured: bool, i: nat)
    requires i < |events|
    ensures Run(key, events[..i + 1], configured) ==
      Step(key, Run(key, events[..i], configured), events[i].op, events[i].check, events[i].reply).0
  {
    assert events[..i + 1][..i] == events[..i];
  }

  lemma {:induction false} AgreesBefore(key: string, events: seq<Event>, configured: bool, n: nat)
    requires n <= |events| && NeverSeparates(key, events, configured)
    ensures Agree(Run(key, events[..n], configured))
  {
    if n > 0 {
      AgreesBefore(key, events, configured, n - 1);
      RunStep(key, events, configured, n - 1);
      assert !SeparatesAt(key, events, configured, n - 1);
      var e := events[n - 1];
      StepAgreement(key, Run(key, events[..n - 1], configured), e.op, e.check, e.reply);
    }
  }

  lemma RunAgrees(key: string, events: seq<Event>, configured: bool)
    ensures AgreesThroughout(key, events, configured) <==> NeverSeparates(key, events, configured)
  {
    if NeverSeparates(key, events, configured) {
      forall n | 0 <= n <= |events| ensures Agree(Run(key, events[..n], configured)) {
        AgreesBefore(key, events, configured, n);
      }
    }
    if AgreesThroughout(key, events, configured) {
      forall i | 0 <= i < |events| ensures !SeparatesAt(key, events, configured, i) {
        RunStep(key, events, configured, i);
        var e := events[i];
        assert Agree(Run(key, events[..i], configured)) && Agree(Run(key, events[..i + 1], configured));
        StepAgreement(key, Run(key, events[..i], configured), e.op, e.check, e.reply);
      }
    }
  }

  // In particular when no patch carries AutoEvent objects.
  lemma RunWithoutAutoEventPatch(key: string, events: seq<Event>, configured: bool)
    requires forall i :: 0 <= i < |events| && events[i].op.PatchDevice? ==> Encodable(events[i].op.updates)
    ensures AgreesThroughout(key, events, configured)
  {
    RunAgrees(key, events, configured);
  }

  // `update_device` on a device with auto events always separates the stores
  // when it changes anything, whatever Core Metadata would have answered.
  lemma UpdateWithAutoEvents(key: string, s: Stores, name: string, f: Fields, reply: Reply)
    requires Agree(s) && s.remote.Some? && name in s.local && f.autoEvents != []
    ensures var (s', outcome) := Step(key, s, PatchDevice(name, FullUpdate(f)), Passed, reply);
      && outcome == Unencodable && s'.remote == s.remote
      && (Agree(s') <==> Apply(s.local[name].fields, FullUpdate(f)) == s.local[name].fields)
  {
  }

  // ---- The same operations over the shared objects ----

  class CoreMetadata {
    var devices: map<string, Fields>

    constructor ()
      ensures devices == map[]
    {
      devices := map[];
    }
  }

  class Service {
    const serviceKey: string
    const cache: DeviceCache
    const metadata: CoreMetadata?

    ghost predicate Valid()
      reads cache
    {
      cache.Valid()
    }

    ghost function State(): Stores
      reads cache, cache.deviceMap.Values, metadata
    {
      Stores(cache.View(), if metadata == null then None else Some(metadata.devices))
    }

    constructor (serviceKey: string, cache: DeviceCache, metadata: CoreMetadata?)
      ensures this.serviceKey == serviceKey && this.cache == cache && this.metadata == metadata
    {
      this.serviceKey, this.cache, this.metadata := serviceKey, cache, metadata;
    }

    // The write to Core Metadata of a device that was just cached. The cache
    // holds the caller's object, so the id that Core Metadata assigns shows in
    // both.
    method ReportAdded(device: Device, reply: Reply) returns (outcome: Outcome)
      requires Valid() && device.name in cache.deviceMap && cache.deviceMap[device.name] == device
      modifies cache, metadata, device`id
      ensures Valid()
      ensures metadata == null ==> outcome == Done(device.id) && device.id == old(device.id)
      ensures metadata != null && (reply.Refused? || device.name in old(metadata.devices)) ==>
        outcome == ServerError && metadata.devices == old(metadata.devices)
      ensures metadata != null && reply.Accepted? && device.name !in old(metadata.devices) ==>
        && outcome == Done(device.id)
        && device.id == (if reply.id != "" then reply.id else old(device.id))
        && metadata.devices == old(metadata.devices)[device.name := Received(device.fields)]
      ensures outcome.Done? ==>
        unchanged(cache) && cache.View() == old(cache.View())[device.name := device.Content()]
      ensures !outcome.Done? ==>
        && cache.deviceMap == old(cache.deviceMap) - {device.name}
        && cache.lastConnected == old(cache.lastConnected) - {device.name}
        && cache.View() == old(cache.View()) - {device.name}
    {
      hide Contents, Received;
      ghost var others := cache.deviceMap - {device.name};
      assert cache.deviceMap == others[device.name := device];
      assert device !in others.Values;
      ContentsPut(others, device.name, device);
      ContentsRemove(cache.deviceMap, device.name);
      ghost var before := Contents(others);
      if metadata == null { return Done(device.id); }
      if reply.Refused? || device.name in metadata.devices {
        var error := cache.RemoveByName(device.name);
        return ServerError;
      }
      metadata.devices := metadata.devices[device.name := Received(device.fields)];
      if reply.id != "" { device.id := reply.id; }
      assert Contents(others) == before;
      ContentsPut(others, device.name, device);
      return Done(device.id);
    }

    method CacheNew(device: Device, uid: string)
      requires Valid() && device.name !in cache.deviceMap
      modifies cache, device`id
      ensures Valid()
      ensures cache.deviceMap == old(cache.deviceMap)[device.name := device]
      ensures cache.lastConnected == old(cache.lastConnected)[device.name := 0]
      ensures device.id == if old(device.id) == "" then uid else old(device.id)
      ensures cache.View() == old(cache.View())[device.name := device.Content()]
    {
      hide Contents;
      ghost var devices := cache.deviceMap;
      if device.id == "" { device.id := uid; }
      ContentsPut(devices, device.name, device);
      var error := cache.Add(device);
    }

    // `_add_device_to_metadata`
    method AddDeviceToMetadata(device: Device, check: Check, reply: Reply, uid: string) returns (outcome: Outcome)
      requires Valid() && device.name !in cache.deviceMap
      modifies cache, metadata, device`id
      ensures Valid()
      ensures (State(), outcome) == AddToMetadata(old(State()), device.name, old(device.Content()), check, reply, uid)
      ensures outcome.Done? ==>
        cache.deviceMap == old(cache.deviceMap)[device.name := device] && device.id == outcome.id
      ensures !outcome.Done? ==>
        cache.deviceMap == old(cache.deviceMap) && cache.lastConnected == old(cache.lastConnected)
    {
      if check.Failed? { return ServerError; }
      assert device.name !in cache.lastConnected;
      hide Contents, Received, DeviceCache.Valid;
      ghost var devices, times, before := cache.deviceMap, cache.lastConnected, cache.View();
      ContentsAt(devices, device.name);
      CacheNew(device, uid);
      ghost var cached := device.Content();
      outcome := ReportAdded(device, reply);
      PutAgain(before, device.name, cached, device.Content());
      PutAway(before, device.name, cached);
      PutAway(devices, device.name, device);
      PutAway(times, device.name, 0);
    }

    // `add_device`
    method AddDevice(device: Device, check: Check, reply: Reply, uid: string) returns (outcome: Outcome)
      requires Valid()
      modifies cache, metadata, device
      ensures Valid()
      ensures (State(), outcome) == AddStep(serviceKey, old(State()),
        Operation.AddDevice(device.name, old(device.id), old(device.fields), uid), check, reply)
      ensures outcome.Done? ==>
        cache.deviceMap == old(cache.deviceMap)[device.name := device] && device.id == outcome.id
      ensures !outcome.Done? ==>
        cache.deviceMap == old(cache.deviceMap) && cache.lastConnected == old(cache.lastConnected)
    {
      hide Contents, AddToMetadata;
      ContentsAt(cache.deviceMap, device.name);
      if device.name in cache.deviceMap { return Duplicate; }
      device.fields := device.fields.(serviceName := serviceKey);
      outcome := AddDeviceToMetadata(device, check, reply, uid);
    }

    // Two clones of a cached device, one with the updates and one without.
    method Patched(name: string, updates: Updates) returns (device: Device, snapshot: Device)
      requires Valid() && name in cache.deviceMap
      ensures fresh(device) && fresh(snapshot) && device.name == snapshot.name == name
      ensures snapshot.Content() == cache.deviceMap[name].Content()
      ensures device.Content() == Updated(snapshot.Content(), updates)
    {
      var found := cache.ForName(name);
      device := found.value;
      snapshot := device.Clone();
      if updates.id.Some? { device.id := updates.id.value; }
      device.fields := Apply(device.fields, updates);
    }

    // The stored object is replaced, and its last connected time reset.
    method Replace(device: Device)
      requires Valid() && device.name in cache.deviceMap
      modifies cache
      ensures Valid()
      ensures cache.deviceMap == old(cache.deviceMap)[device.name := device]
      ensures cache.lastConnected == old(cache.lastConnected)[device.name := 0]
      ensures cache.View() == old(cache.View())[device.name := device.Content()]
    {
      hide Contents;
      ContentsPut(cache.deviceMap, device.name, device);
      var error := cache.Update(device);
    }

    // The device of the patch request, if the patch is not refused.
    method ReportPatched(name: string, device: Device, snapshot: Device, updates: Updates, reply: Reply)
      returns (outcome: Outcome)
      requires Valid() && name in cache.deviceMap && snapshot.name == name
      modifies cache, metadata
      ensures Valid()
      ensures metadata == null ==> outcome == Done(device.id)
      ensures metadata != null && !Encodable(updates) ==>
        outcome == Unencodable && metadata.devices == old(metadata.devices)
      ensures metadata != null && Encodable(updates) && (reply.Refused? || name !in old(metadata.devices)) ==>
        outcome == ServerError && metadata.devices == old(metadata.devices)
      ensures metadata != null && Encodable(updates) && reply.Accepted? && name in old(metadata.devices) ==>
        && outcome == Done(device.id)
        && metadata.devices == old(metadata.devices)[name := Apply(old(metadata.devices)[name], updates)]
      ensures !outcome.ServerError? ==> unchanged(cache) && cache.View() == old(cache.View())
      ensures outcome.ServerError? ==>
        && cache.deviceMap == old(cache.deviceMap)[name := snapshot]
        && cache.lastConnected == old(cache.lastConnected)[name := 0]
        && cache.View() == old(cache.View())[name := snapshot.Content()]
    {
      hide DeviceCache.Valid, DeviceCache.View, Apply;
      if metadata == null { return Done(device.id); }
      if !Encodable(updates) { return Unencodable; }
      if reply.Refused? || name !in metadata.devices {
        Replace(snapshot);
        return ServerError;
      }
      metadata.devices := metadata.devices[name := Apply(metadata.devices[name], updates)];
      return Done(device.id);
    }

    // `_patch_device_in_metadata` on a device that is in the cache. A refused
    // patch leaves a clone of the old device in the cache, which no longer
    // knows when it last connected.
    method PatchDevice(name: string, updates: Updates, check: Check, reply: Reply) returns (outcome: Outcome)
      requires Valid()
      modifies cache, metadata
      ensures Valid()
      ensures (State(), outcome) == PatchStep(old(State()), Operation.PatchDevice(name, updates), check, reply)
      ensures name !in old(cache.deviceMap) || check.Failed? ==> unchanged(cache)
      ensures name in old(cache.deviceMap) && !check.Failed? ==>
        && name in cache.deviceMap
        && cache.deviceMap == old(cache.deviceMap)[name := cache.deviceMap[name]]
        && fresh(cache.deviceMap[name])
        && cache.lastConnected == old(cache.lastConnected)[name := 0]
    {
      ContentsAt(cache.deviceMap, name);
      if name !in cache.deviceMap { return NotFound; }
      ghost var devices, times, before := cache.deviceMap, cache.lastConnected, cache.View();
      hide Contents, Apply, Encodable, Updated, DeviceCache.Valid;
      var device, snapshot := Patched(name, updates);
      if check.Failed? { return ServerError; }
      Replace(device);
      outcome := ReportPatched(name, device, snapshot, updates, reply);
      PutAgain(devices, name, device, snapshot);
      PutAgain(times, name, 0, 0);
      PutAgain(before, name, device.Content(), snapshot.Content());
      PutBack(before, name);
    }

    // `_delete_device_from_metadata`
    method DeleteDevice(name: string, reply: Reply) returns (outcome: Outcome)
      requires Valid()
      modifies cache, metadata
      ensures Valid()
      ensures (State(), outcome) == DeleteStep(old(State()), Operation.DeleteDevice(name), reply)
      ensures outcome.Done? ==> cache.deviceMap == old(cache.deviceMap) - {name}
      ensures outcome.NotFound? ==> unchanged(cache)
      ensures outcome.ServerError? ==>
        && name in cache.deviceMap
        && cache.deviceMap == old(cache.deviceMap)[name := cache.deviceMap[name]]
        && fresh(cache.deviceMap[name])
        && cache.lastConnected == old(cache.lastConnected)[name := 0]
    {
      hide Contents;
      ghost var devices, before := cache.deviceMap, cache.View();
      ContentsAt(devices, name);
      var found := cache.ForName(name);
      if found.None? { return NotFound; }
      var device := found.value;
      var error := cache.RemoveByName(name);
      if metadata == null {
        ContentsRemove(devices, name);
        return Done("");
      }
      if reply.Refused? || name !in metadata.devices {
        error := cache.Add(device);
        assert cache.deviceMap == devices[name := device];
        ContentsPut(devices, name, device);
        assert before[name := before[name]] == before;
        return ServerError;
      }
      metadata.devices := metadata.devices - {name};
      ContentsRemove(devices, name);
      return Done("");
    }
  }
}
