// dto.py: what a device looks like on the wire to Core Metadata.
module Metadata {
  import opened Wrappers
  import opened Devices

  // Absent fields are left out of the document.
  datatype WireAutoEvent = WireAutoEvent(
    sourceName: string, onChange: Option<bool>, threshold: Option<real>, interval: Option<string>)

  datatype WireDevice = WireDevice(
    description: Option<string>,
    adminState: Option<string>,
    operatingState: Option<string>,
    serviceName: Option<string>,
    profileName: Option<string>,
    labels: Option<seq<string>>,
    location: Option<string>,
    autoEvents: Option<seq<WireAutoEvent>>,
    protocols: map<string, map<string, string>>,
    tags: Option<map<string, string>>,
    properties: Option<map<string, string>>)

  function Given(s: string): Option<string> { if s == "" then None else Some(s) }

  function AutoEventToDto(e: AutoEvent): WireAutoEvent {
    WireAutoEvent(e.sourceName, if e.onChange then Some(true) else None,
      if e.threshold == 0.0 then None else Some(e.threshold), Given(e.interval))
  }

  // `device_to_dto`
  function DeviceToDto(f: Fields): WireDevice {
    WireDevice(
      Given(f.description), Given(f.adminState), Given(f.operatingState), Given(f.serviceName), Given(f.profileName),
      if f.labels == [] then None else Some(f.labels),
      f.location,
      if f.autoEvents == [] then None
      else Some(seq(|f.autoEvents|, i requires 0 <= i < |f.autoEvents| => AutoEventToDto(f.autoEvents[i]))),
      f.protocols,
      if f.tags == map[] then None else Some(f.tags),
      if f.properties == map[] then None else Some(f.properties))
  }

  function OrElse<T>(o: Option<T>, default: T): T { if o.Some? then o.value else default }

  function AutoEventFromDto(w: WireAutoEvent): AutoEvent {
    AutoEvent(w.sourceName, OrElse(w.onChange, false), OrElse(w.threshold, 0.0), OrElse(w.interval, ""))
  }

  // How Core Metadata reads the document: an absent field is empty.
  function DeviceFromDto(w: WireDevice): Fields {
    var events := OrElse(w.autoEvents, []);
    Fields(
      OrElse(w.description, ""), OrElse(w.adminState, ""), OrElse(w.operatingState, ""), OrElse(w.serviceName, ""),
      OrElse(w.profileName, ""),
      OrElse(w.labels, []),
      w.location,
      seq(|events|, i requires 0 <= i < |events| => AutoEventFromDto(events[i])),
      w.protocols,
      OrElse(w.tags, map[]),
      OrElse(w.properties, map[]))
  }

  // Dropping empty fields loses nothing.
  lemma WireRoundTrip(f: Fields)
    ensures DeviceFromDto(DeviceToDto(f)) == f
  {
  }

  // The update map of a patch; None keys are dropped. The id is set on the
  // cached device only.
  datatype Updates = Updates(
    id: Option<string>,
    description: Option<string>,
    adminState: Option<string>,
    operatingState: Option<string>,
    serviceName: Option<string>,
    profileName: Option<string>,
    labels: Option<seq<string>>,
    location: Option<string>,
    autoEvents: Option<seq<AutoEvent>>,
    protocols: Option<map<string, map<string, string>>>,
    tags: Option<map<string, string>>,
    properties: Option<map<string, string>>)

  // `setattr` for every key, on either side.
  function Apply(f: Fields, u: Updates): Fields {
    Fields(
      OrElse(u.description, f.description),
      OrElse(u.adminState, f.adminState),
      OrElse(u.operatingState, f.operatingState),
      OrElse(u.serviceName, f.serviceName),
      OrElse(u.profileName, f.profileName),
      OrElse(u.labels, f.labels),
      if u.location.Some? then u.location else f.location,
      OrElse(u.autoEvents, f.autoEvents),
      OrElse(u.protocols, f.protocols),
      OrElse(u.tags, f.tags),
      OrElse(u.properties, f.properties))
  }

  // `update_device_request` puts the AutoEvent objects themselves into the
  // document, and the JSON encoder refuses them.
  predicate Encodable(u: Updates) {
    u.autoEvents.Some? ==> u.autoEvents.value == []
  }

  // What `update_device` sends: every attribute but the service name; a missing
  // location is a None key.
  function FullUpdate(f: Fields): Updates {
    Updates(None, Some(f.description), Some(f.adminState), Some(f.operatingState), None, Some(f.profileName),
      Some(f.labels), f.location, Some(f.autoEvents), Some(f.protocols), Some(f.tags), Some(f.properties))
  }

  // Patching twice is patching once, on either side.
  lemma ApplyIdempotent(f: Fields, u: Updates)
    ensures Apply(Apply(f, u), u) == Apply(f, u)
  {
  }

  // A full update makes a device what it says, whatever was there before, with
  // two exceptions: the service name stays, and a location cannot be taken away.
  lemma FullUpdateReplaces(was: Fields, f: Fields)
    ensures Apply(was, FullUpdate(f)) ==
      f.(serviceName := was.serviceName, location := if f.location.None? then was.location else f.location)
    ensures Apply(was, FullUpdate(f)) == f <==>
      f.serviceName == was.serviceName && (f.location.None? ==> was.location.None?)
  {
  }

  // ---- What a patch is worth ----

  const NOTHING := Updates(None, None, None, None, None, None, None, None, None, None, None, None)

  // A patch without keys changes nothing.
  lemma EmptyPatch(f: Fields)
    ensures Apply(f, NOTHING) == f
  {
  }

  predicate Follows<T(==)>(was: T, update: Option<T>, now: T) {
    now == match update case None => was case Some(given) => given
  }

  // Attribute by attribute: what is given is set, and what is left out is left
  // alone. No patch takes a location away.
  predicate PatchedInto(was: Fields, u: Updates, now: Fields) {
    && Follows(was.description, u.description, now.description)
    && Follows(was.adminState, u.adminState, now.adminState)
    && Follows(was.operatingState, u.operatingState, now.operatingState)
    && Follows(was.serviceName, u.serviceName, now.serviceName)
    && Follows(was.profileName, u.profileName, now.profileName)
    && Follows(was.labels, u.labels, now.labels)
    && now.location == (if u.location.Some? then u.location else was.location)
    && Follows(was.autoEvents, u.autoEvents, now.autoEvents)
    && Follows(was.protocols, u.protocols, now.protocols)
    && Follows(was.tags, u.tags, now.tags)
    && Follows(was.properties, u.properties, now.properties)
  }

  lemma ApplyPatches(f: Fields, u: Updates, now: Fields)
    ensures PatchedInto(f, u, now) <==> now == Apply(f, u)
  {
  }

  function Change<T(==)>(x: T, y: T): Option<T> { if x == y then None else Some(y) }

  // What two devices differ in.
  function Difference(f: Fields, g: Fields): Updates {
    Updates(None,
      Change(f.description, g.description), Change(f.adminState, g.adminState),
      Change(f.operatingState, g.operatingState), Change(f.serviceName, g.serviceName),
      Change(f.profileName, g.profileName), Change(f.labels, g.labels),
      if f.location == g.location then None else g.location,
      Change(f.autoEvents, g.autoEvents), Change(f.protocols, g.protocols),
      Change(f.tags, g.tags), Change(f.properties, g.properties))
  }

  // Patching the difference turns one device into the other, unless a location
  // has to be taken away.
  lemma DifferenceTurns(f: Fields, g: Fields)
    ensures Apply(f, Difference(f, g)) == g <==> (g.location.None? ==> f.location.None?)
    ensures Apply(f, Difference(f, g)) == g.(location := if g.location.None? then f.location else g.location)
    ensures Difference(f, f) == NOTHING
  {
  }

  function Later<T>(first: Option<T>, second: Option<T>): Option<T> { if second.Some? then second else first }

  function Merge(u: Updates, v: Updates): Updates {
    Updates(Later(u.id, v.id),
      Later(u.description, v.description), Later(u.adminState, v.adminState),
      Later(u.operatingState, v.operatingState), Later(u.serviceName, v.serviceName),
      Later(u.profileName, v.profileName), Later(u.labels, v.labels), Later(u.location, v.location),
      Later(u.autoEvents, v.autoEvents), Later(u.protocols, v.protocols),
      Later(u.tags, v.tags), Later(u.properties, v.properties))
  }

  // Two patches in a row are the merged patch.
  lemma PatchesMerge(f: Fields, u: Updates, v: Updates)
    ensures Apply(Apply(f, u), v) == Apply(f, Merge(u, v))
    ensures Merge(u, NOTHING) == u && Merge(NOTHING, u) == u
  {
  }

  // ---- What is on the wire ----

  predicate Sent<T(==)>(wire: Option<T>, value: T, empty: T) {
    wire == if value == empty then None else Some(value)
  }

  predicate EventSent(w: WireAutoEvent, e: AutoEvent) {
    && w.sourceName == e.sourceName
    && (w.onChange == Some(true) <==> e.onChange) && w.onChange != Some(false)
    && Sent(w.threshold, e.threshold, 0.0) && Sent(w.interval, e.interval, "")
  }

  // Every attribute goes under its own field; the empty ones are left out.
  lemma WireCarries(f: Fields)
    ensures var w := DeviceToDto(f);
      && Sent(w.description, f.description, "") && Sent(w.adminState, f.adminState, "")
      && Sent(w.operatingState, f.operatingState, "") && Sent(w.serviceName, f.serviceName, "")
      && Sent(w.profileName, f.profileName, "") && Sent(w.labels, f.labels, [])
      && w.location == f.location && w.protocols == f.protocols
      && Sent(w.tags, f.tags, map[]) && Sent(w.properties, f.properties, map[])
      && (w.autoEvents.None? <==> |f.autoEvents| == 0)
      && (w.autoEvents.Some? ==> |w.autoEvents.value| == |f.autoEvents|)
      && (w.autoEvents.Some? ==> forall i :: 0 <= i < |f.autoEvents| ==>
        EventSent(w.autoEvents.value[i], f.autoEvents[i]))
  {
  }

  // An absent field is read as empty.
  lemma AbsentIsEmpty(w: WireDevice)
    ensures var f := DeviceFromDto(w);
      && (w.description.None? ==> f.description == "") && (w.description.Some? ==> f.description == w.description.value)
      && (w.labels.None? ==> f.labels == []) && (w.labels.Some? ==> f.labels == w.labels.value)
      && (w.autoEvents.None? ==> f.autoEvents == []) && f.location == w.location
  {
  }
}
