// device_service.py: discovered devices are matched against the provision
// watchers and added.
module Discovery {
  import opened Wrappers
  import opened Devices
  import opened DeviceService

  type Properties = map<string, string>

  datatype Discovered = Discovered(
    name: string, description: string, protocols: map<string, Properties>, labels: seq<string>)

  datatype Watcher = Watcher(
    locked: bool,
    identifiers: map<string, string>,
    blocking: map<string, seq<string>>,
    profileName: string,
    adminState: string,
    autoEvents: seq<AutoEvent>,
    properties: map<string, string>)

  // The regular expression engine: whether an expression matches at the start
  // of a text.
  type Engine = (string, string) -> bool

  predicate RegexMatches(e: Engine, regex: string, text: string) { e(regex, text) }

  // ---- What a match is ----

  predicate Identified(e: Engine, props: Properties, name: string, regex: string) {
    name in props && props[name] != "" && RegexMatches(e, regex, props[name])
  }

  predicate AllIdentified(e: Engine, props: Properties, identifiers: map<string, string>) {
    forall name :: name in identifiers ==> Identified(e, props, name, identifiers[name])
  }

  predicate Blocks(props: Properties, name: string, blocked: seq<string>) {
    name in props && props[name] in blocked
  }

  predicate Blocked(props: Properties, blocking: map<string, seq<string>>) {
    exists name :: name in blocking && Blocks(props, name, blocking[name])
  }

  predicate Accepts(e: Engine, props: Properties, w: Watcher) {
    AllIdentified(e, props, w.identifiers) && !Blocked(props, w.blocking)
  }

  predicate Matches(e: Engine, d: Discovered, w: Watcher) {
    w.identifiers != map[] && exists p :: p in d.protocols && Accepts(e, d.protocols[p], w)
  }

  // The counting loop over the identifiers.
  method CountMatched(e: Engine, props: Properties, identifiers: map<string, string>) returns (matched: nat)
    ensures matched == |identifiers| <==> AllIdentified(e, props, identifiers)
  {
    matched := 0;
    var names := identifiers.Keys;
    while names != {}
      invariant names <= identifiers.Keys && matched <= |identifiers.Keys| - |names|
      invariant matched == |identifiers.Keys| - |names| <==>
        forall name :: name in identifiers.Keys - names ==> Identified(e, props, name, identifiers[name])
      decreases |names|
    {
      var name :| name in names;
      ghost var seen := identifiers.Keys - names;
      names := names - {name};
      assert identifiers.Keys - names == seen + {name};
      if Identified(e, props, name, identifiers[name]) {
        matched := matched + 1;
      }
    }
    assert identifiers.Keys - names == identifiers.Keys;
    assert |identifiers| == |identifiers.Keys|;
  }

  method FindBlocked(props: Properties, blocking: map<string, seq<string>>) returns (blocked: bool)
    ensures blocked <==> Blocked(props, blocking)
  {
    var names := blocking.Keys;
    while names != {}
      invariant names <= blocking.Keys
      invariant forall name :: name in blocking && name !in names ==> !Blocks(props, name, blocking[name])
      decreases |names|
    {
      var name :| name in names;
      if Blocks(props, name, blocking[name]) { return true; }
      names := names - {name};
    }
    return false;
  }

  // `_match_provision_watcher`
  method MatchProvisionWatcher(e: Engine, d: Discovered, w: Watcher) returns (matches: bool)
    ensures matches <==> Matches(e, d, w)
  {
    if w.identifiers == map[] { return false; }
    var protocols := d.protocols.Keys;
    while protocols != {}
      invariant protocols <= d.protocols.Keys
      invariant forall p :: p in d.protocols && p !in protocols ==> !Accepts(e, d.protocols[p], w)
      decreases |protocols|
    {
      var p :| p in protocols;
      var matched := CountMatched(e, d.protocols[p], w.identifiers);
      if matched == |w.identifiers| {
        var blocked := FindBlocked(d.protocols[p], w.blocking);
        if !blocked { return true; }
      }
      protocols := protocols - {p};
    }
    return false;
  }

  // Spelled out: there are identifiers; some protocol has, for each of them, a
  // text that is not empty and that its expression matches; and none of that
  // protocol's properties is on its block list.
  lemma MatchesMeans(e: Engine, d: Discovered, w: Watcher)
    ensures Matches(e, d, w) <==>
      |w.identifiers| > 0 && exists p :: p in d.protocols && MatchedBy(e, d.protocols[p], w)
  {
    forall p | p in d.protocols ensures Accepts(e, d.protocols[p], w) <==> MatchedBy(e, d.protocols[p], w) {
    }
  }

  predicate MatchedBy(e: Engine, props: Properties, w: Watcher) {
    && (forall name :: name in w.identifiers ==>
      name in props && |props[name]| > 0 && e(w.identifiers[name], props[name]))
    && (forall name :: name in w.blocking && name in props ==> props[name] !in w.blocking[name])
  }

  // ---- What a round of discovery adds ----

  // The first unlocked watcher that matches.
  function FirstWatcher(e: Engine, d: Discovered, ws: seq<Watcher>): Option<Watcher> {
    if ws == [] then None
    else if !ws[0].locked && Matches(e, d, ws[0]) then Some(ws[0])
    else FirstWatcher(e, d, ws[1..])
  }

  // It is at the first place of the list with an unlocked watcher that matches.
  lemma {:induction false} FirstWatcherIs(e: Engine, d: Discovered, ws: seq<Watcher>)
    ensures FirstWatcher(e, d, ws) == None <==>
      forall i :: 0 <= i < |ws| ==> ws[i].locked || !Matches(e, d, ws[i])
    ensures FirstWatcher(e, d, ws).Some? ==> exists i ::
      0 <= i < |ws| && FirstWatcher(e, d, ws) == Some(ws[i]) && FirstMatchAt(e, d, ws, i)
  {
    if ws != [] && (ws[0].locked || !Matches(e, d, ws[0])) {
      FirstWatcherIs(e, d, ws[1..]);
      if i :| 0 <= i < |ws[1..]| && FirstWatcher(e, d, ws[1..]) == Some(ws[1..][i]) && FirstMatchAt(e, d, ws[1..], i) {
        LaterMatch(e, d, ws, i);
      }
      assert forall i :: 1 <= i < |ws| ==> ws[i] == ws[1..][i - 1];
    } else if ws != [] {
      assert FirstMatchAt(e, d, ws, 0);
    }
  }

  predicate FirstMatchAt(e: Engine, d: Discovered, ws: seq<Watcher>, i: nat)
    requires i < |ws|
  {
    && !ws[i].locked && Matches(e, d, ws[i])
    && forall j :: 0 <= j < i ==> ws[j].locked || !Matches(e, d, ws[j])
  }

  lemma LaterMatch(e: Engine, d: Discovered, ws: seq<Watcher>, i: nat)
    requires ws != [] && i < |ws[1..]| && FirstMatchAt(e, d, ws[1..], i) && (ws[0].locked || !Matches(e, d, ws[0]))
    ensures FirstMatchAt(e, d, ws, i + 1) && ws[i + 1] == ws[1..][i]
  {
    forall j | 0 <= j < i + 1 ensures ws[j].locked || !Matches(e, d, ws[j]) {
      if j > 0 { assert ws[j] == ws[1..][j - 1]; }
    }
  }

  // What the added device has from the discovery, what from the watcher, and
  // what from the service.
  lemma FieldsFrom(d: Discovered, w: Watcher, key: string)
    ensures var f := FieldsOf(d, w, key);
      && f.description == d.description && f.protocols == d.protocols && f.labels == d.labels
      && f.profileName == w.profileName && f.adminState == w.adminState
      && f.autoEvents == w.autoEvents && f.properties == w.properties
      && f.serviceName == key && f.operatingState == "UP" && f.location == None && f.tags == map[]
  {
  }

  function FieldsOf(d: Discovered, w: Watcher, key: string): Fields {
    Fields(d.description, w.adminState, "UP", key, w.profileName, d.labels, None, w.autoEvents, d.protocols, map[],
      w.properties)
  }

  // What Core Metadata answers to the add, and the id that the service makes up.
  datatype Answer = Answer(reply: Reply, uid: string)

  function AddOf(d: Discovered, w: Watcher, key: string, uid: string): Operation {
    Operation.AddDevice(d.name, "", FieldsOf(d, w, key), uid)
  }

  function DiscoverOne(e: Engine, key: string, s: Stores, d: Discovered, ws: seq<Watcher>, a: Answer): Stores {
    match FirstWatcher(e, d, ws)
    case None => s
    case Some(w) => AddStep(key, s, AddOf(d, w, key, a.uid), Bypassed, a.reply).0
  }

  function DiscoverAll(e: Engine, key: string, s: Stores, ds: seq<Discovered>, ws: seq<Watcher>,
                       answers: seq<Answer>): Stores
    requires |answers| == |ds|
  {
    if ds == [] then s
    else
      var n := |ds| - 1;
      DiscoverOne(e, key, DiscoverAll(e, key, s, ds[..n], ws, answers[..n]), ds[n], ws, answers[n])
  }

  // The entry would be added if nothing of its name were there before it.
  predicate Addable(e: Engine, s: Stores, d: Discovered, ws: seq<Watcher>, a: Answer) {
    && FirstWatcher(e, d, ws).Some?
    && (s.remote.Some? ==> a.reply.Accepted? && d.name !in s.remote.value)
  }

  predicate AddableAt(e: Engine, s: Stores, ds: seq<Discovered>, ws: seq<Watcher>, answers: seq<Answer>,
                      name: string, i: nat)
    requires |answers| == |ds| && i < |ds|
  {
    ds[i].name == name && Addable(e, s, ds[i], ws, answers[i])
  }

  predicate FirstAddable(e: Engine, s: Stores, ds: seq<Discovered>, ws: seq<Watcher>, answers: seq<Answer>,
                         name: string, i: nat)
    requires |answers| == |ds| && i < |ds|
  {
    && AddableAt(e, s, ds, ws, answers, name, i)
    && forall j :: 0 <= j < i ==> !AddableAt(e, s, ds, ws, answers, name, j)
  }

  predicate NoneAddable(e: Engine, s: Stores, ds: seq<Discovered>, ws: seq<Watcher>, answers: seq<Answer>, name: string)
    requires |answers| == |ds|
  {
    forall i :: 0 <= i < |ds| ==> !AddableAt(e, s, ds, ws, answers, name, i)
  }

  function NewRecord(e: Engine, key: string, s: Stores, d: Discovered, ws: seq<Watcher>, a: Answer): Record
    requires Addable(e, s, d, ws, a)
  {
    Record(if s.remote.Some? && a.reply.id != "" then a.reply.id else a.uid,
      FieldsOf(d, FirstWatcher(e, d, ws).value, key))
  }

  // What the stores have under one name.
  predicate SameAt(s: Stores, r: Stores, name: string) {
    && (s.remote.Some? <==> r.remote.Some?)
    && (name in s.local <==> name in r.local)
    && (name in s.local && name in r.local ==> s.local[name] == r.local[name])
    && (s.remote.Some? && r.remote.Some? ==> (name in s.remote.value <==> name in r.remote.value))
  }

  lemma OneAdds(e: Engine, key: string, s: Stores, d: Discovered, ws: seq<Watcher>, a: Answer, name: string)
    ensures var r := DiscoverOne(e, key, s, d, ws, a);
      if name == d.name && name !in s.local && Addable(e, s, d, ws, a)
      then name in r.local && r.local[name] == NewRecord(e, key, s, d, ws, a) && (s.remote.Some? <==> r.remote.Some?)
      else SameAt(s, r, name)
  {
  }

  // A device that was there is left alone. A new name is added once, from the
  // first discovered entry of that name that has a matching unlocked watcher
  // and is not refused by Core Metadata, and with the first such watcher.
  lemma {:induction false} DiscoveryAdds(e: Engine, key: string, s: Stores, ds: seq<Discovered>, ws: seq<Watcher>,
                                         answers: seq<Answer>, name: string)
    requires |answers| == |ds|
    ensures var r := DiscoverAll(e, key, s, ds, ws, answers);
      && (s.remote.Some? <==> r.remote.Some?)
      && (name in s.local ==> name in r.local && r.local[name] == s.local[name])
      && (name !in s.local && NoneAddable(e, s, ds, ws, answers, name) ==> SameAt(s, r, name))
      && (forall i :: 0 <= i < |ds| && name !in s.local && FirstAddable(e, s, ds, ws, answers, name, i) ==>
        name in r.local && r.local[name] == NewRecord(e, key, s, ds[i], ws, answers[i]))
  {
    hide DiscoverOne, FirstWatcher, FieldsOf;
    if ds != [] {
      var n := |ds| - 1;
      var ds', answers' := ds[..n], answers[..n];
      var s' := DiscoverAll(e, key, s, ds', ws, answers');
      DiscoveryAdds(e, key, s, ds', ws, answers', name);
      OneAdds(e, key, s', ds[n], ws, answers[n], name);
      SameEntries(e, s, ds, ws, answers, name);
      assert DiscoverAll(e, key, s, ds, ws, answers) == DiscoverOne(e, key, s', ds[n], ws, answers[n]);
    }
  }

  // Whether an entry can be added does not depend on the later ones.
  lemma SameEntries(e: Engine, s: Stores, ds: seq<Discovered>, ws: seq<Watcher>, answers: seq<Answer>, name: string)
    requires |answers| == |ds| && ds != []
    ensures var n := |ds| - 1;
      && (forall i :: 0 <= i < n ==>
        AddableAt(e, s, ds[..n], ws, answers[..n], name, i) == AddableAt(e, s, ds, ws, answers, name, i))
      && (forall i :: 0 <= i < n ==>
        FirstAddable(e, s, ds[..n], ws, answers[..n], name, i) == FirstAddable(e, s, ds, ws, answers, name, i))
      && (NoneAddable(e, s, ds, ws, answers, name) <==>
        NoneAddable(e, s, ds[..n], ws, answers[..n], name) && !AddableAt(e, s, ds, ws, answers, name, n))
      && (FirstAddable(e, s, ds, ws, answers, name, n) <==>
        NoneAddable(e, s, ds[..n], ws, answers[..n], name) && AddableAt(e, s, ds, ws, answers, name, n))
  {
  }

  // `_process_discovered_devices`
  method ProcessDiscoveredDevices(e: Engine, service: Service, ds: seq<Discovered>, ws: seq<Watcher>,
                                  answers: seq<Answer>)
    requires |answers| == |ds| && service.Valid()
    modifies service.cache, service.metadata
    ensures service.Valid()
    ensures service.State() == DiscoverAll(e, service.serviceKey, old(service.State()), ds, ws, answers)
  {
    if ws == [] {
      NoWatchers(e, service.serviceKey, service.State(), ds, answers);
      return;
    }
    for i := 0 to |ds|
      invariant service.Valid()
      invariant service.State() == DiscoverAll(e, service.serviceKey, old(service.State()), ds[..i], ws, answers[..i])
    {
      assert ds[..i + 1][..i] == ds[..i] && answers[..i + 1][..i] == answers[..i];
      ProcessOne(e, service, ds[i], ws, answers[i]);
    }
    assert ds[..|ds|] == ds && answers[..|ds|] == answers;
  }

  lemma {:induction false} NoWatchers(e: Engine, key: string, s: Stores, ds: seq<Discovered>, answers: seq<Answer>)
    requires |answers| == |ds|
    ensures DiscoverAll(e, key, s, ds, [], answers) == s
  {
    if ds != [] { NoWatchers(e, key, s, ds[..|ds| - 1], answers[..|ds| - 1]); }
  }

  // The loop over the watchers for one discovered device.
  method ProcessOne(e: Engine, service: Service, d: Discovered, ws: seq<Watcher>, a: Answer)
    requires service.Valid()
    modifies service.cache, service.metadata
    ensures service.Valid()
    ensures service.State() == DiscoverOne(e, service.serviceKey, old(service.State()), d, ws, a)
  {
    hide AddStep, Contents;
    for i := 0 to |ws|
      invariant service.Valid() && service.State() == old(service.State())
      invariant FirstWatcher(e, d, ws) == FirstWatcher(e, d, ws[i..])
    {
      assert ws[i..][0] == ws[i] && ws[i..][1..] == ws[i + 1..];
      if !ws[i].locked {
        var matches := MatchProvisionWatcher(e, d, ws[i]);
        if matches {
          var device := new Device(d.name, "", FieldsOf(d, ws[i], service.serviceKey));
          var outcome := service.AddDevice(device, Bypassed, a.reply, a.uid);
          return;
        }
      }
    }
  }
}
