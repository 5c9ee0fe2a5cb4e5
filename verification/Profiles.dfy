// profiles.py: the profile cache and its two derived lookup maps.
module Profiles {
  import opened Wrappers
  import opened Models
  import opened Dicts

  // ---- What the lookups return, as functions of the stored profile ----

  function NamedResources(profile: DeviceProfile): seq<Entry<DeviceResource>> {
    seq(|profile.deviceResources|, i requires 0 <= i < |profile.deviceResources| =>
      Entry(profile.deviceResources[i].name, profile.deviceResources[i]))
  }

  function NamedCommands(profile: DeviceProfile): seq<Entry<DeviceCommand>> {
    seq(|profile.deviceCommands|, i requires 0 <= i < |profile.deviceCommands| =>
      Entry(profile.deviceCommands[i].name, profile.deviceCommands[i]))
  }

  function ResourceOf(profile: DeviceProfile, name: string): Option<DeviceResource> {
    LastNamed(NamedResources(profile), name)
  }

  function CommandOf(profile: DeviceProfile, name: string): Option<DeviceCommand> {
    LastNamed(NamedCommands(profile), name)
  }

  function FirstOperation(operations: seq<ResourceOperation>, resource: string): Option<ResourceOperation> {
    if operations == [] then None
    else if operations[0].deviceResource == resource then Some(operations[0])
    else FirstOperation(operations[1..], resource)
  }

  // The first operation on the resource in the commands, taken in order.
  function ScanCommands(commands: seq<Entry<DeviceCommand>>, resource: string): Option<ResourceOperation> {
    if commands == [] then None
    else
      match FirstOperation(commands[0].value.resourceOperations, resource)
      case Some(operation) => Some(operation)
      case None => ScanCommands(commands[1..], resource)
  }

  function OperationOf(profile: DeviceProfile, resource: string): Option<ResourceOperation> {
    ScanCommands(Index(NamedCommands(profile)), resource)
  }

  // The first operation on the resource in a list.
  lemma {:induction false} FirstOperationIs(operations: seq<ResourceOperation>, resource: string)
    ensures FirstOperation(operations, resource) == None <==>
      forall i :: 0 <= i < |operations| ==> operations[i].deviceResource != resource
    ensures var found := FirstOperation(operations, resource);
      found.Some? ==> exists i ::
        0 <= i < |operations| && FirstAt(operations, resource, i) && found == Some(operations[i])
  {
    if operations != [] && operations[0].deviceResource != resource {
      var rest := operations[1..];
      FirstOperationIs(rest, resource);
      if i :| 0 <= i < |rest| && FirstAt(rest, resource, i) && FirstOperation(rest, resource) == Some(rest[i]) {
        LaterAt(operations, resource, i);
      }
      assert forall i :: 1 <= i < |operations| ==> operations[i] == rest[i - 1];
    } else if operations != [] {
      assert FirstAt(operations, resource, 0);
    }
  }

  predicate FirstAt(operations: seq<ResourceOperation>, resource: string, i: nat)
    requires i < |operations|
  {
    && operations[i].deviceResource == resource
    && forall j :: 0 <= j < i ==> operations[j].deviceResource != resource
  }

  lemma LaterAt(operations: seq<ResourceOperation>, resource: string, i: nat)
    requires operations != [] && operations[0].deviceResource != resource
    requires i < |operations[1..]| && FirstAt(operations[1..], resource, i)
    ensures FirstAt(operations, resource, i + 1) && operations[i + 1] == operations[1..][i]
  {
    forall j | 0 <= j < i + 1 ensures operations[j].deviceResource != resource {
      if j > 0 { assert operations[j] == operations[1..][j - 1]; }
    }
  }

  // The operations of the commands one after another: the scan finds the first
  // of them all.
  function AllOperations(commands: seq<Entry<DeviceCommand>>): seq<ResourceOperation> {
    if commands == [] then [] else commands[0].value.resourceOperations + AllOperations(commands[1..])
  }

  lemma {:induction false} FirstOfTwo(first: seq<ResourceOperation>, second: seq<ResourceOperation>, resource: string)
    ensures var found := FirstOperation(first, resource);
      FirstOperation(first + second, resource) == if found.Some? then found else FirstOperation(second, resource)
  {
    if first == [] {
      assert first + second == second;
    } else {
      assert (first + second)[1..] == first[1..] + second;
      FirstOfTwo(first[1..], second, resource);
    }
  }

  lemma {:induction false} ScanIsFirst(commands: seq<Entry<DeviceCommand>>, resource: string)
    ensures ScanCommands(commands, resource) == FirstOperation(AllOperations(commands), resource)
  {
    if commands != [] {
      ScanIsFirst(commands[1..], resource);
      FirstOfTwo(commands[0].value.resourceOperations, AllOperations(commands[1..]), resource);
    }
  }

  // Without repeated command names the operation is the first match of a linear
  // scan of the profile's own command list.
  lemma OperationIsLinearScan(profile: DeviceProfile, resource: string)
    requires DistinctKeys(NamedCommands(profile))
    ensures OperationOf(profile, resource) == ScanCommands(NamedCommands(profile), resource)
  {
    IndexDistinct(NamedCommands(profile));
  }

  // With a repeated command name it is not: the earlier command is lost.
  lemma RepeatedCommandHidesOperation()
    ensures exists profile: DeviceProfile, resource ::
      OperationOf(profile, resource) == None && ScanCommands(NamedCommands(profile), resource).Some?
  {
    var kept := DeviceCommand("c", ReadWrite, [ResourceOperation("r2", "", [])]);
    var lost := DeviceCommand("c", ReadWrite, [ResourceOperation("r1", "", [])]);
    var profile := DeviceProfile("p", "", [], [lost, kept]);
    var named := NamedCommands(profile);
    var first, second := Entry("c", lost), Entry("c", kept);
    var firstOnly: seq<Entry<DeviceCommand>>, secondOnly: seq<Entry<DeviceCommand>> := [first], [second];
    assert named == [first, second];
    assert Index(named) == secondOnly by {
      assert named[..1] == firstOnly;
      assert Index(firstOnly) == firstOnly by { assert firstOnly[..0] == []; }
      assert firstOnly[1..] == [];
    }
    var r: string := "r1";
    assert kept.resourceOperations[0].deviceResource[1] != r[1];
    assert kept.resourceOperations[1..] == [];
    assert FirstOperation(kept.resourceOperations, r) == None;
    assert secondOnly[1..] == [];
    assert ScanCommands(secondOnly[1..], r) == None;
    assert ScanCommands(secondOnly, r) == None;
    assert OperationOf(profile, r) == None;
    assert ScanCommands(named, r) == Some(lost.resourceOperations[0]);
  }

  // The profiles of a list by name; a later profile replaces an earlier one.
  function Loaded(profiles: seq<DeviceProfile>): map<string, DeviceProfile> {
    if profiles == [] then map[]
    else var last := profiles[|profiles| - 1]; Loaded(profiles[..|profiles| - 1])[last.name := last]
  }

  lemma {:induction false} LoadedIsLast(profiles: seq<DeviceProfile>, name: string)
    ensures name in Loaded(profiles) <==> exists i :: 0 <= i < |profiles| && profiles[i].name == name
    ensures name in Loaded(profiles) ==> exists i ::
      0 <= i < |profiles| && LastProfileAt(profiles, name, i) && Loaded(profiles)[name] == profiles[i]
  {
    if profiles != [] {
      var n := |profiles| - 1;
      LoadedIsLast(profiles[..n], name);
      if profiles[n].name == name {
        assert LastProfileAt(profiles, name, n);
      } else if name in Loaded(profiles) {
        var i :| 0 <= i < n && LastProfileAt(profiles[..n], name, i) && Loaded(profiles[..n])[name] == profiles[..n][i];
        EarlierLast(profiles, name, i);
      }
    }
  }

  // The last profile of the name.
  predicate LastProfileAt(profiles: seq<DeviceProfile>, name: string, i: nat)
    requires i < |profiles|
  {
    profiles[i].name == name && forall j :: i < j < |profiles| ==> profiles[j].name != name
  }

  lemma EarlierLast(profiles: seq<DeviceProfile>, name: string, i: nat)
    requires profiles != [] && profiles[|profiles| - 1].name != name
    requires i < |profiles| - 1 && LastProfileAt(profiles[..|profiles| - 1], name, i)
    ensures LastProfileAt(profiles, name, i)
  {
    forall j | i < j < |profiles| ensures profiles[j].name != name {
      if j < |profiles| - 1 { assert profiles[j] == profiles[..|profiles| - 1][j]; }
    }
  }

  lemma {:induction false} LookupHasName(list: seq<Entry<DeviceResource>>, name: string)
    requires forall i :: 0 <= i < |list| ==> list[i].key == list[i].value.name
    ensures LastNamed(list, name).Some? ==> LastNamed(list, name).value.name == name
  {
    if list != [] && list[|list| - 1].key != name { LookupHasName(list[..|list| - 1], name); }
  }

  predicate Coherent(name: string, profile: DeviceProfile, resources: Dict<DeviceResource>,
                     commands: Dict<DeviceCommand>)
  {
    && profile.name == name
    && resources == Index(NamedResources(profile))
    && commands == Index(NamedCommands(profile))
  }

  lemma IdIsNotIndexed(profile: DeviceProfile, id: string)
    ensures NamedResources(profile.(id := id)) == NamedResources(profile)
    ensures NamedCommands(profile.(id := id)) == NamedCommands(profile)
  {
  }

  // The three maps have the same keys, and each index is the one of the stored
  // profile.
  ghost predicate CoherentMaps(profiles: map<string, DeviceProfile>, resources: map<string, Dict<DeviceResource>>,
                               commands: map<string, Dict<DeviceCommand>>)
  {
    && profiles.Keys == resources.Keys == commands.Keys
    && (forall name :: name in profiles ==> Coherent(name, profiles[name], resources[name], commands[name]))
  }

  // The indexes are functions of the profiles alone.
  lemma IndexesDetermined(profiles: map<string, DeviceProfile>,
                          resources: map<string, Dict<DeviceResource>>, commands: map<string, Dict<DeviceCommand>>,
                          resources': map<string, Dict<DeviceResource>>, commands': map<string, Dict<DeviceCommand>>)
    requires CoherentMaps(profiles, resources, commands) && CoherentMaps(profiles, resources', commands')
    ensures resources == resources' && commands == commands'
  {
  }

  class DeviceProfileCache {
    var profileMap: map<string, DeviceProfile>
    var resourceMap: map<string, Dict<DeviceResource>>
    var commandMap: map<string, Dict<DeviceCommand>>

    ghost predicate Valid()
      reads this
    {
      CoherentMaps(profileMap, resourceMap, commandMap)
    }

    constructor (profiles: seq<DeviceProfile>)
      ensures Valid() && profileMap == Loaded(profiles)
    {
      profileMap, resourceMap, commandMap := map[], map[], map[];
      new;
      for i := 0 to |profiles|
        invariant Valid() && profileMap == Loaded(profiles[..i])
      {
        Store(profiles[i]);
        assert profiles[..i + 1][..i] == profiles[..i];
      }
      assert profiles[..|profiles|] == profiles;
    }

    // The index-building loops.
    method ResourceSliceToMap(profile: DeviceProfile) returns (result: Dict<DeviceResource>)
      ensures result == Index(NamedResources(profile))
    {
      result := [];
      ghost var named := NamedResources(profile);
      assert named[..0] == [];
      for i := 0 to |profile.deviceResources|
        invariant result == Index(named[..i])
      {
        result := Put(result, profile.deviceResources[i].name, profile.deviceResources[i]);
        assert named[..i + 1][..i] == named[..i];
      }
      assert named[..|named|] == named;
    }

    method CommandSliceToMap(profile: DeviceProfile) returns (result: Dict<DeviceCommand>)
      ensures result == Index(NamedCommands(profile))
    {
      result := [];
      ghost var named := NamedCommands(profile);
      assert named[..0] == [];
      for i := 0 to |profile.deviceCommands|
        invariant result == Index(named[..i])
      {
        result := Put(result, profile.deviceCommands[i].name, profile.deviceCommands[i]);
        assert named[..i + 1][..i] == named[..i];
      }
      assert named[..|named|] == named;
    }

    method Store(profile: DeviceProfile)
      requires Valid()
      modifies this
      ensures Valid() && profileMap == old(profileMap)[profile.name := profile]
    {
      profileMap := profileMap[profile.name := profile];
      var resources := ResourceSliceToMap(profile);
      resourceMap := resourceMap[profile.name := resources];
      var commands := CommandSliceToMap(profile);
      commandMap := commandMap[profile.name := commands];
    }

    method Add(profile: DeviceProfile) returns (error: Option<CacheError>)
      requires Valid()
      modifies this
      ensures Valid()
      ensures error == if profile.name in old(profileMap) then Some(DuplicateName) else None
      ensures if error.Some? then unchanged(this) else profileMap == old(profileMap)[profile.name := profile]
    {
      if profile.name in profileMap { return Some(DuplicateName); }
      Store(profile);
      return None;
    }

    method CheckAndAdd(profile: DeviceProfile)
      requires Valid()
      modifies this
      ensures Valid()
      ensures if profile.name in old(profileMap) then unchanged(this)
              else profileMap == old(profileMap)[profile.name := profile]
    {
      if profile.name !in profileMap {
        var error := Add(profile);
      }
    }

    method RemoveByName(name: string) returns (error: Option<CacheError>)
      requires Valid()
      modifies this
      ensures Valid()
      ensures error == if name in old(profileMap) then None else Some(EntityDoesNotExist)
      ensures if error.Some? then unchanged(this) else profileMap == old(profileMap) - {name}
    {
      if name !in profileMap { return Some(EntityDoesNotExist); }
      profileMap := profileMap - {name};
      resourceMap := resourceMap - {name};
      commandMap := commandMap - {name};
      return None;
    }

    method Update(profile: DeviceProfile) returns (error: Option<CacheError>)
      requires Valid()
      modifies this
      ensures Valid()
      ensures error == if profile.name in old(profileMap) then None else Some(EntityDoesNotExist)
      ensures if error.Some? then unchanged(this) else profileMap == old(profileMap)[profile.name := profile]
    {
      error := RemoveByName(profile.name);
      if error.Some? { return; }
      error := Add(profile);
    }

    // An assignment to the id of a stored profile: the cache holds the object.
    method SetId(name: string, id: string)
      requires Valid() && name in profileMap
      modifies this`profileMap
      ensures Valid() && profileMap == old(profileMap)[name := old(profileMap)[name].(id := id)]
    {
      IdIsNotIndexed(profileMap[name], id);
      profileMap := profileMap[name := profileMap[name].(id := id)];
    }

    method DeviceResource(profileName: string, resourceName: string) returns (r: Option<DeviceResource>)
      requires Valid()
      ensures r == if profileName in profileMap then ResourceOf(profileMap[profileName], resourceName) else None
    {
      if profileName !in resourceMap { return None; }
      GetIndex(NamedResources(profileMap[profileName]), resourceName);
      return Get(resourceMap[profileName], resourceName);
    }

    method DeviceCommand(profileName: string, commandName: string) returns (r: Option<DeviceCommand>)
      requires Valid()
      ensures r == if profileName in profileMap then CommandOf(profileMap[profileName], commandName) else None
    {
      if profileName !in commandMap { return None; }
      GetIndex(NamedCommands(profileMap[profileName]), commandName);
      return Get(commandMap[profileName], commandName);
    }

    // None stands for the EntityDoesNotExist error.
    method ResourceOperation(profileName: string, resourceName: string) returns (r: Option<ResourceOperation>)
      requires Valid()
      ensures r == if profileName in profileMap then OperationOf(profileMap[profileName], resourceName) else None
    {
      if profileName !in profileMap { return None; }
      var commands := commandMap[profileName];
      for i := 0 to |commands|
        invariant ScanCommands(commands, resourceName) == ScanCommands(commands[i..], resourceName)
      {
        var operations := commands[i].value.resourceOperations;
        assert commands[i..][1..] == commands[i + 1..];
        for j := 0 to |operations|
          invariant FirstOperation(operations, resourceName) == FirstOperation(operations[j..], resourceName)
        {
          assert operations[j..][1..] == operations[j + 1..];
          if operations[j].deviceResource == resourceName { return Some(operations[j]); }
        }
      }
      return None;
    }
  }
}
