// device_service.py: cache-first add, update and delete of profiles, undone when
// Core Metadata refuses.
module ProfileService {
  import opened Maps
  import opened Models
  import opened Profiles
  import opened DeviceService

  class ProfileMetadata {
    var profiles: map<string, DeviceProfile>

    constructor ()
      ensures profiles == map[]
    {
      profiles := map[];
    }
  }

  // The two derived indexes of the cache as well as its profiles.
  twostate predicate Restored(cache: DeviceProfileCache)
    reads cache
  {
    && cache.profileMap == old(cache.profileMap)
    && cache.resourceMap == old(cache.resourceMap)
    && cache.commandMap == old(cache.commandMap)
  }

  // The caller's id or a new one, unless Core Metadata assigns its own.
  function AddedId(id: string, configured: bool, reply: Reply, uid: string): string {
    if configured && reply.Accepted? && reply.id != "" then reply.id else if id == "" then uid else id
  }

  // The id that Core Metadata assigns, else the caller's, else a new one.
  lemma AddedIdIs(id: string, configured: bool, reply: Reply, uid: string)
    ensures configured && reply.Accepted? && reply.id != "" ==> AddedId(id, configured, reply, uid) == reply.id
    ensures (!configured || reply == Accepted("")) && id != "" ==> AddedId(id, configured, reply, uid) == id
    ensures (!configured || reply == Accepted("")) && id == "" ==> AddedId(id, configured, reply, uid) == uid
  {
  }

  class ProfileStore {
    const cache: DeviceProfileCache
    const metadata: ProfileMetadata?

    constructor (cache: DeviceProfileCache, metadata: ProfileMetadata?)
      ensures this.cache == cache && this.metadata == metadata
    {
      this.cache, this.metadata := cache, metadata;
    }

    // Adding a name that Core Metadata has, or updating or deleting one that it
    // has not, is refused.
    predicate Refuses(name: string, adding: bool, reply: Reply): (refused: bool)
      reads metadata
      ensures metadata == null || reply == Refused ==> refused == (metadata != null)
      ensures metadata != null && reply != Refused && adding ==> (refused <==> name in metadata.profiles)
      ensures metadata != null && reply != Refused && !adding ==> (refused <==> name !in metadata.profiles)
    {
      metadata != null && (reply.Refused? || (name in metadata.profiles) == adding)
    }

    ghost predicate Agree()
      reads cache, metadata
    {
      metadata != null ==> cache.profileMap == metadata.profiles
    }

    // The write to Core Metadata of a profile that was just cached. The cache
    // holds the caller's object, so it gets the id that Core Metadata assigns.
    method ReportAdded(profile: DeviceProfile, reply: Reply) returns (outcome: Outcome)
      requires cache.Valid() && profile.name in cache.profileMap && cache.profileMap[profile.name] == profile
      modifies cache, metadata
      ensures cache.Valid()
      ensures outcome == if old(Refuses(profile.name, true, reply)) then ServerError
        else Done(if metadata != null && reply.id != "" then reply.id else profile.id)
      ensures outcome.ServerError? ==>
        && cache.profileMap == old(cache.profileMap) - {profile.name}
        && (metadata != null ==> metadata.profiles == old(metadata.profiles))
      ensures outcome.Done? ==>
        && cache.profileMap == old(cache.profileMap)[profile.name := profile.(id := outcome.id)]
        && (metadata != null ==>
          metadata.profiles == old(metadata.profiles)[profile.name := profile.(id := outcome.id)])
    {
      hide CoherentMaps;
      PutBack(cache.profileMap, profile.name);
      if metadata == null { return Done(profile.id); }
      if Refuses(profile.name, true, reply) {
        var error := cache.RemoveByName(profile.name);
        return ServerError;
      }
      var id := profile.id;
      if reply.id != "" {
        id := reply.id;
        cache.SetId(profile.name, id);
      }
      metadata.profiles := metadata.profiles[profile.name := profile.(id := id)];
      return Done(id);
    }

    // The cached profile carries the returned id.
    method AddProfile(profile: DeviceProfile, reply: Reply, uid: string) returns (outcome: Outcome)
      requires cache.Valid()
      modifies cache, metadata
      ensures cache.Valid()
      ensures outcome == if profile.name in old(cache.profileMap) then Duplicate
        else if old(Refuses(profile.name, true, reply)) then ServerError
        else Done(AddedId(profile.id, metadata != null, reply, uid))
      ensures outcome.Done? ==>
        cache.profileMap == old(cache.profileMap)[profile.name := profile.(id := outcome.id)]
      ensures !outcome.Done? ==> Restored(cache)
      ensures old(Agree()) ==> Agree()
    {
      hide CoherentMaps;
      if profile.name in cache.profileMap { return Duplicate; }
      ghost var profiles, resources, commands := cache.profileMap, cache.resourceMap, cache.commandMap;
      var added := profile.(id := if profile.id == "" then uid else profile.id);
      var error := cache.Add(added);
      outcome := ReportAdded(added, reply);
      if outcome.Done? {
        PutAgain(profiles, profile.name, added, added.(id := outcome.id));
      } else {
        PutAway(profiles, profile.name, added);
        IndexesDetermined(profiles, resources, commands, cache.resourceMap, cache.commandMap);
      }
    }

    method UpdateProfile(profile: DeviceProfile, reply: Reply) returns (outcome: Outcome)
      requires cache.Valid()
      modifies cache, metadata
      ensures cache.Valid()
      ensures outcome == if profile.name !in old(cache.profileMap) then NotFound
        else if old(Refuses(profile.name, false, reply)) then ServerError else Done("")
      ensures outcome.Done? ==> cache.profileMap == old(cache.profileMap)[profile.name := profile]
      ensures !outcome.Done? ==> Restored(cache)
      ensures old(Agree()) ==> Agree()
    {
      if profile.name !in cache.profileMap { return NotFound; }
      var snapshot := cache.profileMap[profile.name];
      ghost var profiles, resources, commands := cache.profileMap, cache.resourceMap, cache.commandMap;
      assert snapshot.name == profile.name;
      hide CoherentMaps;
      var refused := Refuses(profile.name, false, reply);
      hide Refuses;
      var error := cache.Update(profile);
      if metadata == null { return Done(""); }
      if refused {
        error := cache.Update(snapshot);
        PutAgain(profiles, profile.name, profile, snapshot);
        PutBack(profiles, profile.name);
        IndexesDetermined(profiles, resources, commands, cache.resourceMap, cache.commandMap);
        return ServerError;
      }
      metadata.profiles := metadata.profiles[profile.name := profile];
      return Done("");
    }

    method DeleteProfile(name: string, reply: Reply) returns (outcome: Outcome)
      requires cache.Valid()
      modifies cache, metadata
      ensures cache.Valid()
      ensures outcome == if name !in old(cache.profileMap) then NotFound
        else if old(Refuses(name, false, reply)) then ServerError else Done("")
      ensures outcome.Done? ==> cache.profileMap == old(cache.profileMap) - {name}
      ensures !outcome.Done? ==> Restored(cache)
      ensures old(Agree()) ==> Agree()
    {
      if name !in cache.profileMap { return NotFound; }
      var profile := cache.profileMap[name];
      ghost var profiles, resources, commands := cache.profileMap, cache.resourceMap, cache.commandMap;
      assert profile.name == name;
      hide CoherentMaps;
      var refused := Refuses(name, false, reply);
      hide Refuses;
      var error := cache.RemoveByName(name);
      if metadata == null { return Done(""); }
      if refused {
        error := cache.Add(profile);
        PutBack(profiles, name);
        IndexesDetermined(profiles, resources, commands, cache.resourceMap, cache.commandMap);
        return ServerError;
      }
      metadata.profiles := metadata.profiles - {name};
      return Done("");
    }
  }
}
