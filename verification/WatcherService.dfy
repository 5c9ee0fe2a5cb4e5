// provisionwatchers.py and device_service.py: cache-first add, update and delete
// of provision watchers, over objects that callers share with the cache.
module WatcherService {
  import opened Wrappers
  import opened Models
  import opened DeviceService
  import opened ProfileService

  // What a watcher holds at one moment; `rules` stands for its identifiers,
  // block lists and discovered-device template.
  datatype WatcherRecord = WatcherRecord(id: string, serviceName: string, adminState: string, rules: string)

  class ProvisionWatcher {
    const name: string
    var content: WatcherRecord

    constructor (name: string, content: WatcherRecord)
      ensures this.name == name && this.content == content
    {
      this.name, this.content := name, content;
    }

    method Clone() returns (copy: ProvisionWatcher)
      ensures fresh(copy) && copy.name == name && copy.content == content
    {
      copy := new ProvisionWatcher(name, content);
    }
  }

  class ProvisionWatcherCache {
    var watchers: map<string, ProvisionWatcher>

    ghost predicate Valid()
      reads this
    {
      forall name :: name in watchers ==> watchers[name].name == name
    }

    constructor ()
      ensures Valid() && watchers == map[]
    {
      watchers := map[];
    }

    method Add(watcher: ProvisionWatcher) returns (error: Option<CacheError>)
      requires Valid()
      modifies this
      ensures Valid()
      ensures error == if watcher.name in old(watchers) then Some(DuplicateName) else None
      ensures watchers == if error.Some? then old(watchers) else old(watchers)[watcher.name := watcher]
    {
      if watcher.name in watchers { return Some(DuplicateName); }
      watchers := watchers[watcher.name := watcher];
      return None;
    }

    method RemoveByName(name: string) returns (error: Option<CacheError>)
      requires Valid()
      modifies this
      ensures Valid()
      ensures error == if name in old(watchers) then None else Some(EntityDoesNotExist)
      ensures watchers == if error.Some? then old(watchers) else old(watchers) - {name}
    {
      if name !in watchers { return Some(EntityDoesNotExist); }
      watchers := watchers - {name};
      return None;
    }

    method Update(watcher: ProvisionWatcher) returns (error: Option<CacheError>)
      requires Valid()
      modifies this
      ensures Valid()
      ensures error == if watcher.name in old(watchers) then None else Some(EntityDoesNotExist)
      ensures watchers == if error.Some? then old(watchers) else old(watchers)[watcher.name := watcher]
    {
      error := RemoveByName(watcher.name);
      if error.Some? { return; }
      error := Add(watcher);
    }
  }

  class WatcherMetadata {
    var watchers: map<string, WatcherRecord>

    constructor ()
      ensures watchers == map[]
    {
      watchers := map[];
    }
  }

  class WatcherStore {
    const serviceKey: string
    const cache: ProvisionWatcherCache
    const metadata: WatcherMetadata?

    constructor (serviceKey: string, cache: ProvisionWatcherCache, metadata: WatcherMetadata?)
      ensures this.serviceKey == serviceKey && this.cache == cache && this.metadata == metadata
    {
      this.serviceKey, this.cache, this.metadata := serviceKey, cache, metadata;
    }

    predicate Refuses(name: string, adding: bool, reply: Reply): (refused: bool)
      reads metadata
      ensures metadata == null || reply == Refused ==> refused == (metadata != null)
      ensures metadata != null && reply != Refused && adding ==> (refused <==> name in metadata.watchers)
      ensures metadata != null && reply != Refused && !adding ==> (refused <==> name !in metadata.watchers)
    {
      metadata != null && (reply.Refused? || (name in metadata.watchers) == adding)
    }

    // The cache holds the caller's object, so it carries the returned id.
    method AddWatcher(watcher: ProvisionWatcher, reply: Reply, uid: string) returns (outcome: Outcome)
      requires cache.Valid()
      modifies cache, metadata, watcher
      ensures cache.Valid()
      ensures outcome == if watcher.name in old(cache.watchers) then Duplicate
        else if old(Refuses(watcher.name, true, reply)) then ServerError
        else Done(AddedId(old(watcher.content.id), metadata != null, reply, uid))
      ensures outcome.Done? ==>
        && cache.watchers == old(cache.watchers)[watcher.name := watcher]
        && watcher.content == old(watcher.content).(id := outcome.id, serviceName := serviceKey)
        && (metadata != null ==> metadata.watchers == old(metadata.watchers)[watcher.name := watcher.content])
      ensures !outcome.Done? ==>
        cache.watchers == old(cache.watchers) && (metadata != null ==> metadata.watchers == old(metadata.watchers))
    {
      if watcher.name in cache.watchers { return Duplicate; }
      var refused := Refuses(watcher.name, true, reply);
      watcher.content := watcher.content.(serviceName := serviceKey);
      if watcher.content.id == "" { watcher.content := watcher.content.(id := uid); }
      var error := cache.Add(watcher);
      if metadata == null { return Done(watcher.content.id); }
      if refused {
        error := cache.RemoveByName(watcher.name);
        assert cache.watchers == old(cache.watchers);
        return ServerError;
      }
      if reply.id != "" { watcher.content := watcher.content.(id := reply.id); }
      metadata.watchers := metadata.watchers[watcher.name := watcher.content];
      return Done(watcher.content.id);
    }

    // A refused update or delete leaves a clone of the old watcher in the cache.
    ghost predicate Kept(was: map<string, ProvisionWatcher>, name: string, content: WatcherRecord)
      reads cache, cache.watchers.Values
    {
      && name in cache.watchers && cache.watchers == was[name := cache.watchers[name]]
      && cache.watchers[name].content == content
    }

    method UpdateWatcher(watcher: ProvisionWatcher, reply: Reply) returns (outcome: Outcome)
      requires cache.Valid()
      modifies cache, metadata
      ensures cache.Valid()
      ensures outcome == if watcher.name !in old(cache.watchers) then NotFound
        else if old(Refuses(watcher.name, false, reply)) then ServerError else Done("")
      ensures outcome.NotFound? ==> cache.watchers == old(cache.watchers)
      ensures outcome.Done? ==>
        && cache.watchers == old(cache.watchers)[watcher.name := watcher]
        && (metadata != null ==> metadata.watchers == old(metadata.watchers)[watcher.name := watcher.content])
      ensures outcome.ServerError? ==>
        Kept(old(cache.watchers), watcher.name, old(cache.watchers[watcher.name].content))
      ensures !outcome.Done? && metadata != null ==> metadata.watchers == old(metadata.watchers)
    {
      if watcher.name !in cache.watchers { return NotFound; }
      var refused := Refuses(watcher.name, false, reply);
      var snapshot := cache.watchers[watcher.name].Clone();
      var error := cache.Update(watcher);
      if metadata == null { return Done(""); }
      if refused {
        error := cache.Update(snapshot);
        return ServerError;
      }
      metadata.watchers := metadata.watchers[watcher.name := watcher.content];
      return Done("");
    }

    method DeleteWatcher(name: string, reply: Reply) returns (outcome: Outcome)
      requires cache.Valid()
      modifies cache, metadata
      ensures cache.Valid()
      ensures outcome == if name !in old(cache.watchers) then NotFound
        else if old(Refuses(name, false, reply)) then ServerError else Done("")
      ensures outcome.NotFound? ==> cache.watchers == old(cache.watchers)
      ensures outcome.Done? ==>
        && cache.watchers == old(cache.watchers) - {name}
        && (metadata != null ==> metadata.watchers == old(metadata.watchers) - {name})
      ensures outcome.ServerError? ==> Kept(old(cache.watchers), name, old(cache.watchers[name].content))
      ensures !outcome.Done? && metadata != null ==> metadata.watchers == old(metadata.watchers)
    {
      if name !in cache.watchers { return NotFound; }
      var refused := Refuses(name, false, reply);
      var watcher := cache.watchers[name].Clone();
      var error := cache.RemoveByName(name);
      if metadata == null { return Done(""); }
      if refused {
        error := cache.Add(watcher);
        return ServerError;
      }
      metadata.watchers := metadata.watchers - {name};
      return Done("");
    }
  }
}
