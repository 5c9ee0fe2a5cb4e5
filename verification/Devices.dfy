// devices.py: the device cache and the map of last connected times, over device
// objects that callers share with the cache.
module Devices {
  import opened Wrappers
  import opened Models

  datatype AutoEvent = AutoEvent(sourceName: string, onChange: bool, threshold: real, interval: string)

  // The attributes that Core Metadata keeps in step with the service, as one
  // value.
  datatype Fields = Fields(
    description: string,
    adminState: string,
    operatingState: string,
    serviceName: string,
    profileName: string,
    labels: seq<string>,
    location: Option<string>,
    autoEvents: seq<AutoEvent>,
    protocols: map<string, map<string, string>>,
    tags: map<string, string>,
    properties: map<string, string>)

  // What a device holds at one moment.
  datatype Record = Record(id: string, fields: Fields)

  class Device {
    const name: string
    var id: string
    var fields: Fields

    constructor (name: string, id: string, fields: Fields)
      ensures this.name == name && this.id == id && this.fields == fields
    {
      this.name, this.id, this.fields := name, id, fields;
    }

    function Content(): Record
      reads this
    {
      Record(id, fields)
    }

    method Clone() returns (copy: Device)
      ensures fresh(copy) && copy.name == name && copy.Content() == Content()
    {
      copy := new Device(name, id, fields);
    }
  }

  // What the objects of a device map hold, by value.
  ghost function Contents(devices: map<string, Device>): map<string, Record>
    reads devices.Values
  {
    map name | name in devices :: devices[name].Content()
  }

  lemma ContentsAt(devices: map<string, Device>, name: string)
    ensures name in Contents(devices) <==> name in devices
    ensures name in devices ==> Contents(devices)[name] == devices[name].Content()
  {
  }

  lemma ContentsPut(devices: map<string, Device>, name: string, device: Device)
    ensures Contents(devices[name := device]) == Contents(devices)[name := device.Content()]
  {
  }

  lemma ContentsRemove(devices: map<string, Device>, name: string)
    ensures Contents(devices - {name}) == Contents(devices) - {name}
  {
  }

  class DeviceCache {
    var deviceMap: map<string, Device>
    var lastConnected: map<string, int>

    // Every device has a last connected time, and is stored under its name.
    ghost predicate Valid()
      reads this
    {
      && lastConnected.Keys == deviceMap.Keys
      && forall name :: name in deviceMap ==> deviceMap[name].name == name
    }

    ghost function View(): map<string, Record>
      reads this, deviceMap.Values
    {
      Contents(deviceMap)
    }

    constructor ()
      ensures Valid() && View() == map[] && fresh(this)
    {
      deviceMap, lastConnected := map[], map[];
    }

    // A clone of the stored device, never the device itself.
    method ForName(name: string) returns (found: Option<Device>)
      requires Valid()
      ensures found.Some? <==> name in deviceMap
      ensures found.Some? ==>
        fresh(found.value) && found.value.name == name && found.value.Content() == View()[name]
    {
      if name !in deviceMap { return None; }
      var copy := deviceMap[name].Clone();
      return Some(copy);
    }

    // The cache stores the caller's object.
    method Add(device: Device) returns (error: Option<CacheError>)
      requires Valid()
      modifies this
      ensures Valid()
      ensures error == if device.name in old(deviceMap) then Some(DuplicateName) else None
      ensures error.Some? ==> unchanged(this)
      ensures error.None? ==>
        && deviceMap == old(deviceMap)[device.name := device]
        && lastConnected == old(lastConnected)[device.name := 0]
    {
      if device.name in deviceMap { return Some(DuplicateName); }
      deviceMap, lastConnected := deviceMap[device.name := device], lastConnected[device.name := 0];
      return None;
    }

    method RemoveByName(name: string) returns (error: Option<CacheError>)
      requires Valid()
      modifies this
      ensures Valid()
      ensures error == if name in old(deviceMap) then None else Some(EntityDoesNotExist)
      ensures error.Some? ==> unchanged(this)
      ensures error.None? ==> deviceMap == old(deviceMap) - {name} && lastConnected == old(lastConnected) - {name}
    {
      if name !in deviceMap { return Some(EntityDoesNotExist); }
      deviceMap, lastConnected := deviceMap - {name}, lastConnected - {name};
      return None;
    }

    // An update forgets when the device last connected.
    method Update(device: Device) returns (error: Option<CacheError>)
      requires Valid()
      modifies this
      ensures Valid()
      ensures error == if device.name in old(deviceMap) then None else Some(EntityDoesNotExist)
      ensures error.Some? ==> unchanged(this)
      ensures error.None? ==>
        && deviceMap == old(deviceMap)[device.name := device]
        && lastConnected == old(lastConnected)[device.name := 0]
    {
      error := RemoveByName(device.name);
      if error.Some? { return; }
      error := Add(device);
    }

    method SetLastConnected(name: string, now: int)
      requires Valid()
      modifies this`lastConnected
      ensures Valid()
      ensures lastConnected == if name in deviceMap then old(lastConnected)[name := now] else old(lastConnected)
    {
      if name in lastConnected {
        lastConnected := lastConnected[name := now];
      }
    }
  }
}
