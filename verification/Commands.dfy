// The write pipeline of command.py and the event conversion of transform.py:
// request values are coerced, transformed in place, handed to the driver and
// then read back from the same objects into the published event.
module Commands {
  import opened Wrappers
  import opened Models
  import Numerals
  import opened Profiles
  import opened Transform
  import opened Coercion

  // Edgex is an EdgexError of that kind; Escaped is any other exception, which
  // leaves the command functions unhandled.
  datatype ErrorKind = NotFound | NotAllowed | ServerError | ContractInvalid

  datatype CommandError = Edgex(kind: ErrorKind) | Escaped

  datatype Result<+T> = Ok(value: T) | Err(error: CommandError)

  // A request value is a string, or something else with its text; a null is a
  // missing value.
  datatype RequestValue = Str(s: string) | Other(text: string) {
    function AsText(): string { if Str? then s else text }
  }

  // What a CommandValue holds at one moment.
  datatype Parameter = Parameter(name: string, valueType: ValueType, value: Value)

  datatype Reading = Reading(resourceName: string, valueType: ValueType, value: Option<string>)

  // The first error of a list of results, or all the values.
  function Collect<T>(results: seq<Result<T>>): Result<seq<T>> {
    if results == [] then Ok([])
    else
      match results[0]
      case Err(e) => Err(e)
      case Ok(v) =>
        match Collect(results[1..])
        case Err(e) => Err(e)
        case Ok(vs) => Ok([v] + vs)
  }

  lemma {:induction false} CollectOk<T>(results: seq<Result<T>>)
    ensures Collect(results).Ok? <==> forall i :: 0 <= i < |results| ==> results[i].Ok?
    ensures Collect(results).Ok? ==>
      && |Collect(results).value| == |results|
      && forall i :: 0 <= i < |results| ==> results[i] == Ok(Collect(results).value[i])
  {
    if results != [] {
      CollectOk(results[1..]);
      assert forall i :: 1 <= i < |results| ==> results[i] == results[1..][i - 1];
    }
  }

  lemma {:induction false} CollectErr<T>(results: seq<Result<T>>, k: nat)
    requires k < |results| && results[k].Err? && forall i :: 0 <= i < k ==> results[i].Ok?
    ensures Collect(results) == Err(results[k].error)
  {
    if k > 0 { CollectErr(results[1..], k - 1); }
  }

  // ---- Coercion of one operation ----

  function OperationValue(op: ResourceOperation, dr: DeviceResource, requests: map<string, RequestValue>):
    Option<RequestValue>
  {
    if op.deviceResource in requests then Some(requests[op.deviceResource])
    else if op.defaultValue != "" then Some(Str(op.defaultValue))
    else if dr.properties.defaultValue != "" then Some(Str(dr.properties.defaultValue))
    else None
  }

  // The write direction of a mapping: the mapped text selects the key.
  function Unmap(mappings: seq<(string, string)>, value: RequestValue): RequestValue {
    if mappings == [] then value
    else if value == Str(mappings[0].1) then Str(mappings[0].0)
    else Unmap(mappings[1..], value)
  }

  function CoerceFor(dr: DeviceResource, value: RequestValue): Result<Parameter> {
    match Coerce(value.AsText(), dr.properties.valueType)
    case None => Err(Edgex(ContractInvalid))
    case Some(v) => Ok(Parameter(dr.name, dr.properties.valueType, v))
  }

  function CoerceOperation(profile: DeviceProfile, op: ResourceOperation, requests: map<string, RequestValue>):
    Result<Parameter>
  {
    match ResourceOf(profile, op.deviceResource)
    case None => Err(Edgex(ServerError))
    case Some(dr) =>
      match OperationValue(op, dr, requests)
      case None => Err(Edgex(ServerError))
      case Some(value) => CoerceFor(dr, Unmap(op.mappings, value))
  }

  // ---- The write transformation of one parameter ----

  function WriteParameter(a: Arithmetic, p: ResourceProperties, param: Parameter, transform: bool):
    Result<Parameter>
  {
    if !transform then Ok(param)
    else
      match WriteEffect(a, param.valueType, param.value, p)
      case (v, None) => Ok(param.(value := v))
      case (_, Some(Raised)) => Err(Escaped)
      case (_, Some(_)) => Err(Edgex(ContractInvalid))
  }

  function WriteOne(a: Arithmetic, profile: DeviceProfile, param: Parameter, transform: bool): Result<Parameter> {
    match ResourceOf(profile, param.name)
    case None => Err(Escaped)
    case Some(dr) => WriteParameter(a, dr.properties, param, transform)
  }

  // ---- The event ----

  function ValueText(value: Value): string {
    match value
    case Null => "None"
    case Int(n) => Numerals.Str(n)
    case Truth(b) => if b then "True" else "False"
    case Text(s) => s
  }

  function Mapped(mappings: seq<(string, string)>, key: string): Option<string> {
    if mappings == [] then None
    else if mappings[0].0 == key then Some(mappings[0].1)
    else Mapped(mappings[1..], key)
  }

  // The CommandValue after the read transformation: an overflow is replaced by
  // a String value.
  function Displayed(a: Arithmetic, p: ResourceProperties, param: Parameter, transform: bool): Result<Parameter> {
    if !transform then Ok(param)
    else
      match ReadEffect(a, param.valueType, param.value, p)
      case (v, None) => Ok(param.(value := v))
      case (_, Some(Overflow)) => Ok(Parameter(param.name, String, Text("overflow")))
      case (_, Some(Raised)) => Err(Escaped)
      case (_, Some(_)) => Err(Edgex(ServerError))
  }

  // A failed assertion disables the device as well (see the failure tracker).
  function ToReading(profile: DeviceProfile, assertion: string, shown: Parameter): Result<Reading> {
    var text := ValueText(shown.value);
    if assertion != "" && text != assertion then Err(Edgex(ServerError))
    else
      match (match OperationOf(profile, shown.name) case None => None case Some(op) => Mapped(op.mappings, text))
      case Some(mapped) => Ok(Reading(shown.name, String, Some(mapped)))
      case None => Ok(Reading(shown.name, shown.valueType, if shown.value.Null? then None else Some(text)))
  }

  function ReadOne(a: Arithmetic, profile: DeviceProfile, param: Parameter, transform: bool): Result<Reading> {
    match ResourceOf(profile, param.name)
    case None => Err(Edgex(ServerError))
    case Some(dr) =>
      match Displayed(a, dr.properties, param, transform)
      case Err(e) => Err(e)
      case Ok(shown) => ToReading(profile, dr.properties.assertion, shown)
  }

  // ---- Whole commands, as functions of the request ----

  function CoerceAll(profile: DeviceProfile, ops: seq<ResourceOperation>, requests: map<string, RequestValue>):
    seq<Result<Parameter>>
  {
    seq(|ops|, i requires 0 <= i < |ops| => CoerceOperation(profile, ops[i], requests))
  }

  function WriteAll(a: Arithmetic, profile: DeviceProfile, params: seq<Parameter>, transform: bool):
    seq<Result<Parameter>>
  {
    seq(|params|, i requires 0 <= i < |params| => WriteOne(a, profile, params[i], transform))
  }

  function ReadAll(a: Arithmetic, profile: DeviceProfile, params: seq<Parameter>, transform: bool):
    seq<Result<Reading>>
  {
    seq(|params|, i requires 0 <= i < |params| => ReadOne(a, profile, params[i], transform))
  }

  // The parameters that the driver is given for a DeviceCommand.
  function Driven(a: Arithmetic, profile: DeviceProfile, dc: DeviceCommand, maxCmdOps: int,
                  requests: map<string, RequestValue>, transform: bool): Result<seq<Parameter>>
  {
    if dc.readWrite == ReadOnly then Err(Edgex(NotAllowed))
    else if 0 < maxCmdOps < |dc.resourceOperations| then Err(Edgex(ServerError))
    else
      match Collect(CoerceAll(profile, dc.resourceOperations, requests))
      case Err(e) => Err(e)
      case Ok(params) => Collect(WriteAll(a, profile, params, transform))
  }

  // None stands for "no event": a write-only command, or no readings.
  function Published(a: Arithmetic, profile: DeviceProfile, params: seq<Parameter>, transform: bool):
    Result<Option<seq<Reading>>>
  {
    match Collect(ReadAll(a, profile, params, transform))
    case Err(e) => Err(e)
    case Ok(readings) => Ok(if readings == [] then None else Some(readings))
  }

  function Finished(a: Arithmetic, profile: DeviceProfile, driven: Result<seq<Parameter>>, driverFails: bool,
                    writeOnly: bool, transform: bool): Result<Option<seq<Reading>>>
  {
    match driven
    case Err(e) => Err(e)
    case Ok(params) =>
      if driverFails then Err(Edgex(ServerError))
      else if writeOnly then Ok(None)
      else Published(a, profile, params, transform)
  }

  // ---- The same, step by step on CommandValue objects ----

  predicate Holds(cv: CommandValue, param: Parameter)
    reads cv
  {
    cv.deviceResourceName == param.name && cv.valueType == param.valueType && cv.value == param.value
  }

  function Snapshot(cv: CommandValue): Parameter
    reads cv
  {
    Parameter(cv.deviceResourceName, cv.valueType, cv.value)
  }

  predicate Distinct(cvs: seq<CommandValue>) {
    forall i, j :: 0 <= i < j < |cvs| ==> cvs[i] != cvs[j]
  }

  method CoerceRequests(profile: DeviceProfile, ops: seq<ResourceOperation>, requests: map<string, RequestValue>)
    returns (result: Result<seq<CommandValue>>, ghost params: seq<Parameter>)
    ensures result.Err? ==> Collect(CoerceAll(profile, ops, requests)) == Err(result.error)
    ensures result.Ok? ==>
      && Collect(CoerceAll(profile, ops, requests)) == Ok(params)
      && |result.value| == |params| == |ops|
      && Distinct(result.value)
      && forall i :: 0 <= i < |params| ==> fresh(result.value[i]) && Holds(result.value[i], params[i])
  {
    ghost var all := CoerceAll(profile, ops, requests);
    var cvs: seq<CommandValue> := [];
    params := [];
    for i := 0 to |ops|
      invariant |cvs| == |params| == i && Distinct(cvs)
      invariant forall k :: 0 <= k < i ==> all[k] == Ok(params[k])
      invariant forall k :: 0 <= k < i ==> fresh(cvs[k]) && Holds(cvs[k], params[k])
    {
      var one := CoerceOperation(profile, ops[i], requests);
      if one.Err? {
        CollectErr(all, i);
        return Err(one.error), params;
      }
      var cv := new CommandValue(one.value.name, one.value.valueType, one.value.value);
      cvs, params := cvs + [cv], params + [one.value];
    }
    CollectOk(all);
    assert Collect(all).value == params;
    return Ok(cvs), params;
  }

  method TransformParameters(a: Arithmetic, profile: DeviceProfile, cvs: seq<CommandValue>, transform: bool,
                             ghost params: seq<Parameter>)
    returns (error: Option<CommandError>, written: seq<Parameter>)
    requires |cvs| == |params| && Distinct(cvs)
    requires forall i :: 0 <= i < |cvs| ==> Holds(cvs[i], params[i])
    modifies cvs
    ensures error.Some? ==> Collect(WriteAll(a, profile, params, transform)) == Err(error.value)
    ensures error.None? ==>
      && Collect(WriteAll(a, profile, params, transform)) == Ok(written)
      && |written| == |cvs|
      && forall i :: 0 <= i < |cvs| ==> Holds(cvs[i], written[i])
  {
    ghost var all := WriteAll(a, profile, params, transform);
    written := [];
    for i := 0 to |cvs|
      invariant |written| == i
      invariant forall k :: 0 <= k < i ==> all[k] == Ok(written[k]) && Holds(cvs[k], written[k])
      invariant forall k :: i <= k < |cvs| ==> Holds(cvs[k], params[k])
    {
      var dr := ResourceOf(profile, cvs[i].deviceResourceName);
      assert all[i] == WriteOne(a, profile, params[i], transform);
      if dr.None? {
        CollectErr(all, i);
        return Some(Escaped), written;
      }
      if transform {
        var raised := TransformWriteParameter(a, cvs[i], dr.value.properties);
        if raised.Some? {
          CollectErr(all, i);
          return Some(if raised.value == Raised then Escaped else Edgex(ContractInvalid)), written;
        }
      }
      written := written + [Snapshot(cvs[i])];
    }
    CollectOk(all);
    assert Collect(all).value == written;
    return None, written;
  }

  // One CommandValue to its reading, transformed in place.
  method ConvertOne(a: Arithmetic, profile: DeviceProfile, cv: CommandValue, transform: bool, ghost param: Parameter)
    returns (reading: Result<Reading>)
    requires Holds(cv, param)
    modifies cv
    ensures reading == ReadOne(a, profile, param, transform)
  {
    var dr := ResourceOf(profile, cv.deviceResourceName);
    if dr.None? { return Err(Edgex(ServerError)); }
    var p := dr.value.properties;
    var raised: Option<Outcome> := None;
    if transform {
      raised := TransformReadResult(a, cv, p);
    }
    var shown := Snapshot(cv);
    if raised.Some? {
      if raised.value != Overflow {
        return Err(if raised.value == Raised then Escaped else Edgex(ServerError));
      }
      shown := Parameter(cv.deviceResourceName, String, Text("overflow"));
    }
    return ToReading(profile, p.assertion, shown);
  }

  // `command_values_to_event`
  method CommandValuesToEvent(a: Arithmetic, profile: DeviceProfile, cvs: seq<CommandValue>, transform: bool,
                              ghost params: seq<Parameter>)
    returns (event: Result<Option<seq<Reading>>>)
    requires |cvs| == |params| && Distinct(cvs)
    requires forall i :: 0 <= i < |cvs| ==> Holds(cvs[i], params[i])
    modifies cvs
    ensures event == Published(a, profile, params, transform)
  {
    ghost var all := ReadAll(a, profile, params, transform);
    var readings: seq<Reading> := [];
    for i := 0 to |cvs|
      invariant |readings| == i
      invariant forall k :: 0 <= k < i ==> all[k] == Ok(readings[k])
      invariant forall k :: i <= k < |cvs| ==> Holds(cvs[k], params[k])
    {
      var reading := ConvertOne(a, profile, cvs[i], transform, params[i]);
      assert reading == all[i];
      if reading.Err? {
        CollectErr(all, i);
        return Err(reading.error);
      }
      readings := readings + [reading.value];
    }
    CollectOk(all);
    assert Collect(all).value == readings;
    return Ok(if readings == [] then None else Some(readings));
  }

  // `_write_device_command`. `seen` is what the driver was given, if it was
  // called; `driverFails` is what the driver then did.
  method WriteDeviceCommand(a: Arithmetic, profile: DeviceProfile, commandName: string, maxCmdOps: int,
                            requests: map<string, RequestValue>, transform: bool, driverFails: bool)
    returns (result: Result<Option<seq<Reading>>>, seen: Option<seq<Parameter>>)
    ensures CommandOf(profile, commandName).None? ==> result == Err(Edgex(NotFound)) && seen.None?
    ensures CommandOf(profile, commandName).Some? ==>
      var dc := CommandOf(profile, commandName).value;
      var driven := Driven(a, profile, dc, maxCmdOps, requests, transform);
      && seen == (if driven.Ok? then Some(driven.value) else None)
      && result == Finished(a, profile, driven, driverFails, dc.readWrite == WriteOnly, transform)
  {
    var found := CommandOf(profile, commandName);
    if found.None? { return Err(Edgex(NotFound)), None; }
    var dc := found.value;
    if dc.readWrite == ReadOnly { return Err(Edgex(NotAllowed)), None; }
    if 0 < maxCmdOps < |dc.resourceOperations| { return Err(Edgex(ServerError)), None; }
    var coerced, params := CoerceRequests(profile, dc.resourceOperations, requests);
    if coerced.Err? { return Err(coerced.error), None; }
    var cvs := coerced.value;
    var error, written := TransformParameters(a, profile, cvs, transform, params);
    if error.Some? { return Err(error.value), None; }
    if driverFails { return Err(Edgex(ServerError)), Some(written); }
    if dc.readWrite == WriteOnly { return Ok(None), Some(written); }
    var event := CommandValuesToEvent(a, profile, cvs, transform, written);
    return event, Some(written);
  }

  // The parameter that the driver is given for a single DeviceResource.
  function DrivenResource(a: Arithmetic, dr: DeviceResource, requests: map<string, RequestValue>, transform: bool):
    Result<seq<Parameter>>
  {
    if dr.properties.readWrite == ReadOnly then Err(Edgex(NotAllowed))
    else
      match OperationValue(ResourceOperation(dr.name, "", []), dr, requests)
      case None => Err(Edgex(ServerError))
      case Some(value) =>
        match CoerceFor(dr, value)
        case Err(e) => Err(e)
        case Ok(param) =>
          match WriteParameter(a, dr.properties, param, transform)
          case Err(e) => Err(e)
          case Ok(written) => Ok([written])
  }

  // `_write_device_resource`
  method WriteDeviceResource(a: Arithmetic, profile: DeviceProfile, resourceName: string,
                             requests: map<string, RequestValue>, transform: bool, driverFails: bool)
    returns (result: Result<Option<seq<Reading>>>, seen: Option<seq<Parameter>>)
    ensures ResourceOf(profile, resourceName).None? ==> result == Err(Edgex(NotFound)) && seen.None?
    ensures ResourceOf(profile, resourceName).Some? ==>
      var dr := ResourceOf(profile, resourceName).value;
      var driven := DrivenResource(a, dr, requests, transform);
      && seen == (if driven.Ok? then Some(driven.value) else None)
      && result == Finished(a, profile, driven, driverFails, dr.properties.readWrite == WriteOnly, transform)
  {
    var found := ResourceOf(profile, resourceName);
    if found.None? { return Err(Edgex(NotFound)), None; }
    var dr := found.value;
    if dr.properties.readWrite == ReadOnly { return Err(Edgex(NotAllowed)), None; }
    var value := OperationValue(ResourceOperation(dr.name, "", []), dr, requests);
    if value.None? { return Err(Edgex(ServerError)), None; }
    var coerced := CoerceFor(dr, value.value);
    if coerced.Err? { return Err(coerced.error), None; }
    var cv := new CommandValue(coerced.value.name, coerced.value.valueType, coerced.value.value);
    if transform {
      var raised := TransformWriteParameter(a, cv, dr.properties);
      if raised.Some? {
        return Err(if raised.value == Raised then Escaped else Edgex(ContractInvalid)), None;
      }
    }
    var written := Snapshot(cv);
    if driverFails { return Err(Edgex(ServerError)), Some([written]); }
    if dr.properties.readWrite == WriteOnly { return Ok(None), Some([written]); }
    var event := CommandValuesToEvent(a, profile, [cv], transform, [written]);
    return event, Some([written]);
  }
}
