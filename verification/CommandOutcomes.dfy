// When a write command succeeds, with what it fails, and what it publishes.
module CommandOutcomes {
  import opened Wrappers
  import opened IntTypes
  import opened Models
  import opened Profiles
  import opened Transform
  import opened TransformLaws
  import Numerals
  import opened Coercion
  import opened Commands
  import opened CommandLaws

  // ---- The value of an operation ----

  // The request comes first, then the default of the operation, then the default
  // of the resource.
  lemma ValueInOrder(op: ResourceOperation, dr: DeviceResource, requests: map<string, RequestValue>)
    ensures op.deviceResource in requests ==>
      OperationValue(op, dr, requests) == Some(requests[op.deviceResource])
    ensures op.deviceResource !in requests && op.defaultValue != "" ==>
      OperationValue(op, dr, requests) == Some(RequestValue.Str(op.defaultValue))
    ensures op.deviceResource !in requests && op.defaultValue == "" && dr.properties.defaultValue != "" ==>
      OperationValue(op, dr, requests) == Some(RequestValue.Str(dr.properties.defaultValue))
    ensures OperationValue(op, dr, requests) == None <==>
      op.deviceResource !in requests && op.defaultValue == "" && dr.properties.defaultValue == ""
  {
  }

  // Coercion keeps a string and takes twelve texts for a boolean.
  lemma CoercedTexts(text: string)
    ensures Coerce(text, String) == Some(Text(text))
    ensures Coerce(text, Bool) == Some(Truth(true)) <==>
      text == "1" || text == "t" || text == "T" || text == "TRUE" || text == "true" || text == "True"
    ensures Coerce(text, Bool) == Some(Truth(false)) <==>
      text == "0" || text == "f" || text == "F" || text == "FALSE" || text == "false" || text == "False"
    ensures Coerce(text, Bool).Some? ==> Coerce(text, Bool).value.Truth?
  {
    if text == "1" || text == "t" || text == "T" || text == "TRUE" || text == "true" || text == "True" ||
      text == "0" || text == "f" || text == "F" || text == "FALSE" || text == "false" || text == "False"
    {
      assert text[0] !in Numerals.WHITESPACE && text[|text| - 1] !in Numerals.WHITESPACE;
      Numerals.TrimNothing(text, Numerals.WHITESPACE);
    }
  }

  // What a failed coercion is reported as.
  lemma CoercionErrors(profile: DeviceProfile, op: ResourceOperation, requests: map<string, RequestValue>)
    ensures var dr := ResourceOf(profile, op.deviceResource);
      var r := CoerceOperation(profile, op, requests);
      && (r == Err(Edgex(ServerError)) <==> dr.None? || OperationValue(op, dr.value, requests).None?)
      && (r.Err? ==> r.error == Edgex(ServerError) || r.error == Edgex(ContractInvalid))
      && (dr.Some? && OperationValue(op, dr.value, requests).Some? ==>
        var text := Unmap(op.mappings, OperationValue(op, dr.value, requests).value).AsText();
        (r.Ok? <==> Coerce(text, dr.value.properties.valueType).Some?))
  {
    hide Coerce;
  }

  // What a failed write transformation is reported as.
  lemma WriteErrors(a: Arithmetic, p: ResourceProperties, param: Parameter, transform: bool)
    ensures !transform || !param.valueType.Integer? || !param.value.Int? ==>
      WriteParameter(a, p, param, transform) == Ok(param)
    ensures transform && param.valueType.Integer? && param.value.Int? ==>
      WriteParameter(a, p, param, transform) ==
        match WriteValue(a, param.value.n, p, param.valueType.t)
        case Number(n) => Ok(param.(value := Int(n)))
        case Raised => Err(Escaped)
        case _ => Err(Edgex(ContractInvalid))
  {
    hide WriteValue;
  }

  // ---- Limits ----

  // Above the truncated maximum, or below the truncated minimum.
  predicate Outside(p: ResourceProperties, v: int) {
    (p.maximum.Some? && Trunc(p.maximum.value) < v) || (p.minimum.Some? && v < Trunc(p.minimum.value))
  }

  predicate OutsideParameter(p: ResourceProperties, param: Parameter) {
    param.valueType.Integer? && param.value.Int? && Outside(p, param.value.n)
  }

  lemma OutsideFails(a: Arithmetic, p: ResourceProperties, param: Parameter)
    requires OutsideParameter(p, param)
    ensures WriteParameter(a, p, param, true) == Err(Edgex(ContractInvalid))
  {
    hide WriteValue;
    RejectedIff(a, param.value.n, p, param.valueType.t);
  }

  // A request value outside the limits of its resource never reaches the driver.
  lemma OutsideNeverDriven(a: Arithmetic, profile: DeviceProfile, dc: DeviceCommand, maxCmdOps: int,
                           requests: map<string, RequestValue>)
    requires Driven(a, profile, dc, maxCmdOps, requests, true).Ok?
    ensures forall i :: 0 <= i < |dc.resourceOperations| ==>
      var op := dc.resourceOperations[i];
      && ResourceOf(profile, op.deviceResource).Some? && CoerceOperation(profile, op, requests).Ok?
      && !OutsideParameter(ResourceOf(profile, op.deviceResource).value.properties,
        CoerceOperation(profile, op, requests).value)
  {
    hide CoerceOperation, WriteParameter, OutsideParameter;
    var ops := dc.resourceOperations;
    var coerced := CoerceAll(profile, ops, requests);
    CollectOk(coerced);
    var params := Collect(coerced).value;
    var written := WriteAll(a, profile, params, true);
    CollectOk(written);
    forall i | 0 <= i < |ops|
      ensures ResourceOf(profile, ops[i].deviceResource).Some? && CoerceOperation(profile, ops[i], requests).Ok?
      ensures !OutsideParameter(ResourceOf(profile, ops[i].deviceResource).value.properties,
        CoerceOperation(profile, ops[i], requests).value)
    {
      assert coerced[i] == CoerceOperation(profile, ops[i], requests);
      assert written[i] == WriteOne(a, profile, params[i], true);
      CoercedResource(profile, ops[i], params[i], requests);
      var p := ResourceOf(profile, ops[i].deviceResource).value.properties;
      if OutsideParameter(p, params[i]) { OutsideFails(a, p, params[i]); }
    }
  }

  lemma OutsideResourceNeverDriven(a: Arithmetic, dr: DeviceResource, value: RequestValue,
                                   requests: map<string, RequestValue>)
    requires dr.properties.readWrite != ReadOnly
    requires OperationValue(ResourceOperation(dr.name, "", []), dr, requests) == Some(value)
    requires CoerceFor(dr, value).Ok? && OutsideParameter(dr.properties, CoerceFor(dr, value).value)
    ensures DrivenResource(a, dr, requests, true) == Err(Edgex(ContractInvalid))
  {
    hide CoerceFor, WriteParameter, OutsideParameter, OperationValue;
    OutsideFails(a, dr.properties, CoerceFor(dr, value).value);
  }

  // ---- Readings ----

  // The text of a value, against which an assertion is compared and in which a
  // mapping looks.
  lemma TextIs(value: Value)
    ensures value.Null? ==> ValueText(value) == "None"
    ensures value == Truth(true) ==> ValueText(value) == "True"
    ensures value == Truth(false) ==> ValueText(value) == "False"
    ensures value.Text? ==> ValueText(value) == value.s
    ensures value.Int? ==> ValueText(value) == Numerals.Str(value.n)
  {
  }

  // The text that a mapping of the reading operation gives.
  function MappedText(profile: DeviceProfile, name: string, text: string): Option<string> {
    if OperationOf(profile, name).Some? then Mapped(OperationOf(profile, name).value.mappings, text) else None
  }

  // A reading fails exactly when there is an assertion and it is not the text.
  // It shows the mapped text as a String, or the value as it is, and a missing
  // value as nothing.
  lemma ReadingIs(profile: DeviceProfile, assertion: string, shown: Parameter)
    ensures var text := ValueText(shown.value);
      var mapped := MappedText(profile, shown.name, text);
      var r := ToReading(profile, assertion, shown);
      && (r.Ok? <==> assertion == "" || assertion == text)
      && (r.Err? ==> r.error == Edgex(ServerError))
      && (r.Ok? && mapped.Some? ==> r.value == Reading(shown.name, String, mapped))
      && (r.Ok? && mapped.None? && shown.value.Null? ==> r.value == Reading(shown.name, shown.valueType, None))
      && (r.Ok? && mapped.None? && !shown.value.Null? ==> r.value == Reading(shown.name, shown.valueType, Some(text)))
  {
    hide ValueText, OperationOf;
  }

  // What is read back for a value of a known resource: with data transform the
  // transformed number, and "overflow" as a String when it overflows.
  lemma ReadBack(a: Arithmetic, profile: DeviceProfile, param: Parameter, transform: bool)
    requires ResourceOf(profile, param.name).Some?
    ensures var p := ResourceOf(profile, param.name).value.properties;
      var r := ReadOne(a, profile, param, transform);
      if !transform || !param.valueType.Integer? || !param.value.Int? then r == ToReading(profile, p.assertion, param)
      else
        match ReadValue(a, param.value.n, p, param.valueType.t)
        case Number(n) => r == ToReading(profile, p.assertion, param.(value := Int(n)))
        case Overflow => r == ToReading(profile, p.assertion, Parameter(param.name, String, Text("overflow")))
        case Raised => r == Err(Escaped)
        case Rejected => true
  {
    hide ReadValue, ToReading;
  }

  lemma ReadNeverRejects(a: Arithmetic, v: int, p: ResourceProperties, t: IntType)
    ensures ReadValue(a, v, p, t) != Rejected
  {
    hide OffsetStage, ScaleStage, BaseStage, MaskStage, ShiftStage;
    StagesNeverReject(a, p, t);
  }

  // ---- Whole commands ----

  // What becomes of one operation before the driver, and after it.
  function Written(a: Arithmetic, profile: DeviceProfile, op: ResourceOperation, requests: map<string, RequestValue>,
                   transform: bool): Result<Parameter>
  {
    match CoerceOperation(profile, op, requests)
    case Err(e) => Err(e)
    case Ok(param) => WriteOne(a, profile, param, transform)
  }

  function ReadAfter(a: Arithmetic, profile: DeviceProfile, op: ResourceOperation, requests: map<string, RequestValue>,
                     transform: bool): Result<Reading>
  {
    match Written(a, profile, op, requests, transform)
    case Err(e) => Err(e)
    case Ok(param) => ReadOne(a, profile, param, transform)
  }

  predicate AllWritten(a: Arithmetic, profile: DeviceProfile, ops: seq<ResourceOperation>,
                       requests: map<string, RequestValue>, transform: bool)
  {
    forall i :: 0 <= i < |ops| ==> Written(a, profile, ops[i], requests, transform).Ok?
  }

  predicate AllRead(a: Arithmetic, profile: DeviceProfile, ops: seq<ResourceOperation>,
                    requests: map<string, RequestValue>, transform: bool)
  {
    forall i :: 0 <= i < |ops| ==> ReadAfter(a, profile, ops[i], requests, transform).Ok?
  }

  predicate Permitted(dc: DeviceCommand, maxCmdOps: int) {
    dc.readWrite != ReadOnly && (maxCmdOps <= 0 || |dc.resourceOperations| <= maxCmdOps)
  }

  // The driver is called exactly when the command may write, is not too long,
  // and every operation is coerced and transformed; with one parameter for each.
  lemma DrivenIff(a: Arithmetic, profile: DeviceProfile, dc: DeviceCommand, maxCmdOps: int,
                  requests: map<string, RequestValue>, transform: bool)
    ensures var ops := dc.resourceOperations;
      var driven := Driven(a, profile, dc, maxCmdOps, requests, transform);
      && (driven.Ok? <==> Permitted(dc, maxCmdOps) && AllWritten(a, profile, ops, requests, transform))
      && (driven.Ok? ==> |driven.value| == |ops|)
      && (driven.Ok? ==> forall i :: 0 <= i < |ops| ==>
        Written(a, profile, ops[i], requests, transform) == Ok(driven.value[i]))
  {
    hide CoerceOperation, WriteOne;
    var ops := dc.resourceOperations;
    var coerced := CoerceAll(profile, ops, requests);
    CollectOk(coerced);
    forall i | 0 <= i < |ops| ensures coerced[i] == CoerceOperation(profile, ops[i], requests) {
    }
    if Collect(coerced).Ok? {
      var params := Collect(coerced).value;
      var written := WriteAll(a, profile, params, transform);
      CollectOk(written);
      forall i | 0 <= i < |ops| ensures written[i] == Written(a, profile, ops[i], requests, transform) {
        assert written[i] == WriteOne(a, profile, params[i], transform);
      }
    } else {
      assert !AllWritten(a, profile, ops, requests, transform);
    }
  }

  lemma PublishedIff(a: Arithmetic, profile: DeviceProfile, params: seq<Parameter>, transform: bool)
    ensures var event := Published(a, profile, params, transform);
      && (event.Ok? <==> forall i :: 0 <= i < |params| ==> ReadOne(a, profile, params[i], transform).Ok?)
      && (event.Ok? ==> (event.value.Some? <==> |params| > 0))
      && (event.Ok? && event.value.Some? ==> |event.value.value| == |params|)
      && (event.Ok? && event.value.Some? ==> forall i :: 0 <= i < |params| ==>
        ReadOne(a, profile, params[i], transform) == Ok(event.value.value[i]))
  {
    hide ReadOne;
    var all := ReadAll(a, profile, params, transform);
    CollectOk(all);
    forall i | 0 <= i < |params| ensures all[i] == ReadOne(a, profile, params[i], transform) {
    }
  }

  // A driver failure is a ServerError, and a failure before the driver is what
  // is reported.
  lemma DriverFailure(a: Arithmetic, profile: DeviceProfile, driven: Result<seq<Parameter>>, driverFails: bool,
                      writeOnly: bool, transform: bool)
    ensures driven.Ok? && driverFails ==>
      Finished(a, profile, driven, driverFails, writeOnly, transform) == Err(Edgex(ServerError))
    ensures driven.Err? ==>
      Finished(a, profile, driven, driverFails, writeOnly, transform) == Err(driven.error)
  {
  }

  lemma FinishedIff(a: Arithmetic, profile: DeviceProfile, driven: Result<seq<Parameter>>, driverFails: bool,
                    writeOnly: bool, transform: bool)
    ensures var result := Finished(a, profile, driven, driverFails, writeOnly, transform);
      var readable := driven.Ok? && (writeOnly || Published(a, profile, driven.value, transform).Ok?);
      && (result.Ok? <==> readable && !driverFails)
      && (result.Ok? && writeOnly ==> result.value == None)
      && (result.Ok? && !writeOnly ==> result == Published(a, profile, driven.value, transform))
  {
    hide Published;
  }

  // A command succeeds exactly when permission, length, coercion and write
  // transformation are in order, the driver does not fail, and every reading can
  // be made if the command is to be read back. There is an event exactly when it
  // is to be read back and has operations, with their readings in order.
  lemma CommandOkIff(a: Arithmetic, profile: DeviceProfile, dc: DeviceCommand, maxCmdOps: int,
                     requests: map<string, RequestValue>, transform: bool, driverFails: bool)
    ensures var ops := dc.resourceOperations;
      var driven := Driven(a, profile, dc, maxCmdOps, requests, transform);
      var result := Finished(a, profile, driven, driverFails, dc.readWrite == WriteOnly, transform);
      && (result.Ok? <==>
        && Permitted(dc, maxCmdOps) && AllWritten(a, profile, ops, requests, transform) && !driverFails
        && (dc.readWrite == WriteOnly || AllRead(a, profile, ops, requests, transform)))
      && (result.Ok? ==> (result.value.Some? <==> dc.readWrite != WriteOnly && |ops| > 0))
      && (result.Ok? && result.value.Some? ==> |result.value.value| == |ops|)
      && (result.Ok? && result.value.Some? ==> forall i :: 0 <= i < |ops| ==>
        ReadAfter(a, profile, ops[i], requests, transform) == Ok(result.value.value[i]))
  {
    hide Driven, Published, Finished, Written, ReadOne, Permitted;
    var driven := Driven(a, profile, dc, maxCmdOps, requests, transform);
    DrivenIff(a, profile, dc, maxCmdOps, requests, transform);
    FinishedIff(a, profile, driven, driverFails, dc.readWrite == WriteOnly, transform);
    if driven.Ok? {
      PublishedIff(a, profile, driven.value, transform);
      ReadsAfter(a, profile, dc.resourceOperations, requests, transform, driven.value);
    }
  }

  lemma ReadsAfter(a: Arithmetic, profile: DeviceProfile, ops: seq<ResourceOperation>,
                   requests: map<string, RequestValue>, transform: bool, sent: seq<Parameter>)
    requires |sent| == |ops|
    requires forall i :: 0 <= i < |ops| ==> Written(a, profile, ops[i], requests, transform) == Ok(sent[i])
    ensures forall i :: 0 <= i < |ops| ==>
      ReadAfter(a, profile, ops[i], requests, transform) == ReadOne(a, profile, sent[i], transform)
  {
    hide Written, ReadOne;
  }

  // A command that may not write is NotAllowed and one that is too long is a
  // ServerError, whatever is asked.
  lemma NotPermitted(a: Arithmetic, profile: DeviceProfile, dc: DeviceCommand, maxCmdOps: int,
                     requests: map<string, RequestValue>, transform: bool)
    ensures dc.readWrite == ReadOnly ==>
      Driven(a, profile, dc, maxCmdOps, requests, transform) == Err(Edgex(NotAllowed))
    ensures dc.readWrite != ReadOnly && maxCmdOps > 0 && |dc.resourceOperations| > maxCmdOps ==>
      Driven(a, profile, dc, maxCmdOps, requests, transform) == Err(Edgex(ServerError))
  {
    hide Collect, CoerceAll, WriteAll;
  }

  // A single DeviceResource is one operation without mapping or default of its
  // own.
  function OnlyOperation(dr: DeviceResource): ResourceOperation { ResourceOperation(dr.name, "", []) }

  lemma ResourceDriven(a: Arithmetic, profile: DeviceProfile, dr: DeviceResource, requests: map<string, RequestValue>,
                       transform: bool)
    requires ResourceOf(profile, dr.name) == Some(dr)
    ensures dr.properties.readWrite == ReadOnly ==> DrivenResource(a, dr, requests, transform) == Err(Edgex(NotAllowed))
    ensures dr.properties.readWrite != ReadOnly ==>
      DrivenResource(a, dr, requests, transform) ==
        match Written(a, profile, OnlyOperation(dr), requests, transform)
        case Err(e) => Err(e)
        case Ok(param) => Ok([param])
  {
    hide WriteParameter, Coerce, OperationValue;
    assert OnlyOperation(dr).mappings == [];
    assert forall value :: Unmap(OnlyOperation(dr).mappings, value) == value;
  }

  // It succeeds like a command of that one operation.
  lemma ResourceOkIff(a: Arithmetic, profile: DeviceProfile, dr: DeviceResource, requests: map<string, RequestValue>,
                      transform: bool, driverFails: bool)
    requires ResourceOf(profile, dr.name) == Some(dr)
    ensures var op := OnlyOperation(dr);
      var driven := DrivenResource(a, dr, requests, transform);
      var result := Finished(a, profile, driven, driverFails, dr.properties.readWrite == WriteOnly, transform);
      && (result.Ok? <==>
        && dr.properties.readWrite != ReadOnly && Written(a, profile, op, requests, transform).Ok? && !driverFails
        && (dr.properties.readWrite == WriteOnly || ReadAfter(a, profile, op, requests, transform).Ok?))
      && (result.Ok? ==> (result.value.Some? <==> dr.properties.readWrite != WriteOnly))
      && (result.Ok? && result.value.Some? ==> |result.value.value| == 1)
      && (result.Ok? && result.value.Some? ==>
        ReadAfter(a, profile, op, requests, transform) == Ok(result.value.value[0]))
  {
    hide Published, Finished, ReadOne, Written, DrivenResource;
    var driven := DrivenResource(a, dr, requests, transform);
    ResourceDriven(a, profile, dr, requests, transform);
    FinishedIff(a, profile, driven, driverFails, dr.properties.readWrite == WriteOnly, transform);
    if driven.Ok? {
      PublishedIff(a, profile, driven.value, transform);
      assert ReadAfter(a, profile, OnlyOperation(dr), requests, transform) ==
        ReadOne(a, profile, driven.value[0], transform);
    }
  }
}
