// When a write command ends with an exception that is no EdgexError, which the
// callers of command.py do not handle.
module Escapes {
  import opened Wrappers
  import opened IntTypes
  import opened Models
  import opened Profiles
  import opened Transform
  import Numerals
  import opened Coercion
  import opened Commands
  import opened CommandLaws

  // ---- One value ----

  predicate HasBase(p: ResourceProperties) { p.base.Some? && p.base.value != 0.0 }

  predicate LogarithmFails(a: Arithmetic, n: int, p: ResourceProperties) {
    HasBase(p) && Logarithm(a, ToFloat(a, n), p.base.value).Failed?
  }

  // The write reaches a division by a zero scale, or a logarithm without value.
  predicate WriteRaises(a: Arithmetic, v: int, p: ResourceProperties, t: IntType) {
    WithinLimits(v, p) &&
    var shifted := OffsetStage(a, v, p, false, t);
    shifted.Number? &&
    (p.scale == Some(0.0) ||
      var scaled := ScaleStage(a, shifted.n, p, false, t);
      scaled.Number? && LogarithmFails(a, scaled.n, p))
  }

  lemma WriteRaisesIff(a: Arithmetic, v: int, p: ResourceProperties, t: IntType)
    ensures WriteValue(a, v, p, t) == Raised <==> WriteRaises(a, v, p, t)
    ensures !HasBase(p) ==>
      (WriteValue(a, v, p, t) == Raised <==>
        p.scale == Some(0.0) && WithinLimits(v, p) && OffsetStage(a, v, p, false, t).Number?)
  {
    hide MaskStage, ShiftStage;
  }

  // The read reaches a power without value.
  predicate ReadRaises(a: Arithmetic, v: int, p: ResourceProperties, t: IntType) {
    HasBase(p) && Power(a, p.base.value, ToFloat(a, ShiftStage(MaskStage(v, p, t), p, true, t))).Failed?
  }

  lemma ReadRaisesIff(a: Arithmetic, v: int, p: ResourceProperties, t: IntType)
    ensures ReadValue(a, v, p, t) == Raised <==> ReadRaises(a, v, p, t)
  {
    hide MaskStage, ShiftStage;
  }

  // ---- One parameter ----

  predicate ParameterRaises(a: Arithmetic, p: ResourceProperties, param: Parameter, transform: bool) {
    transform && Transformable(param.valueType, param.value) && WriteRaises(a, param.value.n, p, param.valueType.t)
  }

  lemma ParameterEscapes(a: Arithmetic, p: ResourceProperties, param: Parameter, transform: bool)
    ensures WriteParameter(a, p, param, transform) == Err(Escaped) <==> ParameterRaises(a, p, param, transform)
  {
    hide WriteValue, WriteRaises;
    if Transformable(param.valueType, param.value) {
      WriteRaisesIff(a, param.value.n, p, param.valueType.t);
    }
  }

  // A value whose resource is not in the profile escapes on a write and is an
  // EdgexError on a read.
  predicate WriteOneRaises(a: Arithmetic, profile: DeviceProfile, param: Parameter, transform: bool) {
    match ResourceOf(profile, param.name)
    case None => true
    case Some(dr) => ParameterRaises(a, dr.properties, param, transform)
  }

  predicate ReadOneRaises(a: Arithmetic, profile: DeviceProfile, param: Parameter, transform: bool) {
    match ResourceOf(profile, param.name)
    case None => false
    case Some(dr) =>
      transform && Transformable(param.valueType, param.value) &&
      ReadRaises(a, param.value.n, dr.properties, param.valueType.t)
  }

  lemma OneEscapes(a: Arithmetic, profile: DeviceProfile, param: Parameter, transform: bool)
    ensures WriteOne(a, profile, param, transform) == Err(Escaped) <==> WriteOneRaises(a, profile, param, transform)
    ensures ReadOne(a, profile, param, transform) == Err(Escaped) <==> ReadOneRaises(a, profile, param, transform)
  {
    hide WriteParameter, ParameterRaises, ReadValue, ReadRaises;
    if ResourceOf(profile, param.name).Some? {
      var p := ResourceOf(profile, param.name).value.properties;
      ParameterEscapes(a, p, param, transform);
      if Transformable(param.valueType, param.value) { ReadRaisesIff(a, param.value.n, p, param.valueType.t); }
    }
  }

  // ---- Lists ----

  predicate EscapesAt<T>(results: seq<Result<T>>, i: nat)
    requires i < |results|
  {
    && results[i].Err? && results[i].error == Escaped
    && forall j :: 0 <= j < i ==> results[j].Ok?
  }

  lemma {:induction false} CollectEscapes<T>(results: seq<Result<T>>)
    ensures Collect(results).Err? && Collect(results).error == Escaped <==>
      exists i :: 0 <= i < |results| && EscapesAt(results, i)
  {
    CollectOk(results);
    if i :| 0 <= i < |results| && EscapesAt(results, i) { CollectErr(results, i); }
    if Collect(results).Err? {
      var k := FirstError(results);
      CollectErr(results, k);
      if results[k].error == Escaped { assert EscapesAt(results, k); }
    }
  }

  lemma {:induction false} FirstError<T>(results: seq<Result<T>>) returns (k: nat)
    requires exists i :: 0 <= i < |results| && results[i].Err?
    ensures k < |results| && results[k].Err? && forall j :: 0 <= j < k ==> results[j].Ok?
  {
    k := 0;
    while results[k].Ok?
      invariant k < |results| && forall j :: 0 <= j < k ==> results[j].Ok?
      decreases |results| - k
    {
      k := k + 1;
    }
  }

  // ---- Whole commands ----

  predicate WriteRaisesAt(a: Arithmetic, profile: DeviceProfile, params: seq<Parameter>, transform: bool, i: nat)
    requires i < |params|
  {
    && WriteOneRaises(a, profile, params[i], transform)
    && forall j :: 0 <= j < i ==> WriteOne(a, profile, params[j], transform).Ok?
  }

  predicate ReadRaisesAt(a: Arithmetic, profile: DeviceProfile, params: seq<Parameter>, transform: bool, i: nat)
    requires i < |params|
  {
    && ReadOneRaises(a, profile, params[i], transform)
    && forall j :: 0 <= j < i ==> ReadOne(a, profile, params[j], transform).Ok?
  }

  lemma WritesEscape(a: Arithmetic, profile: DeviceProfile, params: seq<Parameter>, transform: bool)
    ensures Collect(WriteAll(a, profile, params, transform)) == Err(Escaped) <==>
      exists i :: 0 <= i < |params| && WriteRaisesAt(a, profile, params, transform, i)
  {
    hide WriteOne, WriteOneRaises;
    var all := WriteAll(a, profile, params, transform);
    CollectEscapes(all);
    forall i | 0 <= i < |params| ensures EscapesAt(all, i) <==> WriteRaisesAt(a, profile, params, transform, i) {
      OneEscapes(a, profile, params[i], transform);
      assert forall j :: 0 <= j < i ==> all[j] == WriteOne(a, profile, params[j], transform);
    }
  }

  lemma ReadsEscape(a: Arithmetic, profile: DeviceProfile, params: seq<Parameter>, transform: bool)
    ensures Published(a, profile, params, transform) == Err(Escaped) <==>
      exists i :: 0 <= i < |params| && ReadRaisesAt(a, profile, params, transform, i)
  {
    hide ReadOne, ReadOneRaises;
    var all := ReadAll(a, profile, params, transform);
    CollectEscapes(all);
    forall i | 0 <= i < |params| ensures EscapesAt(all, i) <==> ReadRaisesAt(a, profile, params, transform, i) {
      OneEscapes(a, profile, params[i], transform);
      assert forall j :: 0 <= j < i ==> all[j] == ReadOne(a, profile, params[j], transform);
    }
  }

  lemma FinishedEscapes(a: Arithmetic, profile: DeviceProfile, driven: Result<seq<Parameter>>, driverFails: bool,
                        writeOnly: bool, transform: bool)
    ensures Finished(a, profile, driven, driverFails, writeOnly, transform) == Err(Escaped) <==>
      || driven == Err(Escaped)
      || (driven.Ok? && !driverFails && !writeOnly &&
        exists i :: 0 <= i < |driven.value| && ReadRaisesAt(a, profile, driven.value, transform, i))
  {
    hide Published, ReadRaisesAt;
    if driven.Ok? { ReadsEscape(a, profile, driven.value, transform); }
  }

  // Coercion errors are EdgexErrors, and every coerced value has its resource.
  lemma CoercedNeverEscapes(profile: DeviceProfile, ops: seq<ResourceOperation>, requests: map<string, RequestValue>)
    ensures Collect(CoerceAll(profile, ops, requests)) != Err(Escaped)
    ensures var coerced := Collect(CoerceAll(profile, ops, requests));
      coerced.Ok? ==> forall i :: 0 <= i < |coerced.value| ==> ResourceOf(profile, coerced.value[i].name).Some?
  {
    hide Coerce;
    var all := CoerceAll(profile, ops, requests);
    CollectEscapes(all);
    CollectOk(all);
    forall i | 0 <= i < |all|
      ensures all[i] != Err(Escaped)
      ensures all[i].Ok? ==> ResourceOf(profile, all[i].value.name).Some?
    {
      assert all[i] == CoerceOperation(profile, ops[i], requests);
      if all[i].Ok? { CoercedResource(profile, ops[i], all[i].value, requests); }
    }
  }

  // A DeviceCommand hands out an unhandled exception exactly when, in order, a
  // write transformation divides by zero or has no logarithm, or the driver has
  // succeeded and a read transformation has no power.
  lemma CommandEscapes(a: Arithmetic, profile: DeviceProfile, dc: DeviceCommand, maxCmdOps: int,
                       requests: map<string, RequestValue>, transform: bool, driverFails: bool)
    ensures var coerced := Collect(CoerceAll(profile, dc.resourceOperations, requests));
      var driven := Driven(a, profile, dc, maxCmdOps, requests, transform);
      Finished(a, profile, driven, driverFails, dc.readWrite == WriteOnly, transform) == Err(Escaped) <==>
        || (dc.readWrite != ReadOnly && !(0 < maxCmdOps < |dc.resourceOperations|) && coerced.Ok? &&
          exists i :: 0 <= i < |coerced.value| && WriteRaisesAt(a, profile, coerced.value, transform, i))
        || (driven.Ok? && !driverFails && dc.readWrite != WriteOnly &&
          exists i :: 0 <= i < |driven.value| && ReadRaisesAt(a, profile, driven.value, transform, i))
  {
    hide WriteRaisesAt, ReadRaisesAt, Finished;
    CoercedNeverEscapes(profile, dc.resourceOperations, requests);
    var coerced := Collect(CoerceAll(profile, dc.resourceOperations, requests));
    if coerced.Ok? { WritesEscape(a, profile, coerced.value, transform); }
    FinishedEscapes(a, profile, Driven(a, profile, dc, maxCmdOps, requests, transform), driverFails,
      dc.readWrite == WriteOnly, transform);
  }

  function ResourceValue(dr: DeviceResource, requests: map<string, RequestValue>): Option<RequestValue> {
    OperationValue(ResourceOperation(dr.name, "", []), dr, requests)
  }

  // The same for a single DeviceResource.
  lemma ResourceEscapes(a: Arithmetic, profile: DeviceProfile, dr: DeviceResource, requests: map<string, RequestValue>,
                        transform: bool, driverFails: bool)
    ensures var value := ResourceValue(dr, requests);
      var driven := DrivenResource(a, dr, requests, transform);
      Finished(a, profile, driven, driverFails, dr.properties.readWrite == WriteOnly, transform) == Err(Escaped) <==>
        || (dr.properties.readWrite != ReadOnly && value.Some? && CoerceFor(dr, value.value).Ok? &&
          ParameterRaises(a, dr.properties, CoerceFor(dr, value.value).value, transform))
        || (driven.Ok? && !driverFails && dr.properties.readWrite != WriteOnly &&
          exists i :: 0 <= i < |driven.value| && ReadRaisesAt(a, profile, driven.value, transform, i))
  {
    hide WriteParameter, ParameterRaises, ReadRaisesAt, Finished, Coerce;
    var value := ResourceValue(dr, requests);
    if value.Some? && CoerceFor(dr, value.value).Ok? {
      ParameterEscapes(a, dr.properties, CoerceFor(dr, value.value).value, transform);
    }
    FinishedEscapes(a, profile, DrivenResource(a, dr, requests, transform), driverFails,
      dr.properties.readWrite == WriteOnly, transform);
  }

  // A scale of zero, whatever the number asked for and whatever the driver.
  lemma ZeroScaleEscapes(a: Arithmetic, profile: DeviceProfile, dr: DeviceResource, t: IntType, x: int,
                         requests: map<string, RequestValue>, driverFails: bool)
    requires dr.properties.readWrite != ReadOnly && dr.properties.valueType == Integer(t) && t.Contains(x)
    requires dr.properties.scale == Some(0.0) && dr.properties.offset == None
    requires dr.properties.minimum == None && dr.properties.maximum == None
    requires dr.name in requests && requests[dr.name].AsText() == Numerals.Str(x)
    ensures Finished(a, profile, DrivenResource(a, dr, requests, true), driverFails,
      dr.properties.readWrite == WriteOnly, true) == Err(Escaped)
  {
    hide Finished, DrivenResource, ReadRaisesAt;
    CoerceForNumber(dr, requests[dr.name], t, x);
    ResourceEscapes(a, profile, dr, requests, true, driverFails);
  }
}
