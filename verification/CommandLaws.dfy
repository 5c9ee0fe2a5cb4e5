// What the write pipeline guarantees to the driver and to the subscribers of
// the published event.
module CommandLaws {
  import opened Wrappers
  import opened IntTypes
  import opened Models
  import opened Numerals
  import opened Profiles
  import opened Transform
  import opened TransformLaws
  import opened RoundTrip
  import opened Coercion
  import opened Commands

  // ---- The driver only sees values of the declared type ----

  lemma CheckedInType(f: real, n: int, t: IntType)
    ensures Checked(f, n, t).Number? ==> t.Contains(Checked(f, n, t).n)
  {
    TruncateBits(n, t);
  }

  lemma StagesInType(a: Arithmetic, v: int, p: ResourceProperties, read: bool, t: IntType)
    requires t.Contains(v)
    ensures OffsetStage(a, v, p, read, t).Number? ==> t.Contains(OffsetStage(a, v, p, read, t).n)
    ensures ScaleStage(a, v, p, read, t).Number? ==> t.Contains(ScaleStage(a, v, p, read, t).n)
    ensures BaseStage(a, v, p, read, t).Number? ==> t.Contains(BaseStage(a, v, p, read, t).n)
    ensures t.Contains(ShiftStage(v, p, read, t))
  {
    forall f, n ensures Checked(f, n, t).Number? ==> t.Contains(Checked(f, n, t).n) {
      CheckedInType(f, n, t);
    }
    forall s ensures t.Contains(TransformShift(v, s, t)) { ShiftInRange(v, s, t); }
  }

  // Every transformation parameter and every float behaviour: a write that
  // succeeds leaves a value of the type, for all eight types.
  lemma WriteValueInType(a: Arithmetic, v: int, p: ResourceProperties, t: IntType)
    requires t.Contains(v)
    ensures WriteValue(a, v, p, t).Number? ==> t.Contains(WriteValue(a, v, p, t).n)
  {
    StagesInType(a, v, p, false, t);
    var shifted := OffsetStage(a, v, p, false, t);
    if shifted.Number? {
      StagesInType(a, shifted.n, p, false, t);
      var scaled := ScaleStage(a, shifted.n, p, false, t);
      if scaled.Number? {
        StagesInType(a, scaled.n, p, false, t);
        var based := BaseStage(a, scaled.n, p, false, t);
        if based.Number? {
          StagesInType(a, based.n, p, false, t);
          MaskStageIs(ShiftStage(based.n, p, false, t), p, t);
          MaskedBits(ShiftStage(based.n, p, false, t), MaskOf(p, t), t);
        }
      }
    }
  }

  lemma WriteParameterInType(a: Arithmetic, p: ResourceProperties, param: Parameter, transform: bool)
    requires InType(param.value, param.valueType)
    ensures WriteParameter(a, p, param, transform).Ok? ==>
      var written := WriteParameter(a, p, param, transform).value;
      written.valueType == param.valueType && InType(written.value, written.valueType)
  {
    if Transformable(param.valueType, param.value) {
      WriteValueInType(a, param.value.n, p, param.valueType.t);
    }
  }

  lemma CoerceForInType(dr: DeviceResource, value: RequestValue)
    ensures CoerceFor(dr, value).Ok? ==>
      var param := CoerceFor(dr, value).value;
      param.name == dr.name && param.valueType == dr.properties.valueType && InType(param.value, param.valueType)
  {
  }

  // What the driver may see for an operation: the resource of the operation's
  // name, with a value of that resource's declared type.
  predicate Declared(profile: DeviceProfile, op: ResourceOperation, param: Parameter) {
    && ResourceOf(profile, op.deviceResource).Some?
    && param.name == op.deviceResource
    && param.valueType == ResourceOf(profile, op.deviceResource).value.properties.valueType
    && InType(param.value, param.valueType)
  }

  // A lookup by name finds a resource of that name.
  lemma CoercedResource(profile: DeviceProfile, op: ResourceOperation, param: Parameter,
                        requests: map<string, RequestValue>)
    requires CoerceOperation(profile, op, requests) == Ok(param)
    ensures ResourceOf(profile, op.deviceResource).Some?
    ensures var dr := ResourceOf(profile, op.deviceResource).value;
      && dr.name == param.name == op.deviceResource
      && param.valueType == dr.properties.valueType && InType(param.value, param.valueType)
  {
    hide Coerce;
    var dr := ResourceOf(profile, op.deviceResource).value;
    LookupHasName(NamedResources(profile), op.deviceResource);
    CoerceForInType(dr, Unmap(op.mappings, OperationValue(op, dr, requests).value));
  }

  lemma SentInType(a: Arithmetic, profile: DeviceProfile, op: ResourceOperation, param: Parameter,
                   requests: map<string, RequestValue>, transform: bool)
    requires CoerceOperation(profile, op, requests) == Ok(param)
    ensures WriteOne(a, profile, param, transform).Ok? ==>
      Declared(profile, op, WriteOne(a, profile, param, transform).value)
  {
    hide WriteValue;
    CoercedResource(profile, op, param, requests);
    WriteParameterInType(a, ResourceOf(profile, param.name).value.properties, param, transform);
  }

  // For a DeviceCommand, whatever the request, the defaults, the mappings and
  // the transformation parameters.
  lemma DriverSeesInType(a: Arithmetic, profile: DeviceProfile, dc: DeviceCommand, maxCmdOps: int,
                         requests: map<string, RequestValue>, transform: bool)
    requires Driven(a, profile, dc, maxCmdOps, requests, transform).Ok?
    ensures var sent := Driven(a, profile, dc, maxCmdOps, requests, transform).value;
      && |sent| == |dc.resourceOperations|
      && forall i :: 0 <= i < |sent| ==> Declared(profile, dc.resourceOperations[i], sent[i])
  {
    hide Declared, WriteOne, CoerceOperation;
    var ops := dc.resourceOperations;
    var coerced := CoerceAll(profile, ops, requests);
    CollectOk(coerced);
    var params := Collect(coerced).value;
    var written := WriteAll(a, profile, params, transform);
    CollectOk(written);
    forall i | 0 <= i < |ops| ensures Declared(profile, ops[i], Collect(written).value[i]) {
      SentInType(a, profile, ops[i], params[i], requests, transform);
      assert written[i] == WriteOne(a, profile, params[i], transform);
    }
  }

  // The same for a single DeviceResource.
  lemma DriverSeesResourceInType(a: Arithmetic, dr: DeviceResource, requests: map<string, RequestValue>,
                                 transform: bool)
    requires DrivenResource(a, dr, requests, transform).Ok?
    ensures var sent := DrivenResource(a, dr, requests, transform).value;
      && |sent| == 1 && sent[0].name == dr.name && sent[0].valueType == dr.properties.valueType
      && InType(sent[0].value, dr.properties.valueType)
  {
    var value := OperationValue(ResourceOperation(dr.name, "", []), dr, requests).value;
    CoerceForInType(dr, value);
    WriteParameterInType(a, dr.properties, CoerceFor(dr, value).value, transform);
  }

  // ---- The published event shows what the client asked for ----

  predicate Unmapped(profile: DeviceProfile, name: string) {
    OperationOf(profile, name).Some? ==> OperationOf(profile, name).value.mappings == []
  }

  function Shows(name: string, t: IntType, x: int): Reading {
    Reading(name, Integer(t), Some(Numerals.Str(x)))
  }

  // One parameter: after the write transformation succeeded, the reading of
  // the same object is the decimal text of the coerced value exactly when the
  // descaled value survives its bit field.
  lemma ShowsRequested(a: Arithmetic, profile: DeviceProfile, name: string, t: IntType, x: int)
    requires ResourceOf(profile, name).Some?
    requires var p := ResourceOf(profile, name).value.properties;
      Exact(a, p, t) && p.assertion == "" && WriteValue(a, x, p, t).Number?
    requires Unmapped(profile, name) && t.Contains(x)
    ensures var p := ResourceOf(profile, name).value.properties;
      var sent := Parameter(name, Integer(t), Int(WriteValue(a, x, p, t).n));
      && WriteOne(a, profile, Parameter(name, Integer(t), Int(x)), true) == Ok(sent)
      && ScaleOf(p) != 0
      && (ReadOne(a, profile, sent, true) == Ok(Shows(name, t, x)) <==> Survives(Quotient(x, p), p, t))
  {
    var p := ResourceOf(profile, name).value.properties;
    WriteThenRead(a, x, p, t);
    var w := WriteValue(a, x, p, t).n;
    var r := ReadValue(a, w, p, t);
    if r.Number? && r.n != x && Numerals.Str(r.n) == Numerals.Str(x) { StrInjective(r.n, x); }
  }

  // With the data transformation switched off the value is shown as it is.
  lemma ShowsUntransformed(a: Arithmetic, profile: DeviceProfile, name: string, t: IntType, x: int)
    requires ResourceOf(profile, name).Some? && ResourceOf(profile, name).value.properties.assertion == ""
    requires Unmapped(profile, name)
    ensures var param := Parameter(name, Integer(t), Int(x));
      && WriteOne(a, profile, param, false) == Ok(param)
      && ReadOne(a, profile, param, false) == Ok(Shows(name, t, x))
  {
  }

  // An integer resource whose reading must repeat the request.
  ghost predicate Faithfully(a: Arithmetic, profile: DeviceProfile, param: Parameter) {
    && param.valueType.Integer? && param.value.Int?
    && ResourceOf(profile, param.name).Some?
    && Unmapped(profile, param.name)
    && var p, t := ResourceOf(profile, param.name).value.properties, param.valueType.t;
      && p.assertion == "" && Exact(a, p, t) && ScaleOf(p) != 0
      && Survives(Quotient(param.value.n, p), p, t)
  }

  // The whole event of a successful write of such resources: one reading per
  // operation, each the decimal text of its coerced request value.
  lemma EventShowsRequest(a: Arithmetic, profile: DeviceProfile, dc: DeviceCommand, maxCmdOps: int,
                          requests: map<string, RequestValue>)
    requires dc.resourceOperations != []
    requires Driven(a, profile, dc, maxCmdOps, requests, true).Ok?
    requires var params := Collect(CoerceAll(profile, dc.resourceOperations, requests));
      params.Ok? && forall i :: 0 <= i < |params.value| ==> Faithfully(a, profile, params.value[i])
    ensures var params := Collect(CoerceAll(profile, dc.resourceOperations, requests)).value;
      var sent := Driven(a, profile, dc, maxCmdOps, requests, true).value;
      var event := Published(a, profile, sent, true);
      && event.Ok? && event.value.Some? && |event.value.value| == |dc.resourceOperations| == |params|
      && forall i :: 0 <= i < |params| ==>
        params[i].valueType.Integer? && params[i].value.Int? &&
        event.value.value[i] == Shows(params[i].name, params[i].valueType.t, params[i].value.n)
  {
    var ops := dc.resourceOperations;
    var coerced := CoerceAll(profile, ops, requests);
    CollectOk(coerced);
    var params := Collect(coerced).value;
    var written := WriteAll(a, profile, params, true);
    CollectOk(written);
    var sent := Collect(written).value;
    var all := ReadAll(a, profile, sent, true);
    forall i | 0 <= i < |ops|
      ensures all[i] == Ok(Shows(params[i].name, params[i].valueType.t, params[i].value.n))
    {
      assert Faithfully(a, profile, params[i]);
      assert coerced[i] == CoerceOperation(profile, ops[i], requests);
      assert written[i] == WriteOne(a, profile, params[i], true);
      OneShows(a, profile, ops[i], params[i], requests);
    }
    CollectOk(all);
  }

  lemma OneShows(a: Arithmetic, profile: DeviceProfile, op: ResourceOperation, param: Parameter,
                 requests: map<string, RequestValue>)
    requires CoerceOperation(profile, op, requests) == Ok(param)
    requires Faithfully(a, profile, param) && WriteOne(a, profile, param, true).Ok?
    ensures ReadOne(a, profile, WriteOne(a, profile, param, true).value, true) ==
      Ok(Shows(param.name, param.valueType.t, param.value.n))
  {
    var dr := ResourceOf(profile, op.deviceResource).value;
    CoerceForInType(dr, Unmap(op.mappings, OperationValue(op, dr, requests).value));
    ShowsRequested(a, profile, param.name, param.valueType.t, param.value.n);
  }

  // A number in the request, or its decimal text, is coerced to that number.
  lemma CoerceForNumber(dr: DeviceResource, value: RequestValue, t: IntType, x: int)
    requires dr.properties.valueType == Integer(t) && t.Contains(x) && value.AsText() == Numerals.Str(x)
    ensures CoerceFor(dr, value) == Ok(Parameter(dr.name, Integer(t), Int(x)))
  {
    CoerceOfStr(x, t);
  }

  lemma CollectOne<T>(results: seq<Result<T>>)
    requires |results| == 1
    ensures Collect(results) == match results[0] case Err(e) => Err(e) case Ok(v) => Ok([v])
  {
    var rest := results[1..];
    assert rest == [] && Collect(rest) == Ok([]);
    if results[0].Ok? {
      var none: seq<T> := [];
      assert [results[0].value] + none == [results[0].value];
    }
  }

  // From the request text to the event text: the client asks for x, the write
  // is accepted, and the event shows x exactly when x survives its bit field.
  lemma RequestedNumberShown(a: Arithmetic, profile: DeviceProfile, dr: DeviceResource, t: IntType, x: int,
                             requests: map<string, RequestValue>)
    requires ResourceOf(profile, dr.name) == Some(dr) && dr.properties.readWrite == ReadWrite
    requires dr.properties.valueType == Integer(t) && dr.properties.assertion == "" && Unmapped(profile, dr.name)
    requires Exact(a, dr.properties, t) && t.Contains(x) && WriteValue(a, x, dr.properties, t).Number?
    requires dr.name in requests && requests[dr.name].AsText() == Numerals.Str(x)
    ensures ScaleOf(dr.properties) != 0
    ensures var event := Finished(a, profile, DrivenResource(a, dr, requests, true), false, false, true);
      event == Ok(Some([Shows(dr.name, t, x)])) <==> Survives(Quotient(x, dr.properties), dr.properties, t)
  {
    CoerceForNumber(dr, requests[dr.name], t, x);
    ShowsRequested(a, profile, dr.name, t, x);
    var sent := Parameter(dr.name, Integer(t), Int(WriteValue(a, x, dr.properties, t).n));
    assert DrivenResource(a, dr, requests, true) == Ok([sent]);
    var all := ReadAll(a, profile, [sent], true);
    assert all[0] == ReadOne(a, profile, sent, true);
    CollectOne(all);
  }

  // ---- Mappings: the write direction inverts the read direction ----

  predicate DistinctMappingKeys(mappings: seq<(string, string)>) {
    forall i, j :: 0 <= i < j < |mappings| ==> mappings[i].0 != mappings[j].0
  }

  // A mapped text is turned into a key of that text, anything else is kept.
  lemma {:induction false} UnmapIs(mappings: seq<(string, string)>, value: RequestValue)
    ensures (exists i :: 0 <= i < |mappings| && value == RequestValue.Str(mappings[i].1)) ==>
      var key := Unmap(mappings, value);
      key.Str? && value.Str? && (key.s, value.s) in mappings
    ensures (forall i :: 0 <= i < |mappings| ==> value != RequestValue.Str(mappings[i].1)) ==>
      Unmap(mappings, value) == value
  {
    if mappings != [] && value != RequestValue.Str(mappings[0].1) {
      UnmapIs(mappings[1..], value);
      if i :| 0 <= i < |mappings| && value == RequestValue.Str(mappings[i].1) {
        assert mappings[1..][i - 1] == mappings[i];
      }
    }
  }

  lemma {:induction false} MappedFinds(mappings: seq<(string, string)>, key: string, text: string)
    requires DistinctMappingKeys(mappings) && (key, text) in mappings
    ensures Mapped(mappings, key) == Some(text)
  {
    if mappings[0] != (key, text) {
      var i :| 0 <= i < |mappings| && mappings[i] == (key, text);
      assert mappings[1..][i - 1] == (key, text);
      MappedFinds(mappings[1..], key, text);
    }
  }

  lemma {:induction false} MappedIsIn(mappings: seq<(string, string)>, key: string)
    ensures Mapped(mappings, key).Some? ==> (key, Mapped(mappings, key).value) in mappings
  {
    if mappings != [] && mappings[0].0 != key { MappedIsIn(mappings[1..], key); }
  }

  // The text stands for no other key, so that it identifies the value.
  predicate OnlyKey(mappings: seq<(string, string)>, text: string, key: string) {
    forall i :: 0 <= i < |mappings| && mappings[i].1 == text ==> mappings[i].0 == key
  }

  predicate Identifies(profile: DeviceProfile, name: string, text: string, x: int) {
    && text != "overflow"
    && (OperationOf(profile, name).Some? ==>
      OnlyKey(OperationOf(profile, name).value.mappings, text, Numerals.Str(x)))
  }

  // The operation that the read direction uses, the first one of the resource in
  // the profile, maps the value to the text.
  predicate ShownAs(profile: DeviceProfile, name: string, x: int, text: string) {
    OperationOf(profile, name).Some? && Mapped(OperationOf(profile, name).value.mappings, Numerals.Str(x)) == Some(text)
  }

  function TextReading(name: string, text: string): Reading { Reading(name, String, Some(text)) }

  lemma MappedNumberShown(profile: DeviceProfile, name: string, t: IntType, n: int, x: int, text: string)
    requires Identifies(profile, name, text, x)
    ensures ToReading(profile, "", Parameter(name, Integer(t), Int(n))) == Ok(TextReading(name, text)) <==>
      n == x && ShownAs(profile, name, x, text)
  {
    if OperationOf(profile, name).Some? {
      var mappings := OperationOf(profile, name).value.mappings;
      MappedIsIn(mappings, Numerals.Str(n));
      if n != x && Numerals.Str(n) == Numerals.Str(x) { StrInjective(n, x); }
    }
  }

  lemma OverflowIsNotShown(profile: DeviceProfile, name: string, x: int, text: string)
    requires Identifies(profile, name, text, x)
    ensures ToReading(profile, "", Parameter(name, String, Text("overflow"))) != Ok(TextReading(name, text))
  {
    StrEnds(x);
    if OperationOf(profile, name).Some? {
      MappedIsIn(OperationOf(profile, name).value.mappings, "overflow");
    }
  }

  // An operation whose resource is an integer of type t, requested as a text
  // that its mapping makes x.
  ghost predicate RequestsText(a: Arithmetic, profile: DeviceProfile, op: ResourceOperation,
                               requests: map<string, RequestValue>, t: IntType, x: int, text: string)
  {
    && ResourceOf(profile, op.deviceResource).Some?
    && var p := ResourceOf(profile, op.deviceResource).value.properties;
    && p.valueType == Integer(t) && p.assertion == "" && Exact(a, p, t) && t.Contains(x)
    && op.deviceResource in requests && requests[op.deviceResource] == RequestValue.Str(text)
    && Unmap(op.mappings, RequestValue.Str(text)) == RequestValue.Str(Numerals.Str(x))
    && Identifies(profile, op.deviceResource, text, x)
  }

  lemma RequestedText(a: Arithmetic, profile: DeviceProfile, op: ResourceOperation,
                      requests: map<string, RequestValue>, t: IntType, x: int, text: string)
    requires RequestsText(a, profile, op, requests, t, x, text)
    ensures CoerceOperation(profile, op, requests) == Ok(Parameter(op.deviceResource, Integer(t), Int(x)))
  {
    hide Coerce;
    var dr := ResourceOf(profile, op.deviceResource).value;
    LookupHasName(NamedResources(profile), op.deviceResource);
    CoerceForNumber(dr, RequestValue.Str(Numerals.Str(x)), t, x);
  }

  // From the mapped text of the request to the mapped text of the event: it is
  // shown exactly when the value survives its bit field and the operation that
  // reads maps it back.
  lemma MappedTextShown(a: Arithmetic, profile: DeviceProfile, op: ResourceOperation,
                        requests: map<string, RequestValue>, t: IntType, x: int, text: string)
    requires RequestsText(a, profile, op, requests, t, x, text)
    requires WriteOne(a, profile, Parameter(op.deviceResource, Integer(t), Int(x)), true).Ok?
    ensures var name, p := op.deviceResource, ResourceOf(profile, op.deviceResource).value.properties;
      var written := WriteOne(a, profile, Parameter(name, Integer(t), Int(x)), true).value;
      && ScaleOf(p) != 0
      && (ReadOne(a, profile, written, true) == Ok(TextReading(name, text)) <==>
        Survives(Quotient(x, p), p, t) && ShownAs(profile, name, x, text))
  {
    hide ToReading, Survives, Identifies, ShownAs, ReadValue, WriteValue, Faithful, Accurate, Linear;
    var name, p := op.deviceResource, ResourceOf(profile, op.deviceResource).value.properties;
    WriteThenRead(a, x, p, t);
    var w := WriteValue(a, x, p, t).n;
    WriteValueInType(a, x, p, t);
    ReadOutcome(a, w, p, t);
    var r := ReadValue(a, w, p, t);
    if r.Number? {
      MappedNumberShown(profile, name, t, r.n, x, text);
    } else {
      OverflowIsNotShown(profile, name, x, text);
    }
  }

  // In the event of a whole command, at the place of the operation.
  lemma MappedEventShows(a: Arithmetic, profile: DeviceProfile, dc: DeviceCommand, maxCmdOps: int,
                         requests: map<string, RequestValue>, i: nat, t: IntType, x: int, text: string)
    requires i < |dc.resourceOperations|
    requires RequestsText(a, profile, dc.resourceOperations[i], requests, t, x, text)
    requires var driven := Driven(a, profile, dc, maxCmdOps, requests, true);
      driven.Ok? && Published(a, profile, driven.value, true).Ok?
    ensures var name := dc.resourceOperations[i].deviceResource;
      var p := ResourceOf(profile, name).value.properties;
      var event := Published(a, profile, Driven(a, profile, dc, maxCmdOps, requests, true).value, true).value;
      && ScaleOf(p) != 0 && event.Some? && |event.value| == |dc.resourceOperations|
      && (event.value[i] == TextReading(name, text) <==>
        Survives(Quotient(x, p), p, t) && ShownAs(profile, name, x, text))
  {
    hide RequestsText, CoerceOperation, WriteOne, ReadOne, Survives, ShownAs;
    var op := dc.resourceOperations[i];
    var coerced := CoerceAll(profile, dc.resourceOperations, requests);
    CollectOk(coerced);
    var params := Collect(coerced).value;
    var written := WriteAll(a, profile, params, true);
    CollectOk(written);
    var sent := Collect(written).value;
    var all := ReadAll(a, profile, sent, true);
    CollectOk(all);
    assert coerced[i] == CoerceOperation(profile, op, requests);
    assert written[i] == WriteOne(a, profile, params[i], true);
    assert all[i] == ReadOne(a, profile, sent[i], true);
    RequestedText(a, profile, op, requests, t, x, text);
    MappedTextShown(a, profile, op, requests, t, x, text);
  }

  // When the command's own operation is the one that reads, it maps back.
  lemma OwnMappingShows(profile: DeviceProfile, op: ResourceOperation, x: int, text: string)
    requires OperationOf(profile, op.deviceResource) == Some(op) && DistinctMappingKeys(op.mappings)
    requires exists i :: 0 <= i < |op.mappings| && op.mappings[i].1 == text
    requires Unmap(op.mappings, RequestValue.Str(text)) == RequestValue.Str(Numerals.Str(x))
    ensures ShownAs(profile, op.deviceResource, x, text)
  {
    UnmapIs(op.mappings, RequestValue.Str(text));
    MappedFinds(op.mappings, Numerals.Str(x), text);
  }
}
