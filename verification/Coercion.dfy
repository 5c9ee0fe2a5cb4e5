// The coercion of request values to the declared value type (command.py).
module Coercion {
  import opened Wrappers
  import opened IntTypes
  import opened Models
  import opened Numerals

  // `_parse_uint` and `_parse_int`: the two range checks are the range of the
  // type. None is the conversion error.
  function ParseInteger(text: string, t: IntType): (r: Option<int>) {
    match ParseInt(text)
    case None => None
    case Some(n) => if t.Contains(n) then Some(n) else None
  }

  function ParseBool(text: string): Option<bool> {
    if text in ["1", "t", "T", "TRUE", "true", "True"] then Some(true)
    else if text in ["0", "f", "F", "FALSE", "false", "False"] then Some(false)
    else None
  }

  // The scalar cases of `create_command_value_from_device_resource` on the text
  // of a request value; None is an EdgexError.
  function Coerce(text: string, valueType: ValueType): Option<Value> {
    if valueType != String && Trim(text, WHITESPACE) == "" then None
    else
      match valueType
      case String => Some(Text(text))
      case Bool => (match ParseBool(text) case None => None case Some(b) => Some(Truth(b)))
      case Integer(t) => (match ParseInteger(text, t) case None => None case Some(n) => Some(Int(n)))
  }

  // A value that a driver may see for the type.
  predicate InType(value: Value, valueType: ValueType) {
    match valueType
    case String => value.Text?
    case Bool => value.Truth?
    case Integer(t) => value.Int? && t.Contains(value.n)
  }

  lemma CoerceInType(text: string, valueType: ValueType)
    ensures Coerce(text, valueType).Some? ==> InType(Coerce(text, valueType).value, valueType)
  {
  }

  // An integer is what `int` parses, if that is of the type; blank text is only
  // a string.
  lemma CoercedIntegers(text: string, t: IntType, n: int)
    ensures Coerce(text, Integer(t)) == Some(Int(n)) <==> ParseInt(text) == Some(n) && t.Contains(n)
    ensures Trim(text, WHITESPACE) == "" ==> Coerce(text, Integer(t)) == None && Coerce(text, Bool) == None
    ensures Coerce(text, String) == Some(Text(text))
  {
  }

  // An integer of the type is coerced from its own text.
  lemma CoerceOfStr(n: int, t: IntType)
    requires t.Contains(n)
    ensures Coerce(Str(n), Integer(t)) == Some(Int(n))
  {
    ParseIntOfStr(n);
    StrEnds(n);
    DigitIsNotSpace(Str(n)[0]);
    DigitIsNotSpace(Str(n)[|Str(n)| - 1]);
    TrimNothing(Str(n), WHITESPACE);
  }

  // ---- Unsigned arrays ----

  function ParseFields(fields: seq<string>, t: IntType): Option<seq<int>> {
    if fields == [] then Some([])
    else
      match ParseFields(fields[..|fields| - 1], t)
      case None => None
      case Some(ns) =>
        match ParseInteger(Trim(fields[|fields| - 1], {' '}), t)
        case None => None
        case Some(n) => Some(ns + [n])
  }

  function ArrayFields(text: string): seq<string> {
    Split(Trim(text, {'[', ']'}))
  }

  // `_parse_uint_array`
  method ParseUintArray(text: string, t: IntType) returns (result: Option<seq<int>>)
    ensures result == ParseFields(ArrayFields(text), t)
  {
    var fields := ArrayFields(text);
    var ns: seq<int> := [];
    assert fields[..0] == [];
    for i := 0 to |fields|
      invariant ParseFields(fields[..i], t) == Some(ns)
    {
      assert fields[..i + 1][..i] == fields[..i];
      var item := ParseInteger(Trim(fields[i], {' '}), t);
      if item.None? {
        FailedPrefix(fields, i + 1, t);
        return None;
      }
      ns := ns + [item.value];
    }
    assert fields[..|fields|] == fields;
    return Some(ns);
  }

  lemma {:induction false} FailedPrefix(fields: seq<string>, k: nat, t: IntType)
    requires k <= |fields| && ParseFields(fields[..k], t) == None
    ensures ParseFields(fields, t) == None
  {
    if k == |fields| {
      assert fields[..k] == fields;
    } else {
      assert fields[..|fields| - 1][..k] == fields[..k];
      FailedPrefix(fields[..|fields| - 1], k, t);
    }
  }

  // Acceptance, element by element.
  lemma {:induction false} ParseFieldsElements(fields: seq<string>, t: IntType)
    ensures ParseFields(fields, t).Some? <==>
      forall i :: 0 <= i < |fields| ==> ParseInteger(Trim(fields[i], {' '}), t).Some?
    ensures ParseFields(fields, t).Some? ==>
      && |ParseFields(fields, t).value| == |fields|
      && forall i :: 0 <= i < |fields| ==>
        ParseInteger(Trim(fields[i], {' '}), t) == Some(ParseFields(fields, t).value[i])
  {
    if fields != [] { ParseFieldsElements(fields[..|fields| - 1], t); }
  }

  // Whatever text is accepted has one element of the type per comma-separated
  // field.
  lemma AcceptedArray(text: string, t: IntType)
    requires ParseFields(ArrayFields(text), t).Some?
    ensures var ns := ParseFields(ArrayFields(text), t).value;
      |ns| == Commas(Trim(text, {'[', ']'})) + 1 && forall i :: 0 <= i < |ns| ==> t.Contains(ns[i])
  {
    ParseFieldsElements(ArrayFields(text), t);
    SplitCount(Trim(text, {'[', ']'}));
  }

  // Parsing undoes printing for every nonempty list of naturals of the type.
  lemma ArrayRoundTrip(xs: seq<nat>, t: IntType)
    requires xs != [] && forall i :: 0 <= i < |xs| ==> t.Contains(xs[i])
    ensures ParseFields(ArrayFields(ListText(xs)), t) == Some(xs)
  {
    BracketsTrimmed(xs);
    SplitList("", xs);
    var fields := Split(ListBody(xs));
    assert "" + ListBody(xs) == ListBody(xs);
    forall i | 0 <= i < |fields|
      ensures ParseInteger(Trim(fields[i], {' '}), t) == Some(xs[i])
    {
      ListFieldAt("", xs, i);
      FieldTrimmed(if i == 0 then "" else " ", xs[i]);
      ParseIntOfStr(xs[i]);
    }
    ParseFieldsElements(fields, t);
    assert ParseFields(fields, t).value == xs;
  }

  // The empty list is the exception: its text is one empty field.
  lemma EmptyArrayRejected(t: IntType)
    ensures ParseFields(ArrayFields(ListText([])), t) == None
  {
  }
}
