/** TVM stack values as JSON and back: what lite.runMethod prints, and how it reads its parameters. */
module StackValues {
  import opened Basics
  import opened Decimal

  /** A value on the stack. A cell is given by its base64 text, a slice by that of the cell it makes, if it
      makes one; NilValue is a typed nil pointer or a null tuple; Foreign is anything else, by its printed
      form. */
  datatype Value =
    | Null
    | NilValue
    | Integer(z: int)
    | CellValue(text: string)
    | SliceValue(cellText: Option<string>)
    | List(items: seq<Value>)
    | TupleValue(items: seq<Value>)
    | Foreign(text: string)

  /** The boc field of a parameter object. */
  datatype BocField = NoBoc | BadBase64 | BadBoc | Boc(text: string, parses: bool)

  datatype Json = JNull | JBool(b: bool) | JNumber(v: real) | JString(s: string) | JArray(items: seq<Json>) | JObject(kind: string, boc: BocField)

  // ---------------------------------------------------------------- to JSON

  function Serialized(v: Value): Json
    decreases v
  {
    match v
    case Null => JNull
    case NilValue => JNull
    case Integer(z) => JString(ToString(z))
    case CellValue(text) => JString(text)
    case SliceValue(cellText) => if cellText.Some? then JString(cellText.value) else JNull
    case List(items) => JArray(SerializedAll(items))
    case TupleValue(items) => JArray(SerializedAll(items))
    case Foreign(text) => JString(text)
  }

  function SerializedAll(items: seq<Value>): (r: seq<Json>)
    ensures |r| == |items| && forall i :: 0 <= i < |items| ==> r[i] == Serialized(items[i])
    decreases items
  {
    if items == [] then [] else SerializedAll(items[..|items| - 1]) + [Serialized(items[|items| - 1])]
  }

  /** serializeStackValue: a cell is printed as its text, a slice as that of its cell, nothing and null
      alike, anything foreign as it prints. */
  method SerializeStackValue(item: Value) returns (j: Json)
    ensures j == Serialized(item)
    ensures item.Null? || item.NilValue? || (item.SliceValue? && item.cellText.None?) ==> j == JNull
    ensures item.CellValue? || item.Foreign? ==> j == JString(item.text)
    ensures item.SliceValue? && item.cellText.Some? ==> j == JString(item.cellText.value)
    ensures item.List? || item.TupleValue? ==>
      j.JArray? && |j.items| == |item.items| && forall i :: 0 <= i < |item.items| ==> j.items[i] == Serialized(item.items[i])
    decreases item, 1
  {
    match item
    case Null => j := JNull;
    case NilValue => j := JNull;
    case Integer(z) => j := JString(ToString(z));
    case CellValue(text) => j := JString(text);
    case SliceValue(cellText) => j := if cellText.Some? then JString(cellText.value) else JNull;
    case List(items) =>
      var r := SerializeStack(items);
      j := JArray(r);
    case TupleValue(items) =>
      var r := SerializeTuple(item);
      j := JArray(r);
    case Foreign(text) => j := JString(text);
  }

  /** serializeStack */
  method SerializeStack(values: seq<Value>) returns (result: seq<Json>)
    ensures result == SerializedAll(values)
    decreases values, 0
  {
    result := [];
    for i := 0 to |values|
      invariant result == SerializedAll(values[..i])
    {
      assert values[..i + 1][..i] == values[..i];
      var j := SerializeStackValue(values[i]);
      result := result + [j];
    }
    assert values[..|values|] == values;
  }

  /** The loop of serializeTuple over a tuple that is not null. */
  method SerializeTuple(value: Value) returns (items: seq<Json>)
    requires value.TupleValue?
    ensures items == SerializedAll(value.items)
    decreases value, 0
  {
    items := [];
    for i := 0 to |value.items|
      invariant items == SerializedAll(value.items[..i])
    {
      assert value.items[..i + 1][..i] == value.items[..i];
      var j := SerializeStackValue(value.items[i]);
      items := items + [j];
    }
    assert value.items[..|value.items|] == value.items;
  }

  // ---------------------------------------------------------------- from JSON

  datatype ParamError = UnsafeNumber | NotDecimal | TupleItem(i: nat, error: ParamError) | MalformedObject | InvalidBoc | InvalidSlice | Unsupported

  const SAFE: real := 9007199254740992.0

  /** The largest magnitude at which every integer is a distinct JSON number is 2^53. */
  predicate SafeInteger(v: real) { v.Floor as real == v && -SAFE <= v <= SAFE }

  function Converted(j: Json): Result<Value, ParamError>
    decreases j
  {
    match j
    case JNull => Ok(Null)
    case JNumber(v) => if SafeInteger(v) then Ok(Integer(v.Floor)) else Err(UnsafeNumber)
    case JString(s) => if Parse(s).Some? then Ok(Integer(Parse(s).value)) else Err(NotDecimal)
    case JArray(items) =>
      var all := ConvertedAll(items);
      if all.Err? then Err(all.error) else Ok(List(all.value))
    case JObject(kind, boc) =>
      if boc.NoBoc? || (kind != "slice" && kind != "cell") then Err(MalformedObject)
      else if !boc.Boc? then Err(InvalidBoc)
      else if kind == "cell" then Ok(CellValue(boc.text))
      else if boc.parses then Ok(SliceValue(Some(boc.text))) else Err(InvalidSlice)
    case JBool(_) => Err(Unsupported)
  }

  /** The items up to the first that cannot be converted. */
  function ConvertedAll(items: seq<Json>): (r: Result<seq<Value>, ParamError>)
    ensures r.Ok? ==> |r.value| == |items| && forall i :: 0 <= i < |items| ==> Converted(items[i]) == Ok(r.value[i])
    ensures r.Err? ==>
      && r.error.TupleItem? && r.error.i < |items| && Converted(items[r.error.i]) == Err(r.error.error)
      && forall i :: 0 <= i < r.error.i ==> Converted(items[i]).Ok?
    decreases items
  {
    if items == [] then Ok([])
    else
      var front := ConvertedAll(items[..|items| - 1]);
      if front.Err? then front
      else
        var last := Converted(items[|items| - 1]);
        if last.Err? then Err(TupleItem(|items| - 1, last.error)) else Ok(front.value + [last.value])
  }

  /** convertRunMethodParam: a number must be a safe integer, a string decimal, an object a cell or a slice
      whose text decodes; an array fails at its first item that does. */
  method ConvertRunMethodParam(value: Json) returns (r: Result<Value, ParamError>)
    ensures r == Converted(value)
    ensures value.JNull? ==> r == Ok(Null)
    ensures value.JBool? ==> r == Err(Unsupported)
    ensures value.JNumber? ==>
      if value.v.Floor as real == value.v && -9007199254740992.0 <= value.v <= 9007199254740992.0
      then r == Ok(Integer(value.v.Floor)) else r == Err(UnsafeNumber)
    ensures value.JString? ==> r == if Parse(value.s).Some? then Ok(Integer(Parse(value.s).value)) else Err(NotDecimal)
    ensures value.JObject? ==>
      if value.boc.NoBoc? || value.kind !in {"cell", "slice"} then r == Err(MalformedObject)
      else if value.boc.BadBase64? || value.boc.BadBoc? then r == Err(InvalidBoc)
      else if value.kind == "cell" then r == Ok(CellValue(value.boc.text))
      else r == if value.boc.parses then Ok(SliceValue(Some(value.boc.text))) else Err(InvalidSlice)
    ensures value.JArray? && r.Ok? ==>
      r.value.List? && |r.value.items| == |value.items|
      && forall i :: 0 <= i < |value.items| ==> Converted(value.items[i]) == Ok(r.value.items[i])
    ensures value.JArray? && r.Err? ==>
      && r.error.TupleItem? && r.error.i < |value.items| && Converted(value.items[r.error.i]) == Err(r.error.error)
      && forall i :: 0 <= i < r.error.i ==> Converted(value.items[i]).Ok?
    decreases value
  {
    match value
    case JNull => r := Ok(Null);
    case JNumber(v) =>
      if v.Floor as real != v || v > SAFE || v < -SAFE {
        return Err(UnsafeNumber);
      }
      r := Ok(Integer(v.Floor));
    case JString(s) =>
      var bi := Parse(s);
      r := if bi.None? then Err(NotDecimal) else Ok(Integer(bi.value));
    case JArray(items) =>
      var out: seq<Value> := [];
      for i := 0 to |items|
        invariant ConvertedAll(items[..i]) == Ok(out)
      {
        assert items[..i + 1][..i] == items[..i];
        var item := ConvertRunMethodParam(items[i]);
        if item.Err? {
          FirstErrorStays(items, i + 1);
          return Err(TupleItem(i, item.error));
        }
        out := out + [item.value];
      }
      assert items[..|items|] == items;
      r := Ok(List(out));
    case JObject(kind, boc) =>
      if boc.NoBoc? || (kind != "slice" && kind != "cell") {
        return Err(MalformedObject);
      }
      if boc.BadBase64? {
        return Err(InvalidBoc);
      }
      if boc.BadBoc? {
        return Err(InvalidBoc);
      }
      if kind == "cell" {
        return Ok(CellValue(boc.text));
      }
      if !boc.parses {
        return Err(InvalidSlice);
      }
      r := Ok(SliceValue(Some(boc.text)));
    case JBool(_) => r := Err(Unsupported);
  }

  lemma {:induction false} FirstErrorStays(items: seq<Json>, k: nat)
    requires k <= |items| && ConvertedAll(items[..k]).Err?
    ensures ConvertedAll(items) == ConvertedAll(items[..k])
  {
    if k < |items| {
      assert items[..|items| - 1][..k] == items[..k];
      FirstErrorStays(items[..|items| - 1], k);
    } else {
      assert items[..k] == items;
    }
  }

  // ---------------------------------------------------------------- round trip

  /** The value with tuples and typed nils in the form that parameters have. */
  function Plain(v: Value): Value
    decreases v
  {
    match v
    case NilValue => Null
    case List(items) => List(PlainAll(items))
    case TupleValue(items) => List(PlainAll(items))
    case _ => v
  }

  function PlainAll(items: seq<Value>): (r: seq<Value>)
    ensures |r| == |items|
    decreases items
  {
    if items == [] then [] else PlainAll(items[..|items| - 1]) + [Plain(items[|items| - 1])]
  }

  /** Nulls, integers and tuples of such, to any depth. */
  predicate Data(v: Value)
    decreases v
  {
    match v
    case Null => true
    case NilValue => true
    case Integer(_) => true
    case List(items) => DataAll(items)
    case TupleValue(items) => DataAll(items)
    case _ => false
  }

  predicate DataAll(items: seq<Value>)
    decreases items
  {
    items == [] || (DataAll(items[..|items| - 1]) && Data(items[|items| - 1]))
  }

  /** A result that is fed back as a parameter is the same value, integers of any size included, exactly if
      it is made of nulls, integers and tuples: cells and slices lose their type in print. */
  lemma {:induction false} RoundTripExactly(v: Value)
    ensures Converted(Serialized(v)) == Ok(Plain(v)) <==> Data(v)
    decreases v, 0
  {
    match v
    case Integer(z) => ParseOfToString(z);
    case List(items) => RoundTripAll(items);
    case TupleValue(items) => RoundTripAll(items);
    case _ =>
  }

  lemma {:induction false} RoundTripAll(items: seq<Value>)
    ensures ConvertedAll(SerializedAll(items)) == Ok(PlainAll(items)) <==> DataAll(items)
    decreases items, 1
  {
    if items != [] {
      var front, last := items[..|items| - 1], items[|items| - 1];
      RoundTripAll(front);
      RoundTripExactly(last);
      assert SerializedAll(items)[..|items| - 1] == SerializedAll(front);
      var r := ConvertedAll(SerializedAll(front));
      if r.Ok? && Converted(Serialized(last)).Ok? {
        assert (r.value + [Converted(Serialized(last)).value])[..|items| - 1] == r.value;
        assert PlainAll(items)[..|items| - 1] == PlainAll(front);
      }
    }
  }

  /** A JSON number and the decimal string of the same integer mean the same parameter, when the number is
      accepted at all. */
  lemma NumberAsString(z: int)
    ensures Converted(JString(ToString(z))) == Ok(Integer(z))
    ensures Converted(JNumber(z as real)) == if -0x20_0000_0000_0000 <= z <= 0x20_0000_0000_0000 then Ok(Integer(z)) else Err(UnsafeNumber)
  {
    ParseOfToString(z);
  }
}
