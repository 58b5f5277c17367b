/** JSON query parameters, converted to SQLite values by two copies of the same code in two crates, each with its own
    base64 decoder. */
module JsonParams {
  import opened Wrappers
  import opened Text
  import opened Base64

  const I64_MIN: int := -0x8000_0000_0000_0000
  const I64_MAX: int := 0x7FFF_FFFF_FFFF_FFFF
  const U64_MAX: int := 0xFFFF_FFFF_FFFF_FFFF

  /** The three representations of a parsed JSON number. JSON has no infinities, so a real number stands for a double. */
  datatype Number = PosInt(natural: nat) | NegInt(negative: int) | Float(double: real) {
    predicate Valid() {
      match this
      case PosInt(n) => n <= U64_MAX
      case NegInt(n) => I64_MIN <= n < 0
      case Float(_) => true
    }

    function AsI64(): Option<int> {
      match this
      case PosInt(n) => if n <= I64_MAX then Some(n) else None
      case NegInt(n) => Some(n)
      case Float(_) => None
    }

    function AsU64(): Option<nat> {
      if PosInt? then Some(natural) else None
    }

    function AsF64(): Option<real> {
      match this
      case PosInt(n) => Some(n as real)
      case NegInt(n) => Some(n as real)
      case Float(x) => Some(x)
    }
  }

  datatype Json =
    | Null
    | Bool(truth: bool)
    | Number(number: Number)
    | String(text: string)
    | Array(items: seq<Json>)
    | Object(fields: map<string, Json>)

  datatype SqliteValue =
    | SqlNull
    | SqlBool(truth: bool)
    | Int64(integer: int)
    | Float64(double: real)
    | SqlString(text: string)
    | Bytes(data: seq<byte>)

  datatype ParamError =
    | IntegerTooLarge
    | UnsupportedNumber
    | NotAWrapper
    | WrongWrapperType
    | NotScalar
    | BadBase64(error: DecodeError)

  type Converted = Result<SqliteValue, ParamError>

  type ConvertedList = Result<seq<SqliteValue>, ParamError>

  const TYPE_NAME := "bytes_base64"

  // ----- the wrapper object

  datatype Wrapper = Wrapper(typeName: string, dunderType: string, base64: string)

  /** A field that may be missing, but may not hold anything other than a string. */
  function OptionalText(fields: map<string, Json>, key: string): Option<string> {
    if key !in fields then Some("") else if fields[key].String? then Some(fields[key].text) else None
  }

  /** Deserialising an object into a wrapper: unknown fields are ignored. */
  function ReadWrapper(fields: map<string, Json>): Option<Wrapper> {
    var t, d := OptionalText(fields, "type"), OptionalText(fields, "__type");
    if t.None? || d.None? || "base64" !in fields || !fields["base64"].String? then None
    else Some(Wrapper(t.value, d.value, fields["base64"].text))
  }

  function WrapperType(w: Wrapper): string {
    if Trim(w.typeName) != "" then Trim(w.typeName) else Trim(w.dunderType)
  }

  // ----- text as bytes

  function Utf8Char(c: char): seq<byte> {
    var n := c as int;
    if n < 0x80 then [n as byte]
    else if n < 0x800 then [(0xC0 + n / 0x40) as byte, (0x80 + n % 0x40) as byte]
    else if n < 0x10000 then [(0xE0 + n / 0x1000) as byte, (0x80 + n / 0x40 % 0x40) as byte, (0x80 + n % 0x40) as byte]
    else [(0xF0 + n / 0x40000) as byte, (0x80 + n / 0x1000 % 0x40) as byte, (0x80 + n / 0x40 % 0x40) as byte,
          (0x80 + n % 0x40) as byte]
  }

  function Utf8(s: string): seq<byte> {
    if s == "" then [] else Utf8Char(s[0]) + Utf8(s[1..])
  }

  // ----- what the conversion means

  function NumberValue(n: Number): Converted {
    match n
    case PosInt(v) => if v <= I64_MAX then Ok(Int64(v)) else Err(IntegerTooLarge)
    case NegInt(v) => Ok(Int64(v))
    case Float(x) => Ok(Float64(x))
  }

  function ObjectValue(fields: map<string, Json>): Converted {
    match ReadWrapper(fields)
    case None => Err(NotAWrapper)
    case Some(w) =>
      if WrapperType(w) != TYPE_NAME then Err(WrongWrapperType)
      else match Decode(Utf8(w.base64)) case Err(e) => Err(BadBase64(e)) case Ok(data) => Ok(Bytes(data))
  }

  function ToValue(json: Json): Converted {
    match json
    case Null => Ok(SqlNull)
    case Bool(b) => Ok(SqlBool(b))
    case Number(n) => NumberValue(n)
    case String(s) => Ok(SqlString(s))
    case Array(_) => Err(NotScalar)
    case Object(fields) => ObjectValue(fields)
  }

  function ToValues(items: seq<Json>): ConvertedList {
    if items == [] then Ok([])
    else
      match ToValue(items[0])
      case Err(e) => Err(e)
      case Ok(v) => (match ToValues(items[1..]) case Err(e) => Err(e) case Ok(vs) => Ok([v] + vs))
  }

  // ----- the code

  /** The number branch is the same text in both crates. */
  method ConvertNumber(n: Number) returns (r: Converted)
    ensures r == NumberValue(n)
  {
    if n.AsI64().Some? {
      return Ok(Int64(n.AsI64().value));
    } else if n.AsU64().Some? {
      var v := n.AsU64().value;
      return if v <= I64_MAX then Ok(Int64(v)) else Err(IntegerTooLarge);
    } else if n.AsF64().Some? {
      return Ok(Float64(n.AsF64().value));
    } else {
      return Err(UnsupportedNumber);
    }
  }

  method ConvertSdk(json: Json) returns (r: Converted)
    ensures r == ToValue(json)
  {
    match json
    case Null => return Ok(SqlNull);
    case Bool(b) => return Ok(SqlBool(b));
    case Number(n) => r := ConvertNumber(n);
    case String(s) => return Ok(SqlString(s));
    case Object(fields) =>
      var wrapper := ReadWrapper(fields);
      if wrapper.None? {
        return Err(NotAWrapper);
      }
      var w := wrapper.value;
      var wrapperType := if Trim(w.typeName) != "" then Trim(w.typeName) else Trim(w.dunderType);
      if wrapperType != TYPE_NAME {
        return Err(WrongWrapperType);
      }
      var data := DecodeSdk(Utf8(w.base64));
      if data.Err? {
        return Err(BadBase64(data.error));
      }
      return Ok(Bytes(data.value));
    case Array(_) => return Err(NotScalar);
  }

  method ConvertFfi(json: Json) returns (r: Converted)
    ensures r == ToValue(json)
  {
    match json
    case Null => return Ok(SqlNull);
    case Bool(b) => return Ok(SqlBool(b));
    case Number(n) => r := ConvertNumber(n);
    case String(s) => return Ok(SqlString(s));
    case Object(fields) =>
      var wrapper := ReadWrapper(fields);
      if wrapper.None? {
        return Err(NotAWrapper);
      }
      var w := wrapper.value;
      var wrapperType := if Trim(w.typeName) != "" then Trim(w.typeName) else Trim(w.dunderType);
      if wrapperType != TYPE_NAME {
        return Err(WrongWrapperType);
      }
      var data := DecodeFfi(Utf8(w.base64));
      if data.Err? {
        return Err(BadBase64(data.error));
      }
      return Ok(Bytes(data.value));
    case Array(_) => return Err(NotScalar);
  }

  lemma {:induction false} ToValuesSnoc(items: seq<Json>, last: Json)
    ensures ToValues(items + [last])
            == if ToValues(items).Err? then ToValues(items)
               else if ToValue(last).Err? then Err(ToValue(last).error)
               else Ok(ToValues(items).value + [ToValue(last).value])
  {
    hide ToValue;
    if items == [] {
      assert items + [last] == [last] && [last][1..] == [];
      if ToValue(last).Ok? {
        var w := [ToValue(last).value];
        assert w + [] == [] + w == w;
        assert ToValues([last][1..]) == Ok([]);
      }
    } else {
      assert (items + [last])[0] == items[0] && (items + [last])[1..] == items[1..] + [last];
      ToValuesSnoc(items[1..], last);
      if ToValues(items).Ok? && ToValue(last).Ok? {
        var v, vs, w := ToValue(items[0]).value, ToValues(items[1..]).value, ToValue(last).value;
        assert [v] + (vs + [w]) == [v] + vs + [w];
      }
    }
  }

  lemma {:induction false} ToValuesPrefix(items: seq<Json>, n: nat)
    requires n <= |items| && ToValues(items[..n]).Err?
    ensures ToValues(items) == ToValues(items[..n])
    decreases |items| - n
  {
    hide ToValue;
    if n == |items| {
      assert items[..n] == items;
    } else {
      assert items[..n + 1] == items[..n] + [items[n]];
      ToValuesSnoc(items[..n], items[n]);
      ToValuesPrefix(items, n + 1);
    }
  }

  /** Collecting the conversions of a list; the first failure ends it. */
  method ConvertAllSdk(items: seq<Json>) returns (r: ConvertedList)
    ensures r == ToValues(items)
  {
    var values: seq<SqliteValue> := [];
    var i := 0;
    while i < |items|
      invariant 0 <= i <= |items| && ToValues(items[..i]) == Ok(values)
    {
      var v := ConvertSdk(items[i]);
      assert items[..i + 1] == items[..i] + [items[i]];
      ToValuesSnoc(items[..i], items[i]);
      if v.Err? {
        ToValuesPrefix(items, i + 1);
        return Err(v.error);
      }
      values := values + [v.value];
      i := i + 1;
    }
    assert items[..i] == items;
    return Ok(values);
  }

  method ConvertAllFfi(items: seq<Json>) returns (r: ConvertedList)
    ensures r == ToValues(items)
  {
    var values: seq<SqliteValue> := [];
    var i := 0;
    while i < |items|
      invariant 0 <= i <= |items| && ToValues(items[..i]) == Ok(values)
    {
      var v := ConvertFfi(items[i]);
      assert items[..i + 1] == items[..i] + [items[i]];
      ToValuesSnoc(items[..i], items[i]);
      if v.Err? {
        ToValuesPrefix(items, i + 1);
        return Err(v.error);
      }
      values := values + [v.value];
      i := i + 1;
    }
    assert items[..i] == items;
    return Ok(values);
  }

  // ----- what is promised

  /** A list is accepted exactly when each of its items is, item by item; otherwise the first refusal is reported. */
  lemma {:induction false} ListExactly(items: seq<Json>)
    ensures ToValues(items).Ok? <==> forall i :: 0 <= i < |items| ==> ToValue(items[i]).Ok?
    ensures ToValues(items).Ok? ==>
              && |ToValues(items).value| == |items|
              && forall i :: 0 <= i < |items| ==> ToValue(items[i]) == Ok(ToValues(items).value[i])
    ensures ToValues(items).Err? ==>
              exists i :: 0 <= i < |items| && ToValue(items[i]) == Err(ToValues(items).error)
                          && forall j :: 0 <= j < i ==> ToValue(items[j]).Ok?
  {
    hide ToValue;
    if items != [] {
      ListExactly(items[1..]);
      if ToValue(items[0]).Err? {
        assert ToValue(items[0]) == Err(ToValues(items).error);
      } else if ToValues(items[1..]).Err? {
        var i :| 0 <= i < |items[1..]| && ToValue(items[1..][i]) == Err(ToValues(items[1..]).error)
                 && forall j :: 0 <= j < i ==> ToValue(items[1..][j]).Ok?;
        assert ToValue(items[i + 1]) == Err(ToValues(items).error);
        forall j | 0 <= j < i + 1
          ensures ToValue(items[j]).Ok?
        {
          assert j > 0 ==> items[j] == items[1..][j - 1];
        }
      } else {
        forall i | 0 <= i < |items|
          ensures ToValue(items[i]) == Ok(ToValues(items).value[i])
        {
          assert i > 0 ==> items[i] == items[1..][i - 1];
        }
      }
    }
  }

  /** The integer a JSON value denotes. */
  function Integer(json: Json): Option<int> {
    if json.Number? && json.number.PosInt? then Some(json.number.natural)
    else if json.Number? && json.number.NegInt? then Some(json.number.negative)
    else None
  }

  /** Integers keep their value, and exactly those of 64 signed bits are accepted: none wraps around or is rounded. */
  lemma IntegersExactly(json: Json, v: int)
    requires json.Number? ==> json.number.Valid()
    ensures ToValue(json) == Ok(Int64(v)) <==> Integer(json) == Some(v) && I64_MIN <= v <= I64_MAX
    ensures Integer(json) == Some(v) && v > I64_MAX ==> ToValue(json) == Err(IntegerTooLarge)
  {
  }

  // ----- bytes

  predicate AllAscii(data: seq<byte>) {
    forall i :: 0 <= i < |data| ==> data[i] < 128
  }

  lemma AsciiByte(b: byte)
    requires b < 128
    ensures Utf8Char(AsChar(b)) == [b]
  {
    assert (b as int) < 128;
    assert b as int as byte == b;
  }

  lemma {:induction false} AsciiRoundTrip(data: seq<byte>)
    requires AllAscii(data)
    ensures Utf8(AsText(data)) == data
  {
    hide Utf8Char;
    if data != [] {
      AsciiByte(data[0]);
      AsciiRoundTrip(data[1..]);
      assert AsText(data)[1..] == AsText(data[1..]);
      assert data == [data[0]] + data[1..];
    }
  }

  lemma CharIsAscii(v: bv6)
    ensures Char(v) < 128
  {
  }

  lemma ChunkIsAscii(chunk: seq<byte>)
    requires 1 <= |chunk| <= 3
    ensures AllAscii(EncodeChunk(chunk))
  {
    hide Char, Digit0, Digit1, Digit2, Digit3;
    forall v: bv6
      ensures Char(v) < 128
    {
      CharIsAscii(v);
    }
  }

  lemma {:induction false} EncodedIsAscii(data: seq<byte>)
    ensures AllAscii(Encode(data))
    decreases |data|
  {
    hide EncodeChunk;
    if data != [] {
      ChunkIsAscii(if |data| <= 3 then data else data[..3]);
    }
    if |data| > 3 {
      EncodedIsAscii(data[3..]);
    }
  }

  function EncodedText(data: seq<byte>): string {
    AsText(Encode(data))
  }

  lemma EncodedTextDecodes(data: seq<byte>)
    ensures Decode(Utf8(EncodedText(data))) == Ok(data)
  {
    EncodedIsAscii(data);
    AsciiRoundTrip(Encode(data));
    DecodeEncode(data);
  }

  /** A field that is missing, or a text that is blank. */
  predicate Unnamed(fields: map<string, Json>, key: string) {
    key in fields ==> fields[key].String? && Trim(fields[key].text) == ""
  }

  predicate Named(fields: map<string, Json>, key: string, name: string) {
    key in fields && fields[key].String? && Trim(fields[key].text) == name
  }

  predicate TextOrMissing(fields: map<string, Json>, key: string) {
    key in fields ==> fields[key].String?
  }

  /** Bytes come exactly from an object with the text of a base64 encoding, named as such by the one type key or, where
      that one is missing or blank, by the other; neither key may hold anything but a text. */
  lemma {:induction false} BytesExactly(json: Json, data: seq<byte>)
    ensures ToValue(json) == Ok(Bytes(data)) <==>
            && json.Object?
            && var fields := json.fields;
               && "base64" in fields && fields["base64"].String? && Decode(Utf8(fields["base64"].text)) == Ok(data)
               && TextOrMissing(fields, "type") && TextOrMissing(fields, "__type")
               && (Named(fields, "type", "bytes_base64") || (Unnamed(fields, "type") && Named(fields, "__type", "bytes_base64")))
  {
    hide Utf8, Decode, Trim;
    TrimmedStays("");
  }

  // ----- every value from its own kind of JSON

  /** Apart from integers and bytes: null, booleans, doubles and texts come out as they are, each from its own kind. */
  lemma ScalarsExactly(json: Json)
    ensures ToValue(json) == Ok(SqlNull) <==> json == Null
    ensures forall b :: ToValue(json) == Ok(SqlBool(b)) <==> json == Bool(b)
    ensures forall x :: ToValue(json) == Ok(Float64(x)) <==> json == Number(Float(x))
    ensures forall s :: ToValue(json) == Ok(SqlString(s)) <==> json == String(s)
    ensures json.Array? ==> ToValue(json) == Err(NotScalar)
  {
    hide ReadWrapper, WrapperType, Utf8, Decode;
  }

  /** A JSON text for a SQLite value. */
  function ToJson(value: SqliteValue, key: string): Json {
    match value
    case SqlNull => Null
    case SqlBool(b) => Bool(b)
    case Int64(n) => Number(if n >= 0 then PosInt(n) else NegInt(n))
    case Float64(x) => Number(Float(x))
    case SqlString(s) => String(s)
    case Bytes(data) => Object(map[key := String("bytes_base64"), "base64" := String(EncodedText(data))])
  }

  /** Every SQLite value can be passed as a parameter and comes out unchanged, bytes wrapped under either type key. */
  lemma ValueRoundTrip(value: SqliteValue, key: string)
    requires key == "type" || key == "__type"
    requires value.Int64? ==> I64_MIN <= value.integer <= I64_MAX
    ensures ToValue(ToJson(value, key)) == Ok(value)
  {
    hide Encode, Decode, Utf8, EncodedText;
    if value.Bytes? {
      var fields := ToJson(value, key).fields;
      assert "type" != "base64" && "__type" != "base64" && "type" != "__type";
      TrimmedStays("bytes_base64");
      EncodedTextDecodes(value.data);
      assert Named(fields, key, "bytes_base64") && (key == "__type" ==> Unnamed(fields, "type"));
      BytesExactly(ToJson(value, key), value.data);
    }
  }
}
