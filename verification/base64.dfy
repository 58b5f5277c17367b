/** The hand-written base64 codec of the FFI crate, and the differently written decoder of the SDK crate.

    The methods compute with shifts and masks on single bytes, as the source does. Section 4 of RFC 4648 defines
    the encoding by an alphabet and 24-bit groups instead; `EncodeIsRfc`, `AcceptedIsRfc` and `DecodeIsRfc` show that this
    is the same thing. */
module Base64 {
  import opened Wrappers

  type byte = bv8

  const PAD: byte := 61

  datatype DecodeError = BadLength | BadCharacter(found: byte)

  type Decoded = Result<seq<byte>, DecodeError>

  // ----- alphabet

  function Char(digit: bv6): byte {
    if digit < 26 then digit as byte + 65
    else if digit < 52 then digit as byte - 26 + 97
    else if digit < 62 then digit as byte - 52 + 48
    else if digit == 62 then 43
    else 47
  }

  function Digit(c: byte): Option<bv6> {
    if 65 <= c <= 90 then Some((c - 65) as bv6)
    else if 97 <= c <= 122 then Some((c - 97 + 26) as bv6)
    else if 48 <= c <= 57 then Some((c - 48 + 52) as bv6)
    else if c == 43 then Some(62)
    else if c == 47 then Some(63)
    else None
  }

  /** A padding sign counts as digit zero. */
  function DigitOrPad(c: byte): Option<bv6> {
    if c == PAD then Some(0) else Digit(c)
  }

  lemma CharDigit(v: bv6)
    ensures Digit(Char(v)) == Some(v) && Char(v) != PAD
  {
  }

  lemma DigitChar(c: byte)
    ensures Digit(c).Some? ==> Char(Digit(c).value) == c
  {
  }

  lemma CharInjective(x: bv6, y: bv6)
    ensures Char(x) == Char(y) <==> x == y
  {
    CharDigit(x);
    CharDigit(y);
  }

  // ----- three bytes and four digits

  function Digit0(a: byte): bv6 { (a >> 2) as bv6 }

  function Digit1(a: byte, b: byte): bv6 { (((a & 0x03) << 4) | (b >> 4)) as bv6 }

  function Digit2(b: byte, c: byte): bv6 { (((b & 0x0f) << 2) | (c >> 6)) as bv6 }

  function Digit3(c: byte): bv6 { (c & 0x3f) as bv6 }

  /** The three pushes of both decoding loops, on digits held in bytes. */
  function First(a: byte, b: byte): byte { (a << 2) | (b >> 4) }

  function Second(b: byte, c: byte): byte { ((b & 0x0f) << 4) | (c >> 2) }

  function Third(c: byte, d: byte): byte { ((c & 0x03) << 6) | d }

  function Byte0(a: bv6, b: bv6): byte { First(a as byte, b as byte) }

  function Byte1(b: bv6, c: bv6): byte { Second(b as byte, c as byte) }

  function Byte2(c: bv6, d: bv6): byte { Third(c as byte, d as byte) }

  /** Encodes one to three bytes; missing bytes count as zero and their digits become padding. */
  function EncodeChunk(chunk: seq<byte>): (quartet: seq<byte>)
    requires 1 <= |chunk| <= 3
    ensures |quartet| == 4
  {
    var a, b, c := chunk[0], if |chunk| > 1 then chunk[1] else 0, if |chunk| > 2 then chunk[2] else 0;
    [Char(Digit0(a)),
     Char(Digit1(a, b)),
     if |chunk| > 1 then Char(Digit2(b, c)) else PAD,
     if |chunk| > 2 then Char(Digit3(c)) else PAD]
  }

  function Encode(data: seq<byte>): seq<byte> {
    if data == [] then []
    else if |data| <= 3 then EncodeChunk(data)
    else EncodeChunk(data[..3]) + Encode(data[3..])
  }

  /** Three bytes, less the middle and the last one where a padding sign stands for their digit. */
  function Unpadded(x: byte, y: byte, z: byte, thirdPadded: bool, fourthPadded: bool): seq<byte> {
    if thirdPadded then (if fourthPadded then [x] else [x, z])
    else if fourthPadded then [x, y] else [x, y, z]
  }

  /** The first character that cannot stand where it stands is reported; only the last two places may be padding. */
  function DecodeQuartet(q: seq<byte>): Decoded
    requires |q| == 4
  {
    var a, b, c, d := Digit(q[0]), Digit(q[1]), DigitOrPad(q[2]), DigitOrPad(q[3]);
    if a.None? then Err(BadCharacter(q[0]))
    else if b.None? then Err(BadCharacter(q[1]))
    else if c.None? then Err(BadCharacter(q[2]))
    else if d.None? then Err(BadCharacter(q[3]))
    else Ok(Unpadded(Byte0(a.value, b.value), Byte1(b.value, c.value), Byte2(c.value, d.value), q[2] == PAD, q[3] == PAD))
  }

  function Append(first: Decoded, second: Decoded): Decoded {
    if first.Err? then first else if second.Err? then second else Ok(first.value + second.value)
  }

  function DecodeQuartets(text: seq<byte>): Decoded
    requires |text| % 4 == 0
  {
    if text == [] then Ok([]) else Append(DecodeQuartet(text[..4]), DecodeQuartets(text[4..]))
  }

  function Decode(text: seq<byte>): Decoded {
    if |text| % 4 != 0 then Err(BadLength) else DecodeQuartets(text)
  }

  // ----- the code

  /** The encoding table, indexed by a byte below 64. */
  function Table(index: byte): byte
    requires index < 64
  {
    Char(index as bv6)
  }

  method EncodeBase64(data: seq<byte>) returns (output: seq<byte>)
    ensures output == Encode(data)
  {
    hide EncodeChunk;
    output := [];
    var i := 0;
    while i < |data|
      invariant 0 <= i <= |data|
      invariant output + Encode(data[i..]) == Encode(data)
    {
      var end := if i + 3 <= |data| then i + 3 else |data|;
      var quartet := EncodeQuartet(data[i..end]);
      EncodeStep(data[i..]);
      assert data[i..][end - i..] == data[end..] && data[i..][..end - i] == data[i..end];
      assert |data[i..]| <= 3 ==> end == |data|;
      output := output + quartet;
      i := end;
    }
  }

  /** The body of the encoding loop. */
  method EncodeQuartet(chunk: seq<byte>) returns (quartet: seq<byte>)
    requires 1 <= |chunk| <= 3
    ensures quartet == EncodeChunk(chunk)
  {
    var a := chunk[0];
    var b := if |chunk| > 1 then chunk[1] else 0;
    var c := if |chunk| > 2 then chunk[2] else 0;
    TableBits(a, b, c);
    quartet := [Table(a >> 2), Table(((a & 0x03) << 4) | (b >> 4))];
    if |chunk| > 1 {
      quartet := quartet + [Table(((b & 0x0f) << 2) | (c >> 6))];
    } else {
      quartet := quartet + [PAD];
    }
    if |chunk| > 2 {
      quartet := quartet + [Table(c & 0x3f)];
    } else {
      quartet := quartet + [PAD];
    }
    assert quartet == [quartet[0], quartet[1], quartet[2], quartet[3]];
  }

  lemma TableBits(a: byte, b: byte, c: byte)
    ensures a >> 2 < 64 && Table(a >> 2) == Char(Digit0(a))
    ensures ((a & 0x03) << 4) | (b >> 4) < 64 && Table(((a & 0x03) << 4) | (b >> 4)) == Char(Digit1(a, b))
    ensures ((b & 0x0f) << 2) | (c >> 6) < 64 && Table(((b & 0x0f) << 2) | (c >> 6)) == Char(Digit2(b, c))
    ensures c & 0x3f < 64 && Table(c & 0x3f) == Char(Digit3(c))
  {
  }

  lemma EncodeStep(data: seq<byte>)
    requires data != []
    ensures var n := if |data| <= 3 then |data| else 3;
            Encode(data) == EncodeChunk(data[..n]) + Encode(data[n..])
  {
    if |data| <= 3 {
      assert data[..|data|] == data;
    }
  }

  /** The body of the SDK decoding loop: a padding sign is a flag, and its digit is zero. */
  method QuartetSdk(q: seq<byte>) returns (r: Decoded)
    requires |q| == 4
    ensures r == DecodeQuartet(q)
  {
    hide Digit, First, Second, Third;
    if Digit(q[0]).None? {
      return Err(BadCharacter(q[0]));
    }
    if Digit(q[1]).None? {
      return Err(BadCharacter(q[1]));
    }
    if q[2] != PAD && Digit(q[2]).None? {
      return Err(BadCharacter(q[2]));
    }
    if q[3] != PAD && Digit(q[3]).None? {
      return Err(BadCharacter(q[3]));
    }
    var a, b: byte := Digit(q[0]).value as byte, Digit(q[1]).value as byte;
    var c: byte := if q[2] == PAD then 0 else Digit(q[2]).value as byte;
    var d: byte := if q[3] == PAD then 0 else Digit(q[3]).value as byte;

    var bytes := [First(a, b)];
    if q[2] != PAD {
      bytes := bytes + [Second(b, c)];
    }
    if q[3] != PAD {
      bytes := bytes + [Third(c, d)];
    }
    Pushed(First(a, b), Second(b, c), Third(c, d));
    return Ok(bytes);
  }

  /** The body of the FFI decoding loop: a padding sign is the out-of-range digit 64, which the tests and the masks
      have to cancel. */
  method QuartetFfi(q: seq<byte>) returns (r: Decoded)
    requires |q| == 4
    ensures r == DecodeQuartet(q)
  {
    hide Digit, First, Second, Third;
    if Digit(q[0]).None? {
      return Err(BadCharacter(q[0]));
    }
    if Digit(q[1]).None? {
      return Err(BadCharacter(q[1]));
    }
    if q[2] != PAD && Digit(q[2]).None? {
      return Err(BadCharacter(q[2]));
    }
    if q[3] != PAD && Digit(q[3]).None? {
      return Err(BadCharacter(q[3]));
    }
    var a, b: byte := Digit(q[0]).value as byte, Digit(q[1]).value as byte;
    var c: byte := if q[2] == PAD then 64 else Digit(q[2]).value as byte;
    var d: byte := if q[3] == PAD then 64 else Digit(q[3]).value as byte;
    MarkersCancel(a, b, q[2] == PAD, q[3] == PAD, DigitOrPad(q[2]).value, DigitOrPad(q[3]).value);
    var bytes := PushMarked(a, b, c, d);
    return Ok(bytes);
  }

  method PushMarked(a: byte, b: byte, c: byte, d: byte) returns (bytes: seq<byte>)
    ensures bytes == Unpadded(First(a, b), Second(b, c), Third(c, d), c == 64, d == 64)
  {
    hide First, Second, Third;
    bytes := [First(a, b)];
    if c != 64 {
      bytes := bytes + [Second(b, c)];
    }
    if d != 64 {
      bytes := bytes + [Third(c, d)];
    }
    Pushed(First(a, b), Second(b, c), Third(c, d));
  }

  lemma MarkersCancel(a: byte, b: byte, thirdPadded: bool, fourthPadded: bool, y: bv6, z: bv6)
    requires (thirdPadded ==> y == 0) && (fourthPadded ==> z == 0)
    ensures var c, d := if thirdPadded then 64 else y as byte, if fourthPadded then 64 else z as byte;
            Unpadded(First(a, b), Second(b, c), Third(c, d), c == 64, d == 64) ==
            Unpadded(First(a, b), Second(b, y as byte), Third(y as byte, z as byte), thirdPadded, fourthPadded)
  {
    MarkerBits(y, z);
  }

  lemma Pushed<T>(x: T, y: T, z: T)
    ensures [x] + [y] == [x, y] && [x] + [z] == [x, z] && [x] + [y] + [z] == [x, y, z]
  {
  }

  lemma MarkerBits(c: bv6, d: bv6)
    ensures c as byte != 64 && d as byte != 64
    ensures Third(64, d as byte) == Third(0, d as byte)
  {
  }

  method DecodeSdk(input: seq<byte>) returns (r: Decoded)
    ensures r == Decode(input)
  {
    hide DecodeQuartet;
    if |input| % 4 != 0 {
      return Err(BadLength);
    }
    var output: seq<byte> := [];
    var i := 0;
    assert input[0..] == input;
    AppendNothing(DecodeQuartets(input));
    while i < |input|
      invariant 0 <= i <= |input| && i % 4 == 0
      invariant Decode(input) == Append(Ok(output), DecodeQuartets(input[i..]))
    {
      assert input[i..][..4] == input[i..i + 4] && input[i..][4..] == input[i + 4..];
      var bytes := QuartetSdk(input[i..i + 4]);
      if bytes.Err? {
        return bytes;
      }
      AppendAssociates(Ok(output), bytes, DecodeQuartets(input[i + 4..]));
      output := output + bytes.value;
      i := i + 4;
    }
    AppendNothing(Ok(output));
    return Ok(output);
  }

  method DecodeFfi(input: seq<byte>) returns (r: Decoded)
    ensures r == Decode(input)
  {
    hide DecodeQuartet;
    if |input| % 4 != 0 {
      return Err(BadLength);
    }
    var output: seq<byte> := [];
    var i := 0;
    assert input[0..] == input;
    AppendNothing(DecodeQuartets(input));
    while i < |input|
      invariant 0 <= i <= |input| && i % 4 == 0
      invariant Decode(input) == Append(Ok(output), DecodeQuartets(input[i..]))
    {
      assert input[i..][..4] == input[i..i + 4] && input[i..][4..] == input[i + 4..];
      var bytes := QuartetFfi(input[i..i + 4]);
      if bytes.Err? {
        return bytes;
      }
      AppendAssociates(Ok(output), bytes, DecodeQuartets(input[i + 4..]));
      output := output + bytes.value;
      i := i + 4;
    }
    AppendNothing(Ok(output));
    return Ok(output);
  }

  lemma AppendNothing(d: Decoded)
    ensures Append(Ok([]), d) == d && Append(d, Ok([])) == d
  {
    if d.Ok? {
      assert [] + d.value == d.value == d.value + [];
    }
  }

  lemma AppendAssociates(x: Decoded, y: Decoded, z: Decoded)
    ensures Append(x, Append(y, z)) == Append(Append(x, y), z)
  {
    if x.Ok? && y.Ok? && z.Ok? {
      assert x.value + (y.value + z.value) == x.value + y.value + z.value;
    }
  }

  // ----- what is accepted

  /** Padding may stand only in the last two places of a quartet. */
  predicate Fits(c: byte, place: nat) {
    Digit(c).Some? || (c == PAD && place >= 2)
  }

  predicate Accepted(text: seq<byte>) {
    |text| % 4 == 0 && forall i :: 0 <= i < |text| ==> Fits(text[i], i % 4)
  }

  function PadCount(text: seq<byte>): nat {
    if text == [] then 0 else (if text[0] == PAD then 1 else 0) + PadCount(text[1..])
  }

  lemma {:induction false} PadCountAppend(x: seq<byte>, y: seq<byte>)
    ensures PadCount(x + y) == PadCount(x) + PadCount(y)
  {
    if x == [] {
      assert x + y == y;
    } else {
      assert (x + y)[1..] == x[1..] + y;
      PadCountAppend(x[1..], y);
    }
  }

  lemma QuartetPads(q: seq<byte>)
    requires |q| == 4
    ensures PadCount(q) == (if q[0] == PAD then 1 else 0) + (if q[1] == PAD then 1 else 0)
                         + (if q[2] == PAD then 1 else 0) + (if q[3] == PAD then 1 else 0)
  {
    assert q[1..][1..] == q[2..] && q[2..][1..] == q[3..] && q[3..][1..] == [];
    assert PadCount(q[3..]) == if q[3] == PAD then 1 else 0;
    assert PadCount(q[2..]) == (if q[2] == PAD then 1 else 0) + PadCount(q[3..]);
    assert PadCount(q[1..]) == (if q[1] == PAD then 1 else 0) + PadCount(q[2..]);
  }

  lemma QuartetAccepted(q: seq<byte>)
    requires |q| == 4
    ensures Accepted(q) <==> Digit(q[0]).Some? && Digit(q[1]).Some? && DigitOrPad(q[2]).Some? && DigitOrPad(q[3]).Some?
  {
    assert Accepted(q) <==> Fits(q[0], 0) && Fits(q[1], 1) && Fits(q[2], 2) && Fits(q[3], 3);
  }

  lemma QuartetLength(q: seq<byte>)
    requires |q| == 4
    ensures DecodeQuartet(q).Ok? <==> Accepted(q)
    ensures DecodeQuartet(q).Ok? ==> |DecodeQuartet(q).value| + PadCount(q) == 3
  {
    QuartetAccepted(q);
    QuartetPads(q);
    assert Digit(PAD).None?;
  }

  lemma AcceptedJoins(q: seq<byte>, rest: seq<byte>)
    requires |q| == 4 && Accepted(q) && Accepted(rest)
    ensures Accepted(q + rest)
  {
    forall i | 0 <= i < |q + rest|
      ensures Fits((q + rest)[i], i % 4)
    {
      if i < 4 {
        assert Fits(q[i], i % 4);
      } else {
        assert Fits(rest[i - 4], (i - 4) % 4);
      }
    }
  }

  lemma AcceptedParts(q: seq<byte>, rest: seq<byte>)
    requires |q| == 4 && Accepted(q + rest)
    ensures Accepted(q) && Accepted(rest)
  {
    forall i | 0 <= i < |q|
      ensures Fits(q[i], i % 4)
    {
      assert Fits((q + rest)[i], i % 4);
    }
    forall i | 0 <= i < |rest|
      ensures Fits(rest[i], i % 4)
    {
      assert Fits((q + rest)[i + 4], (i + 4) % 4);
    }
  }

  lemma AcceptedSplits(text: seq<byte>)
    requires |text| >= 4
    ensures Accepted(text) <==> Accepted(text[..4]) && Accepted(text[4..])
    ensures PadCount(text) == PadCount(text[..4]) + PadCount(text[4..])
  {
    var q, rest := text[..4], text[4..];
    assert text == q + rest;
    PadCountAppend(q, rest);
    if Accepted(text) {
      AcceptedParts(q, rest);
    } else if Accepted(q) && Accepted(rest) {
      AcceptedJoins(q, rest);
    }
  }

  /** Exactly the accepted texts decode, and then each quartet gives three bytes less one per padding sign. */
  lemma {:induction false} DecodeAcceptsExactly(text: seq<byte>)
    ensures Decode(text).Ok? <==> Accepted(text)
    ensures Decode(text).Ok? ==> |Decode(text).value| == 3 * (|text| / 4) - PadCount(text)
    decreases |text|
  {
    if |text| % 4 == 0 && text != [] {
      QuartetLength(text[..4]);
      DecodeAcceptsExactly(text[4..]);
      AcceptedSplits(text);
    }
  }

  // ----- round trips

  lemma {:induction false} EncodeLength(data: seq<byte>)
    ensures |Encode(data)| == 4 * ((|data| + 2) / 3)
    decreases |data|
  {
    if |data| > 3 {
      EncodeLength(data[3..]);
    }
  }

  lemma BytesOfDigits(a: byte, b: byte, c: byte)
    ensures Byte0(Digit0(a), Digit1(a, b)) == a
    ensures Byte1(Digit1(a, b), Digit2(b, c)) == b
    ensures Byte2(Digit2(b, c), Digit3(c)) == c
    ensures c == 0 ==> Digit3(c) == 0
    ensures b == 0 && c == 0 ==> Digit2(b, c) == 0
  {
  }

  lemma ChunkRoundTrip(chunk: seq<byte>)
    requires 1 <= |chunk| <= 3
    ensures DecodeQuartet(EncodeChunk(chunk)) == Ok(chunk)
  {
    var a, b, c := chunk[0], if |chunk| > 1 then chunk[1] else 0, if |chunk| > 2 then chunk[2] else 0;
    CharDigit(Digit0(a));
    CharDigit(Digit1(a, b));
    CharDigit(Digit2(b, c));
    CharDigit(Digit3(c));
    BytesOfDigits(a, b, c);
    if |chunk| == 1 {
      assert chunk == [a];
    } else if |chunk| == 2 {
      assert chunk == [a, b];
    } else {
      assert chunk == [a, b, c];
    }
  }

  /** Decoding what was encoded gives it back, for every byte sequence. */
  lemma {:induction false} DecodeEncode(data: seq<byte>)
    ensures Decode(Encode(data)) == Ok(data)
    decreases |data|
  {
    hide EncodeChunk, DecodeQuartet;
    EncodeLength(data);
    if data != [] {
      var n := if |data| <= 3 then |data| else 3;
      EncodeStep(data);
      EncodeLength(data[n..]);
      var q, rest := EncodeChunk(data[..n]), Encode(data[n..]);
      assert (q + rest)[..4] == q && (q + rest)[4..] == rest;
      ChunkRoundTrip(data[..n]);
      DecodeEncode(data[n..]);
      assert data[..n] + data[n..] == data;
    }
  }

  /** The bits that the padding of a last quartet cuts off are zero, and padding sits only at its end. */
  predicate CanonicalEnd(q: seq<byte>)
    requires |q| == 4
  {
    && (q[2] == PAD ==> q[3] == PAD && Digit(q[1]).Some? && Digit(q[1]).value & 0x0f == 0)
    && (q[2] != PAD && q[3] == PAD ==> Digit(q[2]).Some? && Digit(q[2]).value & 0x03 == 0)
  }

  /** Section 3.5 of RFC 4648: padding only at the end of the last quartet, and no stray bits under it. */
  predicate Canonical(text: seq<byte>)
    requires |text| % 4 == 0
  {
    text == [] ||
    ((forall i :: 0 <= i < |text| - 4 ==> text[i] != PAD) && CanonicalEnd(text[|text| - 4..]))
  }

  lemma DigitsOfBytes(a: bv6, b: bv6, c: bv6, d: bv6)
    ensures Digit0(Byte0(a, b)) == a
    ensures Digit1(Byte0(a, b), Byte1(b, c)) == b
    ensures Digit2(Byte1(b, c), Byte2(c, d)) == c
    ensures Digit3(Byte2(c, d)) == d
  {
  }

  /** The last digit kept loses exactly the bits that no byte holds. */
  lemma CutDigits(a: bv6, b: bv6, c: bv6)
    ensures Digit2(Byte1(b, c), 0) == c <==> c & 0x03 == 0
    ensures Digit1(Byte0(a, b), 0) == b <==> b & 0x0f == 0
  {
  }

  lemma QuartetCanonical(q: seq<byte>)
    requires |q| == 4 && Accepted(q)
    ensures DecodeQuartet(q).Ok? && 1 <= |DecodeQuartet(q).value| <= 3
    ensures EncodeChunk(DecodeQuartet(q).value) == q <==> CanonicalEnd(q)
  {
    QuartetLength(q);
    QuartetAccepted(q);
    var a, b, c, d := Digit(q[0]).value, Digit(q[1]).value, DigitOrPad(q[2]).value, DigitOrPad(q[3]).value;
    DigitChar(q[0]);
    DigitChar(q[1]);
    DigitChar(q[2]);
    DigitChar(q[3]);
    assert q == [q[0], q[1], q[2], q[3]];
    if q[2] != PAD && q[3] != PAD {
      FullQuartet(a, b, c, d);
    } else if q[2] != PAD {
      TwoByteQuartet(a, b, c);
    } else if q[3] == PAD {
      OneByteQuartet(a, b);
    } else {
      StrayPad(Byte0(a, b), Byte2(0, d));
    }
  }

  lemma FullQuartet(a: bv6, b: bv6, c: bv6, d: bv6)
    ensures EncodeChunk([Byte0(a, b), Byte1(b, c), Byte2(c, d)]) == [Char(a), Char(b), Char(c), Char(d)]
  {
    DigitsOfBytes(a, b, c, d);
  }

  lemma TwoByteQuartet(a: bv6, b: bv6, c: bv6)
    ensures EncodeChunk([Byte0(a, b), Byte1(b, c)]) == [Char(a), Char(b), Char(c), PAD] <==> c & 0x03 == 0
  {
    DigitsOfBytes(a, b, c, 0);
    CutDigits(a, b, c);
    CharInjective(Digit2(Byte1(b, c), 0), c);
  }

  lemma OneByteQuartet(a: bv6, b: bv6)
    ensures EncodeChunk([Byte0(a, b)]) == [Char(a), Char(b), PAD, PAD] <==> b & 0x0f == 0
  {
    DigitsOfBytes(a, b, 0, 0);
    CutDigits(a, b, 0);
    CharInjective(Digit1(Byte0(a, b), 0), b);
  }

  lemma StrayPad(x: byte, y: byte)
    ensures EncodeChunk([x, y])[2] != PAD
  {
    CharDigit(Digit2(y, 0));
  }

  lemma {:induction false} EncodedHasNoInnerPad(data: seq<byte>, i: nat)
    requires i < |Encode(data)| - 4
    ensures Encode(data)[i] != PAD
    decreases |data|
  {
    if |data| > 3 {
      EncodeLength(data[3..]);
      if i >= 4 {
        EncodedHasNoInnerPad(data[3..], i - 4);
      } else {
        CharDigit(Digit0(data[0]));
        CharDigit(Digit1(data[0], data[1]));
        CharDigit(Digit2(data[1], data[2]));
        CharDigit(Digit3(data[2]));
      }
    }
  }

  lemma DecodedIsNonempty(text: seq<byte>)
    requires Accepted(text) && text != []
    ensures Decode(text).Ok? && Decode(text).value != []
  {
    DecodeAcceptsExactly(text);
    AcceptedSplits(text);
    QuartetLength(text[..4]);
    QuartetCanonical(text[..4]);
  }

  lemma DecodeSplits(q: seq<byte>, rest: seq<byte>)
    requires |q| == 4 && Accepted(q + rest)
    ensures Accepted(q) && Accepted(rest) && Decode(q).Ok? && Decode(rest).Ok? && DecodeQuartet(q).Ok?
    ensures Decode(q + rest) == Ok(DecodeQuartet(q).value + Decode(rest).value)
  {
    assert (q + rest)[..4] == q && (q + rest)[4..] == rest;
    AcceptedSplits(q + rest);
    DecodeAcceptsExactly(q);
    DecodeAcceptsExactly(rest);
    QuartetLength(q);
  }

  lemma CanonicalTail(q: seq<byte>, rest: seq<byte>)
    requires |q| == 4 && |rest| % 4 == 0 && rest != [] && forall i :: 0 <= i < 4 ==> q[i] != PAD
    ensures Canonical(q + rest) <==> Canonical(rest)
  {
    var text := q + rest;
    assert text[|text| - 4..] == rest[|rest| - 4..];
    assert forall i :: 0 <= i < |rest| ==> text[i + 4] == rest[i];
    if Canonical(rest) {
      forall i | 0 <= i < |text| - 4
        ensures text[i] != PAD
      {
        assert if i < 4 then text[i] == q[i] else text[i] == rest[i - 4];
      }
    }
  }

  lemma UnpaddedFirst(q: seq<byte>, rest: seq<byte>)
    requires |q| == 4 && Accepted(q + rest) && rest != [] && q[2] != PAD && q[3] != PAD
    requires Decode(rest).Ok? && (Encode(Decode(rest).value) == rest <==> Canonical(rest))
    ensures Decode(q + rest).Ok?
    ensures Encode(Decode(q + rest).value) == q + rest <==> Canonical(q + rest)
  {
    DecodeSplits(q, rest);
    QuartetCanonical(q);
    QuartetAccepted(q);
    assert Digit(PAD).None?;
    DecodedIsNonempty(rest);
    var text, v, w := q + rest, DecodeQuartet(q).value, Decode(rest).value;
    assert |v| == 3 && (v + w)[..3] == v && (v + w)[3..] == w;
    assert Encode(v + w) == q + Encode(w);
    CanonicalTail(q, rest);
    if q + Encode(w) == q + rest {
      assert Encode(w) == (q + Encode(w))[4..] == (q + rest)[4..] == rest;
    }
  }

  lemma PaddedFirst(q: seq<byte>, rest: seq<byte>)
    requires |q| == 4 && Accepted(q + rest) && rest != [] && (q[2] == PAD || q[3] == PAD)
    ensures !Canonical(q + rest)
    ensures Decode(q + rest).Ok? && Encode(Decode(q + rest).value) != q + rest
  {
    DecodeSplits(q, rest);
    var text, w := q + rest, DecodeQuartet(q).value + Decode(rest).value;
    assert text[2] == q[2] && text[3] == q[3] && |text| >= 8;
    if Encode(w) == text {
      EncodedHasNoInnerPad(w, 2);
      EncodedHasNoInnerPad(w, 3);
    }
  }

  /** Re-encoding a decoded text gives the same text exactly when the text is canonical. */
  lemma {:induction false} EncodeDecode(text: seq<byte>)
    requires Accepted(text)
    ensures Decode(text).Ok?
    ensures Encode(Decode(text).value) == text <==> Canonical(text)
    decreases |text|
  {
    if text != [] {
      var q, rest := text[..4], text[4..];
      assert text == q + rest;
      DecodeSplits(q, rest);
      if rest == [] {
        QuartetCanonical(q);
        assert DecodeQuartet(q).value + [] == DecodeQuartet(q).value;
        assert text[|text| - 4..] == text == q;
      } else {
        EncodeDecode(rest);
        if q[2] != PAD && q[3] != PAD {
          UnpaddedFirst(q, rest);
        } else {
          PaddedFirst(q, rest);
        }
      }
    }
  }

  // ----- the reference: the alphabet as a text, and 24-bit groups

  /** Table 1 of section 4 of RFC 4648. */
  const ALPHABET: string := "ABCDEFGHIJKLMNOPQRSTUVWXYZ" + "abcdefghijklmnopqrstuvwxyz" + "0123456789+/"

  function Letter(digit: bv6): char {
    ALPHABET[digit as int]
  }

  /** Both crates move between bytes and text one character at a time. */
  function AsChar(b: byte): char {
    b as char
  }

  function AsText(bytes: seq<byte>): (text: string)
    ensures |text| == |bytes| && forall i :: 0 <= i < |bytes| ==> text[i] == AsChar(bytes[i])
  {
    seq(|bytes|, i requires 0 <= i < |bytes| => AsChar(bytes[i]))
  }

  lemma CharIsLetter(v: bv6)
    ensures AsChar(Char(v)) == Letter(v)
  {
  }

  /** A byte is read as digit `v` exactly when it is the `v`-th character of the alphabet. */
  lemma DigitIsPosition(c: byte, v: bv6)
    ensures |ALPHABET| == 64 && (Digit(c) == Some(v) <==> AsChar(c) == ALPHABET[v as int])
  {
    hide Digit;
    CharIsLetter(v);
    CharDigit(v);
    DigitChar(c);
  }

  predicate LetterCode(k: int) {
    65 <= k <= 90 || 97 <= k <= 122 || 48 <= k <= 57 || k == 43 || k == 47
  }

  lemma DigitCode(c: byte)
    ensures Digit(c).Some? <==> LetterCode(c as int)
  {
  }

  lemma LettersHaveCodes(k: nat)
    requires k < |ALPHABET|
    ensures LetterCode(ALPHABET[k] as int)
  {
  }

  lemma DigitIsLetter(c: byte)
    ensures Digit(c).Some? <==> AsChar(c) in ALPHABET
  {
    hide Digit, Char;
    if Digit(c).Some? {
      var v := Digit(c).value;
      DigitIsPosition(c, v);
      assert ALPHABET[v as int] in ALPHABET;
    }
    if k: nat :| k < |ALPHABET| && ALPHABET[k] == AsChar(c) {
      DigitCode(c);
      LettersHaveCodes(k);
    }
  }

  lemma PadSign(c: byte)
    ensures c == PAD <==> AsChar(c) == '='
  {
  }

  lemma AcceptedIsRfc(text: seq<byte>)
    ensures Decode(text).Ok? <==>
            |text| % 4 == 0 && forall i :: 0 <= i < |text| ==> AsText(text)[i] in ALPHABET || (AsText(text)[i] == '=' && i % 4 >= 2)
  {
    hide Digit;
    DecodeAcceptsExactly(text);
    forall i | 0 <= i < |text|
      ensures Fits(text[i], i % 4) <==> AsText(text)[i] in ALPHABET || (AsText(text)[i] == '=' && i % 4 >= 2)
    {
      DigitIsLetter(text[i]);
    }
  }

  function Group(a: byte, b: byte, c: byte): bv24 {
    (a as bv24 << 16) | (b as bv24 << 8) | c as bv24
  }

  function Join(a: bv6, b: bv6, c: bv6, d: bv6): bv24 {
    (a as bv24 << 18) | (b as bv24 << 12) | (c as bv24 << 6) | d as bv24
  }

  /** The four stretches of six bits of a group. */
  function Sextet(g: bv24, place: nat): bv6
    requires place < 4
  {
    if place == 0 then (g >> 18) as bv6
    else if place == 1 then ((g >> 12) & 0x3f) as bv6
    else if place == 2 then ((g >> 6) & 0x3f) as bv6
    else (g & 0x3f) as bv6
  }

  lemma GroupBits(a: byte, b: byte, c: byte)
    ensures var g := Group(a, b, c);
            && Sextet(g, 0) == Digit0(a) && Sextet(g, 1) == Digit1(a, b)
            && Sextet(g, 2) == Digit2(b, c) && Sextet(g, 3) == Digit3(c)
  {
  }

  lemma JoinBits(a: bv6, b: bv6, c: bv6, d: bv6)
    ensures var g := Join(a, b, c, d);
            (g >> 16) as byte == Byte0(a, b) && ((g >> 8) & 0xff) as byte == Byte1(b, c) && (g & 0xff) as byte == Byte2(c, d)
  {
  }

  function RfcChunk(chunk: seq<byte>): (quartet: string)
    requires 1 <= |chunk| <= 3
  {
    var g := Group(chunk[0], if |chunk| > 1 then chunk[1] else 0, if |chunk| > 2 then chunk[2] else 0);
    [Letter(Sextet(g, 0)),
     Letter(Sextet(g, 1)),
     if |chunk| > 1 then Letter(Sextet(g, 2)) else '=',
     if |chunk| > 2 then Letter(Sextet(g, 3)) else '=']
  }

  function RfcEncode(data: seq<byte>): string {
    if data == [] then []
    else if |data| <= 3 then RfcChunk(data)
    else RfcChunk(data[..3]) + RfcEncode(data[3..])
  }

  lemma ChunkIsRfc(chunk: seq<byte>)
    requires 1 <= |chunk| <= 3
    ensures AsText(EncodeChunk(chunk)) == RfcChunk(chunk)
  {
    hide AsChar, Char, Letter, Group, Sextet, Digit0, Digit1, Digit2, Digit3;
    var a, b, c := chunk[0], if |chunk| > 1 then chunk[1] else 0, if |chunk| > 2 then chunk[2] else 0;
    GroupBits(a, b, c);
    CharIsLetter(Digit0(a));
    CharIsLetter(Digit1(a, b));
    CharIsLetter(Digit2(b, c));
    CharIsLetter(Digit3(c));
    PadSign(PAD);
  }

  lemma {:induction false} EncodeIsRfc(data: seq<byte>)
    ensures AsText(Encode(data)) == RfcEncode(data)
    decreases |data|
  {
    hide EncodeChunk, RfcChunk;
    if data != [] {
      ChunkIsRfc(if |data| <= 3 then data else data[..3]);
    }
    if |data| > 3 {
      EncodeIsRfc(data[3..]);
      assert AsText(Encode(data)) == AsText(EncodeChunk(data[..3])) + AsText(Encode(data[3..]));
    }
  }

  /** The character is the one at that place of the alphabet; a padding sign stands for place zero. */
  predicate ReadsAs(c: byte, place: bv6) {
    if AsChar(c) == '=' then place == 0 else AsChar(c) == Letter(place)
  }

  /** A quartet of letters from those places, its last two letters possibly padding, gives the bytes of its 24-bit group
      that padding has not cut off. */
  lemma DecodeIsRfc(q: seq<byte>, a: bv6, b: bv6, c: bv6, d: bv6)
    requires |q| == 4 && AsChar(q[0]) == Letter(a) && AsChar(q[1]) == Letter(b) && ReadsAs(q[2], c) && ReadsAs(q[3], d)
    ensures var g := Join(a, b, c, d);
            DecodeQuartet(q) ==
            Ok(Unpadded((g >> 16) as byte, ((g >> 8) & 0xff) as byte, (g & 0xff) as byte, AsChar(q[2]) == '=', AsChar(q[3]) == '='))
  {
    hide Byte0, Byte1, Byte2, Digit, Join;
    DigitIsPosition(q[0], a);
    DigitIsPosition(q[1], b);
    DigitIsPosition(q[2], c);
    DigitIsPosition(q[3], d);
    PadSign(q[2]);
    PadSign(q[3]);
    assert Digit(q[0]) == Some(a) && Digit(q[1]) == Some(b) && DigitOrPad(q[2]) == Some(c) && DigitOrPad(q[3]) == Some(d);
    assert DecodeQuartet(q) == Ok(Unpadded(Byte0(a, b), Byte1(b, c), Byte2(c, d), q[2] == PAD, q[3] == PAD));
    JoinBits(a, b, c, d);
  }

  /** Otherwise the first character that cannot stand where it stands is reported. */
  lemma {:induction false} FirstMisfitIsReported(text: seq<byte>, i: nat)
    requires |text| % 4 == 0 && i < |text| && !Fits(text[i], i % 4)
    requires forall j :: 0 <= j < i ==> Fits(text[j], j % 4)
    ensures Decode(text) == Err(BadCharacter(text[i]))
    decreases |text|
  {
    hide Digit;
    var q, rest := text[..4], text[4..];
    assert forall j :: 0 <= j < 4 ==> q[j] == text[j];
    if i >= 4 {
      assert Accepted(q);
      QuartetLength(q);
      forall j | 0 <= j < i - 4
        ensures Fits(rest[j], j % 4)
      {
        assert Fits(text[j + 4], (j + 4) % 4);
      }
      FirstMisfitIsReported(rest, i - 4);
    }
  }
}
