/** Clipboard text as the Windows capture reads it (decode_unicode_text of
    input-capture/src/clipboard_image.rs): little-endian UTF-16 up to a mandatory
    terminator, re-encoded as bounded UTF-8. */
module UnicodeText {
  import opened Wrappers

  type Byte = b: nat | b < 256
  type Bytes = seq<Byte>
  type Unit = u: nat | u < 0x1_0000
  /** A code point that is not half of a surrogate pair. */
  type Scalar = c: nat | c < 0x11_0000 && !(0xD800 <= c < 0xE000)

  const MAX_TEXT_BYTES: nat := 1024 * 1024

  datatype Decoded = Unsupported | Empty | Text(bytes: Bytes)

  // ------------------------------------------------------------- UTF-16, UTF-8

  predicate IsHigh(u: Unit) {
    0xD800 <= u < 0xDC00
  }

  predicate IsLow(u: Unit) {
    0xDC00 <= u < 0xE000
  }

  function Joined(high: Unit, low: Unit): Scalar
    requires IsHigh(high) && IsLow(low)
  {
    0x1_0000 + (high - 0xD800) * 1024 + (low - 0xDC00)
  }

  function Put(c: Scalar, rest: Option<seq<Scalar>>): Option<seq<Scalar>> {
    if rest.Some? then Some([c] + rest.value) else None
  }

  /** Lone surrogates are refused. */
  function Scalars(units: seq<Unit>): Option<seq<Scalar>> {
    if units == [] then Some([])
    else if IsHigh(units[0]) then
      if |units| > 1 && IsLow(units[1]) then Put(Joined(units[0], units[1]), Scalars(units[2..])) else None
    else if IsLow(units[0]) then None
    else Put(units[0], Scalars(units[1..]))
  }

  function Utf8Of(c: Scalar): Bytes {
    if c < 0x80 then [c]
    else if c < 0x800 then [0xC0 + c / 64, 0x80 + c % 64]
    else if c < 0x1_0000 then [0xE0 + c / 4096, 0x80 + c / 64 % 64, 0x80 + c % 64]
    else [0xF0 + c / 262144, 0x80 + c / 4096 % 64, 0x80 + c / 64 % 64, 0x80 + c % 64]
  }

  function Utf8(text: seq<Scalar>): Bytes {
    if text == [] then [] else Utf8Of(text[0]) + Utf8(text[1..])
  }

  function Utf16Of(c: Scalar): seq<Unit> {
    if c < 0x1_0000 then [c] else [0xD800 + (c - 0x1_0000) / 1024, 0xDC00 + (c - 0x1_0000) % 1024]
  }

  /** The reference encoder. */
  function Utf16(text: seq<Scalar>): seq<Unit> {
    if text == [] then [] else Utf16Of(text[0]) + Utf16(text[1..])
  }

  lemma {:induction false} PairsRoundTrip(c: Scalar)
    requires c >= 0x1_0000
    ensures IsHigh(Utf16Of(c)[0]) && IsLow(Utf16Of(c)[1]) && Joined(Utf16Of(c)[0], Utf16Of(c)[1]) == c
  {
  }

  lemma {:induction false} JoinedSplits(high: Unit, low: Unit)
    requires IsHigh(high) && IsLow(low)
    ensures Utf16Of(Joined(high, low)) == [high, low]
  {
  }

  /** Decoding inverts the encoder, and only its output decodes. */
  lemma {:induction false} ScalarsInvertUtf16(units: seq<Unit>, text: seq<Scalar>)
    ensures Scalars(units) == Some(text) <==> units == Utf16(text)
    decreases |units|
  {
    if text == [] {
    } else if units != [] {
      var n := if IsHigh(units[0]) && |units| > 1 && IsLow(units[1]) then 2 else 1;
      ScalarsInvertUtf16(units[n..], text[1..]);
      assert text == [text[0]] + text[1..];
      if units == Utf16(text) {
        HeadOfUtf16(units, text);
      } else if Scalars(units) == Some(text) {
        HeadOfScalars(units, text);
      }
    }
  }

  lemma {:induction false} HeadOfUtf16(units: seq<Unit>, text: seq<Scalar>)
    requires text != [] && units == Utf16(text)
    ensures var n := |Utf16Of(text[0])|;
      && units[n..] == Utf16(text[1..])
      && Scalars(units) == Put(text[0], Scalars(units[n..]))
      && (n == 2 <==> IsHigh(units[0]) && |units| > 1 && IsLow(units[1]))
  {
    if text[0] >= 0x1_0000 {
      PairsRoundTrip(text[0]);
    }
  }

  lemma {:induction false} HeadOfScalars(units: seq<Unit>, text: seq<Scalar>)
    requires units != [] && text != [] && Scalars(units) == Some(text)
    ensures var n := |Utf16Of(text[0])|;
      && n <= |units| && Utf16Of(text[0]) == units[..n] && Scalars(units[n..]) == Some(text[1..])
      && (n == 2 <==> IsHigh(units[0]) && |units| > 1 && IsLow(units[1]))
  {
    if IsHigh(units[0]) {
      JoinedSplits(units[0], units[1]);
      assert text[1..] == Scalars(units[2..]).value;
    } else {
      assert text[1..] == Scalars(units[1..]).value;
    }
  }

  // ------------------------------------------------------- UTF-8 read back

  predicate Continues(s: Bytes, n: nat) {
    n <= |s| && forall k :: 1 <= k < n ==> 0x80 <= s[k] < 0xC0
  }

  /** How many bytes the first character takes, by its first byte. */
  function Width(b: Byte): nat {
    if b < 0x80 then 1 else if b < 0xE0 then 2 else if b < 0xF0 then 3 else 4
  }

  function Low(b: Byte): int {
    b as int - 0x80
  }

  /** The code point of the first character (section 3 of RFC 3629). */
  function FirstCode(s: Bytes): int
    requires s != [] && Continues(s, Width(s[0]))
  {
    match Width(s[0])
    case 1 => s[0]
    case 2 => (s[0] as int - 0xC0) * 64 + Low(s[1])
    case 3 => (s[0] as int - 0xE0) * 4096 + Low(s[1]) * 64 + Low(s[2])
    case _ => (s[0] as int - 0xF0) * 262144 + Low(s[1]) * 4096 + Low(s[2]) * 64 + Low(s[3])
  }

  function FromUtf8(s: Bytes): Option<seq<Scalar>> {
    if s == [] then Some([])
    else if !Continues(s, Width(s[0])) then None
    else
      var c := FirstCode(s);
      if 0 <= c < 0x11_0000 && !(0xD800 <= c < 0xE000) then Put(c, FromUtf8(s[Width(s[0])..])) else None
  }

  lemma {:induction false} FirstCodeOf(c: Scalar, rest: Bytes)
    ensures var s := Utf8Of(c) + rest;
      && Width(s[0]) == |Utf8Of(c)| && Continues(s, Width(s[0])) && FirstCode(s) == c
      && s[Width(s[0])..] == rest
  {
    var s := Utf8Of(c) + rest;
    assert s[|Utf8Of(c)|..] == rest;
    if c < 0x80 {
    } else if c < 0x800 {
      assert s[0] == 0xC0 + c / 64 && s[1] == 0x80 + c % 64;
    } else if c < 0x1_0000 {
      assert s[0] == 0xE0 + c / 4096 && s[1] == 0x80 + c / 64 % 64 && s[2] == 0x80 + c % 64;
      assert c / 64 / 64 == c / 4096;
    } else {
      assert s[0] == 0xF0 + c / 262144 && s[1] == 0x80 + c / 4096 % 64;
      assert s[2] == 0x80 + c / 64 % 64 && s[3] == 0x80 + c % 64;
      assert c / 64 / 64 == c / 4096 && c / 4096 / 64 == c / 262144;
    }
  }

  /** The bytes written are the UTF-8 of the text: reading them gives it back. */
  lemma {:induction false} Utf8ReadsBack(text: seq<Scalar>)
    ensures FromUtf8(Utf8(text)) == Some(text)
  {
    if text != [] {
      Utf8ReadsBack(text[1..]);
      FirstCodeOf(text[0], Utf8(text[1..]));
      assert text == [text[0]] + text[1..];
    }
  }

  // ------------------------------------------------------- the terminated text

  function UnitOf(low: Byte, high: Byte): Unit {
    low as nat + 256 * (high as nat)
  }

  /** The units up to a zero, if there is one. */
  function UnitsOf(raw: Bytes): Option<seq<Unit>> {
    if |raw| < 2 then None
    else if UnitOf(raw[0], raw[1]) == 0 then Some([])
    else
      var rest := UnitsOf(raw[2..]);
      if rest.Some? then Some([UnitOf(raw[0], raw[1])] + rest.value) else None
  }

  function Bounded(text: seq<Scalar>): Decoded {
    if |Utf8(text)| > MAX_TEXT_BYTES then Unsupported else if text == [] then Empty else Text(Utf8(text))
  }

  function Decode(raw: Bytes): Decoded {
    if |raw| % 2 != 0 then Unsupported
    else
      match UnitsOf(raw)
      case None => Unsupported
      case Some(units) =>
        match Scalars(units)
        case None => Unsupported
        case Some(text) => Bounded(text)
  }

  function LittleEndian(units: seq<Unit>): Bytes {
    if units == [] then [] else [units[0] % 256, units[0] / 256] + LittleEndian(units[1..])
  }

  lemma {:induction false} UnitRoundTrip(u: Unit, low: Byte, high: Byte)
    ensures u == UnitOf(low, high) <==> low == u % 256 && high == u / 256
  {
  }

  /** The bytes begin with exactly these units and a terminator. */
  lemma {:induction false} UnitsOfExactly(raw: Bytes, units: seq<Unit>)
    ensures UnitsOf(raw) == Some(units) <==> 0 !in units && LittleEndian(units + [0]) <= raw
    decreases |raw|
  {
    if units == [] {
      assert units + [0] == [0] && [0][1..] == [];
      assert LittleEndian([0]) == [0, 0];
    } else if |raw| >= 2 {
      var u, tail := units[0], units[1..];
      assert units == [u] + tail && (units + [0])[1..] == tail + [0];
      UnitsOfExactly(raw[2..], tail);
      UnitRoundTrip(u, raw[0], raw[1]);
      PrefixAfterUnit(raw, u, LittleEndian(tail + [0]));
      assert UnitsOf(raw) == Some(units) ==> UnitsOf(raw[2..]) == Some(tail) by {
        if UnitsOf(raw) == Some(units) {
          assert UnitsOf(raw).value[1..] == UnitsOf(raw[2..]).value;
        }
      }
    }
  }

  lemma {:induction false} PrefixAfterUnit(raw: Bytes, u: Unit, tail: Bytes)
    requires |raw| >= 2
    ensures [u % 256, u / 256] + tail <= raw <==> raw[0] == u % 256 && raw[1] == u / 256 && tail <= raw[2..]
  {
    var whole := [u % 256, u / 256] + tail;
    assert whole[2..] == tail;
    if raw[0] == u % 256 && raw[1] == u / 256 && tail <= raw[2..] {
      assert whole == raw[..2] + raw[2..][..|tail|];
    }
    if whole <= raw {
      assert raw[..|whole|][2..] == raw[2..][..|tail|];
    }
  }

  /** Exactly which clipboard bytes yield text, and which text. */
  ghost predicate Spells(raw: Bytes, text: seq<Scalar>) {
    |raw| % 2 == 0 && 0 !in Utf16(text) && LittleEndian(Utf16(text) + [0]) <= raw
  }

  lemma {:induction false} DecodesExactlyWhatIsSpelled(raw: Bytes, text: seq<Scalar>)
    requires Spells(raw, text)
    ensures Decode(raw) == Bounded(text)
  {
    UnitsOfExactly(raw, Utf16(text));
    ScalarsInvertUtf16(Utf16(text), text);
  }

  lemma {:induction false} OnlySpelledTextDecodes(raw: Bytes) returns (text: seq<Scalar>)
    requires !Decode(raw).Unsupported?
    ensures Spells(raw, text) && Decode(raw) == Bounded(text) && |Utf8(text)| <= MAX_TEXT_BYTES
  {
    var units := UnitsOf(raw).value;
    text := Scalars(units).value;
    UnitsOfExactly(raw, units);
    ScalarsInvertUtf16(units, text);
  }

  /** The result is text exactly if the bytes spell it with a terminator and it
      is neither empty nor too long; and it is that text's UTF-8. */
  lemma {:induction false} TextExactly(raw: Bytes, text: seq<Scalar>)
    ensures Decode(raw) == Text(Utf8(text))
      <==> Spells(raw, text) && text != [] && |Utf8(text)| <= MAX_TEXT_BYTES
  {
    if Decode(raw) == Text(Utf8(text)) {
      var found := OnlySpelledTextDecodes(raw);
      Utf8ReadsBack(found);
      Utf8ReadsBack(text);
    } else if Spells(raw, text) {
      DecodesExactlyWhatIsSpelled(raw, text);
    }
  }

  // -------------------------------------------------------------- the loops

  method ReadUnits(raw: Bytes) returns (r: Option<seq<Unit>>)
    requires |raw| % 2 == 0
    ensures r == UnitsOf(raw)
  {
    var units: seq<Unit>, i := [], 0;
    assert raw[0..] == raw;
    assert UnitsOf(raw).Some? ==> [] + UnitsOf(raw).value == UnitsOf(raw).value;
    while i < |raw|
      invariant i <= |raw| && i % 2 == 0
      invariant UnitsOf(raw) == if UnitsOf(raw[i..]).Some? then Some(units + UnitsOf(raw[i..]).value) else None
    {
      var unit := UnitOf(raw[i], raw[i + 1]);
      assert raw[i..][2..] == raw[i + 2..];
      if unit == 0 {
        assert units + [] == units;
        return Some(units);
      }
      if UnitsOf(raw[i + 2..]).Some? {
        assert units + ([unit] + UnitsOf(raw[i + 2..]).value) == units + [unit] + UnitsOf(raw[i + 2..]).value;
      }
      units := units + [unit];
      i := i + 2;
    }
    return None;
  }

  function Ahead(done: seq<Scalar>, rest: Option<seq<Scalar>>): Option<seq<Scalar>> {
    if rest.Some? then Some(done + rest.value) else None
  }

  lemma {:induction false} AheadOneMore(done: seq<Scalar>, c: Scalar, rest: Option<seq<Scalar>>)
    ensures Ahead(done, Put(c, rest)) == Ahead(done + [c], rest)
  {
    if rest.Some? {
      assert done + ([c] + rest.value) == done + [c] + rest.value;
    }
  }

  lemma {:induction false} Associate(a: Bytes, b: Bytes, c: Bytes)
    ensures a + (b + c) == a + b + c
  {
  }

  lemma {:induction false} Utf8InTwo(first: seq<Scalar>, second: seq<Scalar>)
    ensures Utf8(first + second) == Utf8(first) + Utf8(second)
  {
    if first == [] {
      assert first + second == second;
    } else {
      Utf8InTwo(first[1..], second);
      assert (first + second)[1..] == first[1..] + second && (first + second)[0] == first[0];
      Associate(Utf8Of(first[0]), Utf8(first[1..]), Utf8(second));
    }
  }

  lemma {:induction false} Utf8OneMore(text: seq<Scalar>, c: Scalar)
    ensures Utf8(text + [c]) == Utf8(text) + Utf8Of(c)
  {
    Utf8InTwo(text, [c]);
    assert [c][1..] == [];
  }

  /** Re-encodes unit by unit and stops at the first character that does not fit. */
  method Reencode(units: seq<Unit>) returns (r: Decoded)
    ensures r == if Scalars(units).Some? then Bounded(Scalars(units).value) else Unsupported
  {
    var bytes: Bytes, i := [], 0;
    ghost var done: seq<Scalar> := [];
    assert units[0..] == units;
    assert Scalars(units).Some? ==> [] + Scalars(units).value == Scalars(units).value;
    while i < |units|
      invariant i <= |units| && bytes == Utf8(done) && |bytes| <= MAX_TEXT_BYTES
      invariant Scalars(units) == Ahead(done, Scalars(units[i..]))
    {
      ghost var rest := units[i..];
      var c: Scalar, n := 0, 1;
      if IsHigh(units[i]) {
        if i + 1 >= |units| || !IsLow(units[i + 1]) {
          return Unsupported;
        }
        c, n := Joined(units[i], units[i + 1]), 2;
      } else if IsLow(units[i]) {
        return Unsupported;
      } else {
        c := units[i];
      }
      assert rest[n..] == units[i + n..];
      AheadOneMore(done, c, Scalars(units[i + n..]));
      Utf8OneMore(done, c);
      if |bytes| + |Utf8Of(c)| > MAX_TEXT_BYTES {
        TooLong(done + [c], Scalars(units[i + n..]));
        return Unsupported;
      }
      bytes, done := bytes + Utf8Of(c), done + [c];
      i := i + n;
    }
    assert done + [] == done;
    return if bytes == [] then Empty else Text(bytes);
  }

  lemma {:induction false} TooLong(done: seq<Scalar>, rest: Option<seq<Scalar>>)
    requires |Utf8(done)| > MAX_TEXT_BYTES
    ensures Ahead(done, rest).Some? ==> Bounded(Ahead(done, rest).value) == Unsupported
  {
    if rest.Some? {
      Utf8InTwo(done, rest.value);
    }
  }

  method DecodeUnicodeText(raw: Bytes) returns (r: Decoded)
    ensures r == Decode(raw)
  {
    if |raw| % 2 != 0 {
      return Unsupported;
    }
    var units := ReadUnits(raw);
    if units.None? {
      return Unsupported;
    }
    r := Reencode(units.value);
  }
}
