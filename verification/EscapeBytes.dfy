module EscapeBytes {
  /**
   The URL and variable-name styles of escaping in src/common.rs:370-437 and 760-830, on the narrow
   strings they work on.
   */

  import opened Common
  import opened Wide

  predicate IsUpperHexDigit(c: char) {
    '0' <= c <= '9' || 'A' <= c <= 'F'
  }

  function UpperHexChar(d: nat): (c: char)
    requires d < 16
    ensures IsUpperHexDigit(c) && DigitValue(c, 16) == Some(d)
  {
    if d < 10 then ('0' as int + d) as char else ('A' as int + d - 10) as char
  }

  /** byte_to_hex */
  function ByteToHex(b: Byte): string {
    [UpperHexChar(b / 16), UpperHexChar(b % 16)]
  }

  predicate IsAlnumByte(b: Byte) {
    b < 128 && IsAsciiAlnum(b as char)
  }

  // ---------------------------------------------------------------- URL style

  predicate IsUrlSafe(b: Byte) {
    IsAlnumByte(b) || b == '/' as int || b == '.' as int || b == '~' as int || b == '-' as int || b == '_' as int
  }

  function UrlByte(b: Byte): string {
    if IsUrlSafe(b) then [b as char] else "%" + ByteToHex(b)
  }

  function EscapeUrl(input: seq<Byte>): string {
    if input == [] then "" else UrlByte(input[0]) + EscapeUrl(input[1..])
  }

  function Prepend(b: Byte, r: Option<seq<Byte>>): Option<seq<Byte>> {
    if r.Some? then Some([b] + r.value) else None
  }

  function UnescapeUrl(text: string): Option<seq<Byte>>
    decreases |text|
  {
    if text == "" then Some([])
    else if text[0] > 127 as char then None
    else if text[0] != '%' then Prepend(text[0] as int, UnescapeUrl(text[1..]))
    else
      var c1 := CharAt(text, 1);
      if c1 == '\0' then None
      else if c1 == '%' then Prepend('%' as int, UnescapeUrl(text[2..]))
      else if DigitValue(c1, 16).None? then None
      else
        var c2 := CharAt(text, 2);
        if c2 == '\0' || DigitValue(c2, 16).None? then None
        else Prepend(16 * DigitValue(c1, 16).value + DigitValue(c2, 16).value, UnescapeUrl(text[3..]))
  }

  lemma {:induction false} UrlRoundTrip(input: seq<Byte>)
    ensures UnescapeUrl(EscapeUrl(input)) == Some(input)
  {
    if input != [] {
      var b, tail := input[0], EscapeUrl(input[1..]);
      var text := EscapeUrl(input);
      UrlRoundTrip(input[1..]);
      assert input == [b] + input[1..];
      if IsUrlSafe(b) {
        assert text[1..] == tail;
      } else {
        assert text[0] == '%' && text[1] == UpperHexChar(b / 16) && text[2] == UpperHexChar(b % 16) && text[3..] == tail;
      }
    }
  }

  /** Section 2.3 of RFC 3986, plus the slash, which fish keeps, and the percent sign. */
  lemma {:induction false} UrlAlphabet(input: seq<Byte>)
    ensures forall c <- EscapeUrl(input) :: IsAscii(c) && (c == '%' || IsUrlSafe(c as int))
  {
    if input != [] {
      UrlAlphabet(input[1..]);
      assert forall c <- UrlByte(input[0]) :: IsAscii(c) && (c == '%' || IsUrlSafe(c as int));
    }
  }

  lemma {:induction false} UrlInjective(a: seq<Byte>, b: seq<Byte>)
    requires EscapeUrl(a) == EscapeUrl(b)
    ensures a == b
  {
    UrlRoundTrip(a);
    UrlRoundTrip(b);
  }

  lemma EscapeUrlNext(input: seq<Byte>, i: nat, out: string)
    requires i < |input|
    ensures out + EscapeUrl(input[i..]) == (out + UrlByte(input[i])) + EscapeUrl(input[i + 1..])
  {
    assert input[i..][1..] == input[i + 1..];
  }

  method EscapeStringUrl(input: seq<Byte>) returns (out: string)
    ensures out == EscapeUrl(input)
  {
    out := "";
    assert input[0..] == input;
    for i := 0 to |input|
      invariant EscapeUrl(input) == out + EscapeUrl(input[i..])
    {
      hide EscapeUrl;
      EscapeUrlNext(input, i, out);
      if IsUrlSafe(input[i]) {
        out := out + [input[i] as char];
      } else {
        out := out + ("%" + ByteToHex(input[i]));
      }
    }
    assert out + "" == out;
  }

  /** Puts the bytes read so far before what the rest unescapes to. */
  function After(read: seq<Byte>, r: Option<seq<Byte>>): Option<seq<Byte>> {
    if r.Some? then Some(read + r.value) else None
  }

  lemma AfterPrepend(read: seq<Byte>, b: Byte, r: Option<seq<Byte>>)
    ensures After(read, Prepend(b, r)) == After(read + [b], r)
  {
    if r.Some? {
      assert read + ([b] + r.value) == read + [b] + r.value;
    }
  }

  method UnescapeStringUrl(input: string) returns (r: Option<seq<Byte>>)
    ensures r == UnescapeUrl(input)
  {
    var result: seq<Byte> := [];
    var rest := input;
    if UnescapeUrl(input).Some? {
      assert [] + UnescapeUrl(input).value == UnescapeUrl(input).value;
    }
    while rest != ""
      invariant UnescapeUrl(input) == After(result, UnescapeUrl(rest))
      decreases |rest|
    {
      var c := rest[0];
      if c > 127 as char {
        return None;
      }
      var value, length := c as int, 1;
      if c == '%' {
        var c1 := CharAt(rest, 1);
        if c1 == '\0' {
          return None;
        } else if c1 == '%' {
          length := 2;
        } else {
          var d1 := DigitValue(c1, 16);
          if d1.None? {
            return None;
          }
          var d2 := DigitValue(CharAt(rest, 2), 16);
          if d2.None? {
            return None;
          }
          value, length := 16 * d1.value + d2.value, 3;
        }
      }
      AfterPrepend(result, value, UnescapeUrl(rest[length..]));
      result := result + [value];
      rest := rest[length..];
    }
    assert result + [] == result;
    return Some(result);
  }

  // ---------------------------------------------------------------- variable-name style

  predicate StaysBare(b: Byte, prevWasHex: bool) {
    IsAlnumByte(b) && (!prevWasHex || !IsUpperHexDigit(b as char))
  }

  /** What escape_string_var appends for one byte. */
  function VarByte(b: Byte, prevWasHex: bool): string {
    if StaysBare(b, prevWasHex) then (if prevWasHex then "_" else "") + [b as char]
    else if b == '_' as int then "__"
    else "_" + ByteToHex(b)
  }

  /** Whether a byte is hex-encoded by escape_string_var. */
  predicate IsHexEncoded(b: Byte, prevWasHex: bool) {
    !StaysBare(b, prevWasHex) && b != '_' as int
  }

  /** escape_string_var from the middle of its loop on. */
  function EscapeVarFrom(input: seq<Byte>, prevWasHex: bool): string
    decreases |input|
  {
    if input == [] then if prevWasHex then "_" else ""
    else VarByte(input[0], prevWasHex) + EscapeVarFrom(input[1..], IsHexEncoded(input[0], prevWasHex))
  }

  function EscapeVar(input: seq<Byte>): string {
    EscapeVarFrom(input, false)
  }

  /** unescape_string_var from the middle of its loop on; there the flag is never reset. */
  function UnescapeVarFrom(text: string, prevWasHex: bool): Option<seq<Byte>>
    decreases |text|
  {
    if text == "" then Some([])
    else if text[0] > 127 as char then None
    else if text[0] != '_' then Prepend(text[0] as int, UnescapeVarFrom(text[1..], prevWasHex))
    else
      var c1 := CharAt(text, 1);
      if c1 == '\0' then if prevWasHex then Some([]) else None
      else if c1 == '_' then Prepend('_' as int, UnescapeVarFrom(text[2..], prevWasHex))
      else if IsUpperHexDigit(c1) then
        var c2 := CharAt(text, 2);
        if c2 == '\0' || DigitValue(c2, 16).None? then None
        else Prepend(16 * DigitValue(c1, 16).value + DigitValue(c2, 16).value, UnescapeVarFrom(text[3..], true))
      else UnescapeVarFrom(text[1..], prevWasHex)
  }

  function UnescapeVar(text: string): Option<seq<Byte>> {
    UnescapeVarFrom(text, false)
  }

  /** The two machines agree as long as the reader's flag is set whenever the writer's is. */
  lemma {:induction false} VarRoundTripFrom(input: seq<Byte>, writer: bool, reader: bool)
    requires writer ==> reader
    ensures UnescapeVarFrom(EscapeVarFrom(input, writer), reader) == Some(input)
    decreases |input|
  {
    if input != [] {
      var b, rest := input[0], input[1..];
      var tail := EscapeVarFrom(rest, IsHexEncoded(b, writer));
      VarRoundTripFrom(rest, IsHexEncoded(b, writer), reader || IsHexEncoded(b, writer));
      VarByteRead(b, writer, reader, tail);
      assert input == [b] + rest;
    }
  }

  /** Reading one escaped byte. */
  lemma VarByteRead(b: Byte, writer: bool, reader: bool, tail: string)
    requires writer ==> reader
    ensures UnescapeVarFrom(VarByte(b, writer) + tail, reader) == Prepend(b, UnescapeVarFrom(tail, reader || IsHexEncoded(b, writer)))
  {
    var text := VarByte(b, writer) + tail;
    if StaysBare(b, writer) {
      var bare := [b as char] + tail;
      assert bare[1..] == tail;
      assert UnescapeVarFrom(bare, reader) == Prepend(b, UnescapeVarFrom(tail, reader));
      if writer {
        assert text[0] == '_' && text[1..] == bare;
      } else {
        assert text == bare;
      }
    } else if b == '_' as int {
      assert text[0] == '_' && text[1] == '_' && text[2..] == tail;
    } else {
      assert text[0] == '_' && text[1] == UpperHexChar(b / 16) && text[2] == UpperHexChar(b % 16) && text[3..] == tail;
    }
  }

  lemma VarRoundTrip(input: seq<Byte>)
    ensures UnescapeVar(EscapeVar(input)) == Some(input)
  {
    VarRoundTripFrom(input, false, false);
  }

  lemma VarInjective(a: seq<Byte>, b: seq<Byte>)
    requires EscapeVar(a) == EscapeVar(b)
    ensures a == b
  {
    VarRoundTrip(a);
    VarRoundTrip(b);
  }

  /** Whatever the bytes, the escaped text only uses characters allowed in a variable name. */
  lemma {:induction false} VarAlphabet(input: seq<Byte>, prevWasHex: bool)
    ensures forall c <- EscapeVarFrom(input, prevWasHex) :: IsAsciiAlnum(c) || c == '_'
    decreases |input|
  {
    if input != [] {
      VarAlphabet(input[1..], IsHexEncoded(input[0], prevWasHex));
    }
  }

  lemma VarStep(out: string, input: seq<Byte>, i: nat, prevWasHex: bool)
    requires i < |input|
    ensures out + EscapeVarFrom(input[i..], prevWasHex)
            == (out + VarByte(input[i], prevWasHex)) + EscapeVarFrom(input[i + 1..], IsHexEncoded(input[i], prevWasHex))
  {
    assert input[i..][0] == input[i] && input[i..][1..] == input[i + 1..];
  }

  method EscapeStringVar(input: seq<Byte>) returns (out: string)
    ensures out == EscapeVar(input)
  {
    var prevWasHex := false;
    out := "";
    for i := 0 to |input|
      invariant EscapeVar(input) == out + EscapeVarFrom(input[i..], prevWasHex)
    {
      var b := input[i];
      ghost var before, prev := out, prevWasHex;
      VarStep(out, input, i, prevWasHex);
      if StaysBare(b, prevWasHex) {
        if prevWasHex {
          out := out + "_";
          prevWasHex := false;
        }
        out := out + [b as char];
      } else if b == '_' as int {
        out := out + "__";
        prevWasHex := false;
      } else {
        out := out + "_" + ByteToHex(b);
        prevWasHex := true;
      }
      assert out == before + VarByte(b, prev);
    }
    if prevWasHex {
      out := out + "_";
    }
  }

  method UnescapeStringVar(input: string) returns (r: Option<seq<Byte>>)
    ensures r == UnescapeVar(input)
  {
    var result: seq<Byte> := [];
    var prevWasHex := false;
    var rest := input;
    if UnescapeVar(input).Some? {
      assert [] + UnescapeVar(input).value == UnescapeVar(input).value;
    }
    while rest != ""
      invariant UnescapeVar(input) == After(result, UnescapeVarFrom(rest, prevWasHex))
      decreases |rest|
    {
      var c := rest[0];
      if c > 127 as char {
        return None;
      }
      if c != '_' {
        AfterPrepend(result, c as int, UnescapeVarFrom(rest[1..], prevWasHex));
        result := result + [c as int];
        rest := rest[1..];
        continue;
      }
      var c1 := CharAt(rest, 1);
      if c1 == '\0' {
        if prevWasHex {
          break;
        }
        return None;
      } else if c1 == '_' {
        AfterPrepend(result, '_' as int, UnescapeVarFrom(rest[2..], prevWasHex));
        result := result + ['_' as int];
        rest := rest[2..];
      } else if IsUpperHexDigit(c1) {
        var d1, d2 := DigitValue(c1, 16), DigitValue(CharAt(rest, 2), 16);
        if d2.None? {
          return None;
        }
        AfterPrepend(result, 16 * d1.value + d2.value, UnescapeVarFrom(rest[3..], true));
        result := result + [16 * d1.value + d2.value];
        rest := rest[3..];
        prevWasHex := true;
      } else {
        rest := rest[1..];
      }
    }
    assert result + [] == result;
    return Some(result);
  }
}
