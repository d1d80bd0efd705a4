module Escape {
  /**
   Escaping and unescaping for use in fish script (src/common.rs:182-366, 492-756, 834-1011;
   src/parse_util.rs:681-734).
   */

  import opened Common
  import opened Wide

  // ---------------------------------------------------------------- unescaping script

  datatype Mode = Unquoted | SingleQuotes | DoubleQuotes

  /** UnescapeFlags and the two feature flags the code asks for. */
  datatype UnescapeFlags = UnescapeFlags(
    special: bool,
    incomplete: bool,
    noBackslashes: bool,
    qmarkNoglob: bool,
    removePercentSelf: bool)

  /** The outcome of unescaping. `Braces` stands for texts with an active unquoted brace,
      whose bookkeeping (src/common.rs:595-649) is not part of this model. */
  datatype Unescaped = Text(text: string) | Malformed | Braces

  /** What reading one escape appends and leaves to be read; `NoEscape` is fish's None. */
  datatype Escaped = NoEscape | Read(appended: string, rest: string)

  function ReadDigits(rest: string, base: nat, chars: nat, value: nat): (r: (nat, string))
    ensures |r.1| <= |rest|
  {
    if chars == 0 then (value, rest)
    else
      match DigitValue(CharAt(rest, 0), base)
      case None => (value, rest)
      case Some(d) =>
        DigitIsNotNul(CharAt(rest, 0), base);
        ReadDigits(rest[1..], base, chars - 1, value * base + d)
  }

  lemma DigitIsNotNul(c: char, base: nat)
    requires DigitValue(c, base).Some?
    ensures c != '\0'
  {
  }

  /** char::from_u32, with the replacement character for surrogates. */
  function CharFromU32(n: nat): char {
    if n < 0xD800 || 0xE000 <= n < 0x11_0000 then n as char else '\U{FFFD}'
  }

  predicate StartsByteEscape(rest: string) {
    |rest| >= 2 && rest[0] == '\\' && (rest[1] == 'x' || rest[1] == 'X')
  }

  /** read_unquoted_escape: `rest` is what follows the backslash, `bytes` the byte escapes read so far. */
  function ReadEscape(loc: Locale, rest: string, bytes: seq<Byte>, incomplete: bool, special: bool): (r: Escaped)
    ensures r.Read? ==> |r.rest| <= |rest|
    decreases |rest|
  {
    var c := CharAt(rest, 0);
    var before := if bytes == [] then "" else loc.decode(bytes);
    if c == '\0' then
      if incomplete then Read(before, rest) else NoEscape
    else if c == 'x' || c == 'X' then
      var (value, after) := ReadDigits(rest[1..], 16, 2, 0);
      if |after| == |rest| - 1 || value > 255 then NoEscape
      else if StartsByteEscape(after) then ReadEscape(loc, after[1..], bytes + [value], incomplete, special)
      else Read(loc.decode(bytes + [value]), after)
    else if c == 'u' || c == 'U' then
      var (value, after) := ReadDigits(rest[1..], 16, if c == 'u' then 4 else 8, 0);
      if |after| == |rest| - 1 || value > (if c == 'u' then 0xFFFF else 0x10FFFF) then NoEscape
      else Finished(before, CharFromU32(value), after)
    else if '0' <= c <= '7' then
      var (value, after) := ReadDigits(rest, 8, 3, 0);
      if value > 127 then NoEscape else Finished(before, CharFromU32(value), after)
    else if c == 'c' then
      var d := CharAt(rest, 1) as int;
      if 'a' as int <= d <= 'a' as int + 32 then Finished(before, (d - 'a' as int + 1) as char, rest[2..])
      else if 'A' as int <= d <= 'A' as int + 32 then Finished(before, (d - 'A' as int + 1) as char, rest[2..])
      else NoEscape
    else if c == '\n' then Read(before, rest[1..])
    else
      match NamedEscape(c)
      case Some(named) => Finished(before, named, rest[1..])
      case None => Finished((if special then [INTERNAL_SEPARATOR] else "") + before, c, rest[1..])
  }

  function NamedEscape(c: char): Option<char> {
    match c
    case 'a' => Some(7 as char)
    case 'b' => Some(8 as char)
    case 'e' => Some(27 as char)
    case 'f' => Some(12 as char)
    case 'n' => Some('\n')
    case 'r' => Some('\r')
    case 't' => Some('\t')
    case 'v' => Some(11 as char)
    case _ => None
  }

  function Finished(before: string, c: char, rest: string): Escaped {
    if Reserved(c) then NoEscape else Read(before + [c], rest)
  }

  /** The loop of unescape_string_internal: `rest` is still to be read, `out` was appended so far,
      `first` says that nothing was read yet. */
  function UnescapeFrom(loc: Locale, flags: UnescapeFlags, rest: string, first: bool, mode: Mode, out: string): Unescaped
    decreases |rest|
  {
    if rest == "" then Text(out)
    else
      match mode
      case Unquoted => UnescapeUnquoted(loc, flags, rest, first, out)
      case SingleQuotes =>
        if rest[0] == '\'' then
          UnescapeFrom(loc, flags, rest[1..], false, Unquoted, out + QuoteMark(flags))
        else if rest[0] != '\\' then
          UnescapeFrom(loc, flags, rest[1..], false, mode, out + [rest[0]])
        else
          var next := CharAt(rest, 1);
          if next == '\\' || next == '\'' then
            UnescapeFrom(loc, flags, rest[2..], false, mode, out + [next])
          else if next == '\0' then
            if flags.incomplete then
              UnescapeFrom(loc, flags, if |rest| == 1 then "" else rest[2..], false, mode, out + ['\\'])
            else Malformed
          else UnescapeFrom(loc, flags, rest[1..], false, mode, out + ['\\'])
      case DoubleQuotes =>
        if rest[0] == '"' then
          UnescapeFrom(loc, flags, rest[1..], false, Unquoted, out + QuoteMark(flags))
        else if rest[0] == '$' && flags.special then
          UnescapeFrom(loc, flags, rest[1..], false, mode, out + [VARIABLE_EXPAND_SINGLE])
        else if rest[0] != '\\' then
          UnescapeFrom(loc, flags, rest[1..], false, mode, out + [rest[0]])
        else
          var next := CharAt(rest, 1);
          if next == '\0' then
            if flags.incomplete then UnescapeFrom(loc, flags, rest[1..], false, mode, out + ['\0']) else Malformed
          else if next == '\\' || next == '$' || next == '"' then
            UnescapeFrom(loc, flags, rest[2..], false, mode, out + [next])
          else if next == '\n' then
            UnescapeFrom(loc, flags, rest[2..], false, mode, out)
          else UnescapeFrom(loc, flags, rest[1..], false, mode, out + ['\\'])
  }

  function QuoteMark(flags: UnescapeFlags): string {
    if flags.special then [INTERNAL_SEPARATOR] else ""
  }

  function UnescapeUnquoted(loc: Locale, flags: UnescapeFlags, rest: string, first: bool, out: string): Unescaped
    requires rest != ""
    decreases |rest|, 0
  {
    var c := rest[0];
    if c == '\\' && !flags.noBackslashes then
      match ReadEscape(loc, rest[1..], [], flags.incomplete, flags.special)
      case NoEscape => Malformed
      case Read(appended, after) => UnescapeFrom(loc, flags, after, false, Unquoted, out + appended)
    else if c == '\'' then
      UnescapeFrom(loc, flags, rest[1..], false, SingleQuotes, out + QuoteMark(flags))
    else if c == '"' then
      UnescapeFrom(loc, flags, rest[1..], false, DoubleQuotes, out + QuoteMark(flags))
    else if !flags.special then
      UnescapeFrom(loc, flags, rest[1..], false, Unquoted, out + [c])
    else if c == '{' || c == '}' then
      Braces
    else if c == '%' && first && !flags.removePercentSelf && rest == "%self" then
      UnescapeFrom(loc, flags, "", false, Unquoted, out + [PROCESS_EXPAND_SELF])
    else if c == '*' && out != "" && out[|out| - 1] == ANY_STRING then
      UnescapeFrom(loc, flags, rest[1..], false, Unquoted, out[..|out| - 1] + [ANY_STRING_RECURSIVE])
    else
      UnescapeFrom(loc, flags, rest[1..], false, Unquoted, out + [SpecialChar(flags, rest, first)])
  }

  /** What an unquoted character other than a brace, quote or backslash becomes under SPECIAL. */
  function SpecialChar(flags: UnescapeFlags, rest: string, first: bool): char
    requires rest != ""
  {
    match rest[0]
    case '~' => if first then HOME_DIRECTORY else '~'
    case '*' => ANY_STRING
    case '?' => if flags.qmarkNoglob then '?' else ANY_CHAR
    case '$' => if |rest| > 1 && rest[1] == '(' then '$' else VARIABLE_EXPAND
    case c => c
  }

  /** unescape_string in script style. */
  function UnescapeScript(loc: Locale, flags: UnescapeFlags, input: string): Unescaped {
    UnescapeFrom(loc, flags, input, true, Unquoted, "")
  }

  // ---------------------------------------------------------------- escaping script

  datatype EscapeFlags = EscapeFlags(noPrintables: bool, noQuoted: bool, noTilde: bool, comma: bool, qmarkNoglob: bool)

  predicate IsSyntax(c: char) {
    || c == '&' || c == '$' || c == ' ' || c == '#' || c == '<' || c == '>' || c == '(' || c == ')'
    || c == '[' || c == ']' || c == '{' || c == '}' || c == '?' || c == '*' || c == '|' || c == ';'
    || c == '"' || c == '%' || c == '~'
  }

  predicate IsNormal(flags: EscapeFlags, c: char) {
    (c == '~' && flags.noTilde) || (c == '?' && flags.qmarkNoglob)
  }

  predicate IsComplex(c: char) {
    DirectlyEncoded(c) || c == 127 as char || c == 27 as char || c <= 25 as char
  }

  predicate NeedsEscape(flags: EscapeFlags, c: char) {
    IsComplex(c) || c == '\\' || c == '\'' || (c == ',' && flags.comma) || (IsSyntax(c) && !IsNormal(flags, c))
  }

  /** What escape_string_script appends for one character. */
  function EscapedChar(flags: EscapeFlags, c: char): string {
    if DirectlyEncoded(c) then "\\X" + Hex(c as int - 0xF600, 2)
    else if c == '\t' then "\\t"
    else if c == '\n' then "\\n"
    else if c == 8 as char then "\\b"
    else if c == '\r' then "\\r"
    else if c == 27 as char then "\\e"
    else if c == 127 as char then "\\x7f"
    else if c == '\\' then "\\\\"
    else if c == '\'' then if flags.noPrintables then "'" else "\\'"
    else if c == ANY_CHAR then "?"
    else if c == ANY_STRING then "*"
    else if c == ANY_STRING_RECURSIVE then "**"
    else if c == ',' then if flags.comma then "\\," else ","
    else if IsSyntax(c) then if IsNormal(flags, c) || flags.noPrintables then [c] else ['\\', c]
    else if c == '\0' then "\\x00"
    else if c <= 25 as char then "\\c" + [('a' as int + c as int - 1) as char]
    else [c]
  }

  function EscapedChars(flags: EscapeFlags, s: string): string {
    if s == "" then "" else EscapedChar(flags, s[0]) + EscapedChars(flags, s[1..])
  }

  function Count(s: string, chars: string): nat {
    if s == "" then 0 else (if s[0] in chars then 1 else 0) + Count(s[1..], chars)
  }

  /** The quote that needs fewer escapes. */
  function BestQuote(s: string): char {
    if Count(s, "'") > Count(s, "\"") + Count(s, "$") then '"' else '\''
  }

  /** parse_util_escape_string_with_quote (src/parse_util.rs:681-734), one character. */
  function QuotedChar(quote: char, c: char): string {
    match c
    case '\n' => [quote, '\\', 'n', quote]
    case '\t' => [quote, '\\', 't', quote]
    case '\r' => [quote, '\\', 'r', quote]
    case '\\' => "\\\\"
    case '$' => if quote == '"' then "\\$" else "$"
    case _ =>
      if c == 8 as char then [quote, '\\', 'b', quote]
      else if c == quote then ['\\', c]
      else [c]
  }

  function QuotedChars(quote: char, s: string): string {
    if s == "" then "" else QuotedChar(quote, s[0]) + QuotedChars(quote, s[1..])
  }

  /** Whether the escaped text is a quoted string. */
  predicate UsesQuotes(flags: EscapeFlags, s: string) {
    && !flags.noQuoted && !flags.noPrintables
    && !(flags.noTilde && CharAt(s, 0) == '~')
    && (exists i :: 0 <= i < |s| && NeedsEscape(flags, s[i]))
    && (forall i :: 0 <= i < |s| ==> !IsComplex(s[i]))
  }

  /** escape_string in script style. */
  function EscapeScript(flags: EscapeFlags, s: string): string {
    if !flags.noQuoted && s == "" then "''"
    else if UsesQuotes(flags, s) then
      var quote := BestQuote(s);
      [quote] + QuotedChars(quote, s) + [quote]
    else EscapedChars(flags, s)
  }

  // ---------------------------------------------------------------- reading back byte escapes

  lemma {:induction false} ReadHexDigits(n: nat, width: nat, extra: nat, rest: string)
    requires n < Pow16(width)
    ensures ReadDigits(Hex(n, width) + rest, 16, width + extra, 0) == ReadDigits(rest, 16, extra, n)
  {
    if width == 0 {
      assert Hex(n, width) + rest == rest;
    } else {
      var digit := [HexChar(n % 16)];
      assert Hex(n, width) + rest == Hex(n / 16, width - 1) + (digit + rest);
      ReadHexDigits(n / 16, width - 1, extra + 1, digit + rest);
      assert DigitValue((digit + rest)[0], 16) == Some(n % 16);
      assert (digit + rest)[1..] == rest;
    }
  }

  function HexBytes(bytes: seq<Byte>): string {
    if bytes == [] then "" else "\\x" + Hex(bytes[0], 2) + HexBytes(bytes[1..])
  }

  /** Adjacent byte escapes are decoded together. */
  lemma FirstByteRead(loc: Locale, bytes: seq<Byte>, tail: string, before: seq<Byte>, incomplete: bool, special: bool)
    requires bytes != [] && !StartsByteEscape(tail)
    ensures var after := HexBytes(bytes[1..]) + tail;
            ReadEscape(loc, (HexBytes(bytes) + tail)[1..], before, incomplete, special)
            == if |bytes| > 1 then ReadEscape(loc, after[1..], before + [bytes[0]], incomplete, special)
               else Read(loc.decode(before + [bytes[0]]), after)
  {
    var text := (HexBytes(bytes) + tail)[1..];
    var after := HexBytes(bytes[1..]) + tail;
    hide Hex, HexBytes, StartsByteEscape, ReadEscape, ReadDigits;
    FirstHexByte(bytes, tail);
    MoreHexBytes(bytes[1..], tail);
    ByteDigits(bytes[0], after);
    ReadsByte(loc, text, bytes[0], after, before, incomplete, special);
  }

  lemma FirstHexByte(bytes: seq<Byte>, tail: string)
    requires bytes != []
    ensures var text := (HexBytes(bytes) + tail)[1..];
            text != "" && (text[0] == 'X' || text[0] == 'x') && text[1..] == Hex(bytes[0], 2) + (HexBytes(bytes[1..]) + tail)
  {
    hide Hex;
    AfterBackslash(Hex(bytes[0], 2), HexBytes(bytes[1..]), tail);
    assert HexBytes(bytes) == "\\x" + Hex(bytes[0], 2) + HexBytes(bytes[1..]);
  }

  lemma AfterBackslash(hex: string, more: string, tail: string)
    ensures ("\\x" + hex + more + tail)[1..] == "x" + (hex + (more + tail))
    ensures ("x" + (hex + (more + tail)))[1..] == hex + (more + tail)
  {
  }

  lemma MoreHexBytes(bytes: seq<Byte>, tail: string)
    requires !StartsByteEscape(tail)
    ensures StartsByteEscape(HexBytes(bytes) + tail) <==> bytes != []
    ensures bytes == [] ==> HexBytes(bytes) + tail == tail
  {
    hide Hex;
  }

  lemma ByteDigits(b: Byte, after: string)
    ensures ReadDigits(Hex(b, 2) + after, 16, 2, 0) == (b, after) && |Hex(b, 2)| == 2
  {
    assert Pow16(2) == 256;
    ReadHexDigits(b, 2, 0, after);
  }

  lemma ReadsByte(loc: Locale, text: string, b: Byte, after: string, before: seq<Byte>, incomplete: bool, special: bool)
    requires text != "" && (text[0] == 'x' || text[0] == 'X')
    requires ReadDigits(text[1..], 16, 2, 0) == (b, after) && |after| < |text| - 1
    ensures ReadEscape(loc, text, before, incomplete, special)
            == if StartsByteEscape(after) then ReadEscape(loc, after[1..], before + [b], incomplete, special)
               else Read(loc.decode(before + [b]), after)
  {
  }

  lemma {:induction false} ReadByteRun(loc: Locale, bytes: seq<Byte>, tail: string, before: seq<Byte>, incomplete: bool, special: bool)
    requires bytes != [] && !StartsByteEscape(tail)
    ensures ReadEscape(loc, (HexBytes(bytes) + tail)[1..], before, incomplete, special) == Read(loc.decode(before + bytes), tail)
    decreases |bytes|
  {
    var after := HexBytes(bytes[1..]) + tail;
    FirstByteRead(loc, bytes, tail, before, incomplete, special);
    if |bytes| > 1 {
      hide ReadEscape, HexBytes;
      ReadByteRun(loc, bytes[1..], tail, before + [bytes[0]], incomplete, special);
      assert before + [bytes[0]] + bytes[1..] == before + bytes;
    } else {
      assert after == tail;
      assert before + [bytes[0]] == before + bytes;
    }
  }

  // ---------------------------------------------------------------- unescape undoes escape

  lemma {:induction false} PlainHasNoSeparators(s: string)
    requires Plain(s)
    ensures Stripped(s) == s
  {
    if s != "" {
      PlainHasNoSeparators(s[1..]);
    }
  }

  /** `t` reads as `s`: exactly, or under SPECIAL up to internal separators. */
  predicate Reads(special: bool, t: string, s: string) {
    Stripped(t) == s && (!special ==> t == s)
  }

  lemma ReadsConcat(special: bool, t: string, s: string, t': string, s': string)
    requires Reads(special, t, s) && Reads(special, t', s')
    ensures Reads(special, t + t', s + s')
  {
    StrippedConcat(t, t');
  }

  /** Characters escape_string_script writes as byte escapes. */
  predicate IsByteEscaped(c: char) {
    c == '\0' || c == 127 as char
  }

  predicate AllByteEscaped(s: string) {
    forall i :: 0 <= i < |s| ==> IsByteEscaped(s[i])
  }

  lemma HexBytesCons(b: Byte, bytes: seq<Byte>, tail: string)
    ensures HexBytes([b] + bytes) + tail == "\\x" + Hex(b, 2) + (HexBytes(bytes) + tail)
  {
    assert ([b] + bytes)[1..] == bytes;
  }

  lemma EscapedCharsCons(flags: EscapeFlags, c: char, s: string)
    ensures EscapedChars(flags, [c] + s) == EscapedChar(flags, c) + EscapedChars(flags, s)
  {
    assert ([c] + s)[1..] == s;
  }

  lemma {:induction false} EscapedRun(flags: EscapeFlags, run: string, rest: string)
    requires AllByteEscaped(run)
    ensures EscapedChars(flags, run + rest) == HexBytes(BytesOf(run)) + EscapedChars(flags, rest)
  {
    if run == "" {
      assert run + rest == rest;
    } else {
      var c, run' := run[0], run[1..];
      calc {
        EscapedChars(flags, run + rest);
        { assert run + rest == [c] + (run' + rest); EscapedCharsCons(flags, c, run' + rest); }
        EscapedChar(flags, c) + EscapedChars(flags, run' + rest);
        { EscapedRun(flags, run', rest); ByteEscapedChar(flags, c); }
        "\\x" + Hex(c as int, 2) + (HexBytes(BytesOf(run')) + EscapedChars(flags, rest));
        { HexBytesCons(c as int, BytesOf(run'), EscapedChars(flags, rest)); }
        HexBytes([c as int] + BytesOf(run')) + EscapedChars(flags, rest);
      }
    }
  }

  lemma ByteEscapedChar(flags: EscapeFlags, c: char)
    requires IsByteEscaped(c)
    ensures EscapedChar(flags, c) == "\\x" + Hex(c as int, 2)
  {
    assert Hex(0, 2) == Hex(0, 1) + "0" == "00";
    assert Hex(127, 2) == Hex(7, 1) + "f" == "7f";
  }

  lemma StartOfEscaped(flags: EscapeFlags, s: string)
    requires s != "" ==> !IsByteEscaped(s[0])
    requires Plain(s)
    ensures !StartsByteEscape(EscapedChars(flags, s))
  {
    if s != "" {
      var e := EscapedChar(flags, s[0]);
      assert EscapedChars(flags, s)[0] == e[0];
      if e[0] == '\\' && |e| > 1 {
        assert EscapedChars(flags, s)[1] == e[1];
      }
    }
  }

  predicate RoundTripFlags(ef: EscapeFlags, uf: UnescapeFlags) {
    !ef.noPrintables && !uf.noBackslashes && uf.qmarkNoglob == ef.qmarkNoglob
  }

  predicate ActiveTilde(ef: EscapeFlags, uf: UnescapeFlags, s: string) {
    uf.special && ef.noTilde && CharAt(s, 0) == '~'
  }

  /** A character that is written as itself. */
  lemma BareStep(loc: Locale, ef: EscapeFlags, uf: UnescapeFlags, c: char, tail: string, first: bool, out: string)
    requires RoundTripFlags(ef, uf) && !Reserved(c) && EscapedChar(ef, c) == [c]
    requires first ==> !ActiveTilde(ef, uf, [c])
    ensures UnescapeFrom(loc, uf, [c] + tail, first, Unquoted, out) == UnescapeFrom(loc, uf, tail, false, Unquoted, out + [c])
  {
    var text := [c] + tail;
    assert text[0] == c && text[1..] == tail;
    assert c != '\\' && c != '\'' && c != '"';
    if uf.special {
      assert c != '{' && c != '}' && c != '%' && c != '*' && c != '$';
      assert SpecialChar(uf, text, first) == c;
    }
  }

  /** The character `x` after a backslash reads as `c`. */
  predicate PairReads(x: char, c: char) {
    || NamedEscape(x) == Some(c)
    || (x == c && NamedEscape(x).None? && !('0' <= x <= '7')
        && x != 'x' && x != 'X' && x != 'u' && x != 'U' && x != 'c' && x != '\n' && x != '\0')
  }

  lemma EscapedPair(ef: EscapeFlags, c: char)
    requires !ef.noPrintables && !Reserved(c) && |EscapedChar(ef, c)| == 2
    ensures EscapedChar(ef, c) == ['\\', EscapedChar(ef, c)[1]]
    ensures PairReads(EscapedChar(ef, c)[1], c)
  {
  }

  lemma ReadPair(loc: Locale, x: char, c: char, tail: string, incomplete: bool, special: bool)
    requires PairReads(x, c) && !Reserved(c)
    ensures ReadEscape(loc, [x] + tail, [], incomplete, special)
            == Read(if special && NamedEscape(x).None? then [INTERNAL_SEPARATOR, c] else [c], tail)
  {
    assert ([x] + tail)[1..] == tail;
    if special {
      assert [INTERNAL_SEPARATOR] + "" + [c] == [INTERNAL_SEPARATOR, c];
    }
    assert "" + [c] == [c];
  }

  /** A character that is written as a backslash and one more. */
  lemma PairStep(loc: Locale, ef: EscapeFlags, uf: UnescapeFlags, c: char, tail: string, first: bool, out: string)
    returns (t: string)
    requires RoundTripFlags(ef, uf) && !Reserved(c) && |EscapedChar(ef, c)| == 2
    ensures Reads(uf.special, t, [c])
    ensures UnescapeFrom(loc, uf, EscapedChar(ef, c) + tail, first, Unquoted, out)
            == UnescapeFrom(loc, uf, tail, false, Unquoted, out + t)
  {
    var x := EscapedChar(ef, c)[1];
    var text := ['\\', x] + tail;
    EscapedPair(ef, c);
    assert text[1..] == [x] + tail;
    ReadPair(loc, x, c, tail, uf.incomplete, uf.special);
    t := if uf.special && NamedEscape(x).None? then [INTERNAL_SEPARATOR, c] else [c];
    assert Stripped([c]) == [c];
    assert t == [c] || t[1..] == [c];
  }

  /** A control character that is written as backslash, c and a letter. */
  lemma ControlStep(loc: Locale, ef: EscapeFlags, uf: UnescapeFlags, c: char, tail: string, first: bool, out: string)
    requires RoundTripFlags(ef, uf) && !Reserved(c) && |EscapedChar(ef, c)| == 3
    ensures UnescapeFrom(loc, uf, EscapedChar(ef, c) + tail, first, Unquoted, out)
            == UnescapeFrom(loc, uf, tail, false, Unquoted, out + [c])
  {
    var e := EscapedChar(ef, c);
    var text := e + tail;
    assert e[..2] == "\\c";
    assert text[0] == '\\' && text[1..] == e[1..] + tail;
    assert text[1..][0] == 'c' && text[1..][1] == e[2] && text[1..][2..] == tail;
    assert ReadEscape(loc, text[1..], [], uf.incomplete, uf.special) == Read([c], tail);
  }

  /** One character that is not written as a byte escape. */
  lemma StepUnescapes(loc: Locale, ef: EscapeFlags, uf: UnescapeFlags, c: char, tail: string, first: bool, out: string)
    returns (t: string)
    requires RoundTripFlags(ef, uf) && !Reserved(c) && !IsByteEscaped(c)
    requires first ==> !ActiveTilde(ef, uf, [c])
    ensures Reads(uf.special, t, [c])
    ensures UnescapeFrom(loc, uf, EscapedChar(ef, c) + tail, first, Unquoted, out)
            == UnescapeFrom(loc, uf, tail, false, Unquoted, out + t)
  {
    assert Stripped([c]) == [c];
    if |EscapedChar(ef, c)| == 1 {
      t := [c];
      BareStep(loc, ef, uf, c, tail, first, out);
    } else if |EscapedChar(ef, c)| == 2 {
      t := PairStep(loc, ef, uf, c, tail, first, out);
    } else {
      t := [c];
      ControlStep(loc, ef, uf, c, tail, first, out);
    }
  }

  /** The leading byte escapes of an escaped text are read in one go. */
  lemma RunUnescapes(loc: Locale, ef: EscapeFlags, uf: UnescapeFlags, run: string, rest: string, first: bool, out: string)
    requires AsciiTransparent(loc) && !uf.noBackslashes && Plain(rest)
    requires run != "" && AllByteEscaped(run) && (rest != "" ==> !IsByteEscaped(rest[0]))
    ensures UnescapeFrom(loc, uf, EscapedChars(ef, run + rest), first, Unquoted, out)
            == UnescapeFrom(loc, uf, EscapedChars(ef, rest), false, Unquoted, out + run)
  {
    var bytes := BytesOf(run);
    var tail := EscapedChars(ef, rest);
    var text := HexBytes(bytes) + tail;
    EscapedRun(ef, run, rest);
    StartOfEscaped(ef, rest);
    ReadByteRun(loc, bytes, tail, [], uf.incomplete, uf.special);
    assert [] + bytes == bytes;
    assert loc.decode(bytes) == run;
    assert text[0] == '\\';
  }

  /** The first characters of an escaped text, as many as are read at once. */
  lemma HeadUnescapes(loc: Locale, ef: EscapeFlags, uf: UnescapeFlags, s: string, first: bool, out: string)
    returns (n: nat, t: string)
    requires AsciiTransparent(loc) && RoundTripFlags(ef, uf) && Plain(s) && s != ""
    requires first ==> !ActiveTilde(ef, uf, s)
    ensures 0 < n <= |s| && Reads(uf.special, t, s[..n])
    ensures UnescapeFrom(loc, uf, EscapedChars(ef, s), first, Unquoted, out)
            == UnescapeFrom(loc, uf, EscapedChars(ef, s[n..]), false, Unquoted, out + t)
  {
    if IsByteEscaped(s[0]) {
      n := RunLength(IsByteEscaped, s);
      t := s[..n];
      assert s == s[..n] + s[n..];
      RunUnescapes(loc, ef, uf, s[..n], s[n..], first, out);
      PlainHasNoSeparators(s[..n]);
    } else {
      n := 1;
      t := StepUnescapes(loc, ef, uf, s[0], EscapedChars(ef, s[1..]), first, out);
      assert s[..1] == [s[0]];
    }
  }

  lemma {:induction false} CharsUnescape(loc: Locale, ef: EscapeFlags, uf: UnescapeFlags, s: string, first: bool, out: string)
    returns (t: string)
    requires AsciiTransparent(loc) && RoundTripFlags(ef, uf) && Plain(s)
    requires first ==> !ActiveTilde(ef, uf, s)
    ensures Reads(uf.special, t, s)
    ensures UnescapeFrom(loc, uf, EscapedChars(ef, s), first, Unquoted, out) == Text(out + t)
    decreases |s|
  {
    hide UnescapeFrom, EscapedChars, ActiveTilde, RoundTripFlags, Reads;
    if s == "" {
      t := "";
      NothingUnescapes(loc, ef, uf, first, out);
    } else {
      var n, t0 := HeadUnescapes(loc, ef, uf, s, first, out);
      var t' := CharsUnescape(loc, ef, uf, s[n..], false, out + t0);
      t := t0 + t';
      ReadsConcat(uf.special, t0, s[..n], t', s[n..]);
      assert s[..n] + s[n..] == s;
      assert out + t0 + t' == out + t;
    }
  }

  lemma NothingUnescapes(loc: Locale, ef: EscapeFlags, uf: UnescapeFlags, first: bool, out: string)
    ensures Reads(uf.special, "", "")
    ensures UnescapeFrom(loc, uf, EscapedChars(ef, ""), first, Unquoted, out) == Text(out + "")
  {
    assert out + "" == out;
  }

  // ---------------------------------------------------------------- quoted text

  lemma {:induction false} QuotedUnescapes(loc: Locale, uf: UnescapeFlags, quote: char, s: string, out: string)
    requires !uf.noBackslashes && (quote == '"' || quote == '\'')
    requires forall i :: 0 <= i < |s| ==> !IsComplex(s[i])
    ensures UnescapeFrom(loc, uf, QuotedChars(quote, s) + [quote], false, if quote == '"' then DoubleQuotes else SingleQuotes, out)
            == Text(out + s + QuoteMark(uf))
    decreases |s|
  {
    var mode := if quote == '"' then DoubleQuotes else SingleQuotes;
    if s == "" {
      assert QuotedChars(quote, s) + [quote] == [quote];
      assert [quote][1..] == "";
      assert out + s == out;
    } else {
      var tail := QuotedChars(quote, s[1..]) + [quote];
      assert QuotedChars(quote, s) + [quote] == QuotedChar(quote, s[0]) + tail;
      hide UnescapeFrom, QuotedChars, QuotedChar, IsComplex;
      QuotedStep(loc, uf, quote, s[0], tail, out);
      QuotedUnescapes(loc, uf, quote, s[1..], out + [s[0]]);
      assert out + [s[0]] + s[1..] == out + s;
    }
  }

  lemma QuotedStep(loc: Locale, uf: UnescapeFlags, quote: char, c: char, tail: string, out: string)
    requires !uf.noBackslashes && (quote == '"' || quote == '\'') && !IsComplex(c)
    ensures var mode := if quote == '"' then DoubleQuotes else SingleQuotes;
            UnescapeFrom(loc, uf, QuotedChar(quote, c) + tail, false, mode, out) == UnescapeFrom(loc, uf, tail, false, mode, out + [c])
  {
    var e := QuotedChar(quote, c);
    var text := e + tail;
    assert text[|e|..] == tail;
    assert text[0] == e[0] && (|e| == 2 ==> text[1] == e[1]);
    assert |e| == 1 || (|e| == 2 && e[0] == '\\' && e[1] == c);
  }

  lemma QuotedRoundTrip(loc: Locale, uf: UnescapeFlags, quote: char, s: string) returns (t: string)
    requires !uf.noBackslashes && (quote == '"' || quote == '\'') && Plain(s)
    requires forall i :: 0 <= i < |s| ==> !IsComplex(s[i])
    ensures UnescapeScript(loc, uf, [quote] + QuotedChars(quote, s) + [quote]) == Text(t)
    ensures Reads(uf.special, t, s)
  {
    hide UnescapeFrom, QuotedChars, IsComplex;
    var mark := QuoteMark(uf);
    t := mark + s + mark;
    assert [quote] + QuotedChars(quote, s) + [quote] == [quote] + (QuotedChars(quote, s) + [quote]);
    OpenQuote(loc, uf, quote, QuotedChars(quote, s) + [quote]);
    QuotedUnescapes(loc, uf, quote, s, mark);
    MarksStripped(uf, s);
  }

  lemma OpenQuote(loc: Locale, uf: UnescapeFlags, quote: char, rest: string)
    requires quote == '"' || quote == '\''
    ensures UnescapeFrom(loc, uf, [quote] + rest, true, Unquoted, "")
            == UnescapeFrom(loc, uf, rest, false, if quote == '"' then DoubleQuotes else SingleQuotes, QuoteMark(uf))
  {
    var text := [quote] + rest;
    assert text[1..] == rest && "" + QuoteMark(uf) == QuoteMark(uf);
    assert UnescapeFrom(loc, uf, text, true, Unquoted, "") == UnescapeUnquoted(loc, uf, text, true, "");
  }

  lemma MarksStripped(uf: UnescapeFlags, s: string)
    requires Plain(s)
    ensures Reads(uf.special, QuoteMark(uf) + s + QuoteMark(uf), s)
  {
    var mark := QuoteMark(uf);
    PlainHasNoSeparators(s);
    StrippedConcat(mark + s, mark);
    StrippedConcat(mark, s);
  }

  /** A raw leading tilde is read as the home directory. */
  lemma TildeIsActive(loc: Locale, ef: EscapeFlags, uf: UnescapeFlags, s: string) returns (t: string)
    requires AsciiTransparent(loc) && RoundTripFlags(ef, uf) && Plain(s) && ActiveTilde(ef, uf, s)
    ensures UnescapeScript(loc, uf, EscapedChars(ef, s)) == Text(t)
    ensures !Reads(uf.special, t, s)
  {
    OpenTilde(loc, ef, uf, s);
    hide UnescapeFrom, EscapedChars;
    var t' := CharsUnescape(loc, ef, uf, s[1..], false, [HOME_DIRECTORY]);
    t := [HOME_DIRECTORY] + t';
    assert Stripped(t)[0] == HOME_DIRECTORY;
  }

  lemma OpenTilde(loc: Locale, ef: EscapeFlags, uf: UnescapeFlags, s: string)
    requires RoundTripFlags(ef, uf) && ActiveTilde(ef, uf, s)
    ensures UnescapeFrom(loc, uf, EscapedChars(ef, s), true, Unquoted, "")
            == UnescapeFrom(loc, uf, EscapedChars(ef, s[1..]), false, Unquoted, [HOME_DIRECTORY])
  {
    var tail := EscapedChars(ef, s[1..]);
    var text := EscapedChars(ef, s);
    assert text == "~" + tail && text[1..] == tail && "" + [HOME_DIRECTORY] == [HOME_DIRECTORY];
    hide EscapedChars;
    assert SpecialChar(uf, text, true) == HOME_DIRECTORY;
    assert UnescapeFrom(loc, uf, text, true, Unquoted, "") == UnescapeUnquoted(loc, uf, text, true, "");
  }

  /** Unescaping an escaped string gives it back: exactly, or with SPECIAL once the internal separators
      are removed. The one exception is a leading tilde that was asked to be left alone. */
  lemma ScriptRoundTrip(loc: Locale, ef: EscapeFlags, uf: UnescapeFlags, s: string) returns (t: string)
    requires AsciiTransparent(loc) && RoundTripFlags(ef, uf) && Plain(s)
    ensures UnescapeScript(loc, uf, EscapeScript(ef, s)) == Text(t)
    ensures Reads(uf.special, t, s) <==> !ActiveTilde(ef, uf, s)
  {
    if !ef.noQuoted && s == "" {
      t := QuotedRoundTrip(loc, uf, '\'', s);
      assert ['\''] + QuotedChars('\'', s) + ['\''] == "''";
    } else if UsesQuotes(ef, s) {
      t := QuotedRoundTrip(loc, uf, BestQuote(s), s);
    } else if ActiveTilde(ef, uf, s) {
      t := TildeIsActive(loc, ef, uf, s);
    } else {
      t := CharsUnescape(loc, ef, uf, s, true, "");
      assert "" + t == t;
    }
  }

  // ---------------------------------------------------------------- the loops

  /** The first loop of escape_string_script. */
  method EscapeEachChar(flags: EscapeFlags, input: string)
    returns (out: string, needEscape: bool, needComplexEscape: bool)
    ensures out == EscapedChars(flags, input)
    ensures needEscape <==> exists i :: 0 <= i < |input| && NeedsEscape(flags, input[i])
    ensures needComplexEscape <==> exists i :: 0 <= i < |input| && IsComplex(input[i])
  {
    hide EscapedChars, EscapedChar, NeedsEscape, IsComplex;
    needEscape, needComplexEscape, out := false, false, "";
    assert input[0..] == input && out + EscapedChars(flags, input) == EscapedChars(flags, input);
    for i := 0 to |input|
      invariant EscapedChars(flags, input) == out + EscapedChars(flags, input[i..])
      invariant needEscape <==> exists j :: 0 <= j < i && NeedsEscape(flags, input[j])
      invariant needComplexEscape <==> exists j :: 0 <= j < i && IsComplex(input[j])
    {
      var c := input[i];
      var piece := EscapedChar(flags, c);
      assert input[i..] == [c] + input[i + 1..];
      EscapedCharsCons(flags, c, input[i + 1..]);
      assert out + (piece + EscapedChars(flags, input[i + 1..])) == (out + piece) + EscapedChars(flags, input[i + 1..]);
      out := out + piece;
      needEscape := needEscape || NeedsEscape(flags, c);
      needComplexEscape := needComplexEscape || IsComplex(c);
    }
    assert input[|input|..] == "";
    NoChars(flags);
    assert out + "" == out;
  }

  lemma NoChars(flags: EscapeFlags)
    ensures EscapedChars(flags, "") == ""
  {
  }

  /** The quote that the counters of escape_string_script choose. */
  method ChooseQuote(input: string) returns (quote: char)
    ensures quote == BestQuote(input)
  {
    var singleQuotes, doubleQuotes, dollars := 0, 0, 0;
    for i := 0 to |input|
      invariant Count(input, "'") == singleQuotes + Count(input[i..], "'")
      invariant Count(input, "\"") == doubleQuotes + Count(input[i..], "\"")
      invariant Count(input, "$") == dollars + Count(input[i..], "$")
    {
      assert input[i..][1..] == input[i + 1..];
      match input[i]
      case '\'' => singleQuotes := singleQuotes + 1;
      case '"' => doubleQuotes := doubleQuotes + 1;
      case '$' => dollars := dollars + 1;
      case _ =>
    }
    quote := if singleQuotes > doubleQuotes + dollars then '"' else '\'';
  }

  method EscapeStringWithQuote(quote: char, input: string) returns (out: string)
    ensures out == QuotedChars(quote, input)
  {
    out := "";
    for i := 0 to |input|
      invariant QuotedChars(quote, input) == out + QuotedChars(quote, input[i..])
    {
      assert input[i..][1..] == input[i + 1..];
      out := out + QuotedChar(quote, input[i]);
    }
  }

  method EscapeStringScript(flags: EscapeFlags, input: string) returns (out: string)
    ensures out == EscapeScript(flags, input)
  {
    if !flags.noQuoted && input == "" {
      return "''";
    }
    var needEscape, needComplexEscape;
    out, needEscape, needComplexEscape := EscapeEachChar(flags, input);
    needComplexEscape := needComplexEscape || (flags.noTilde && CharAt(input, 0) == '~');
    if !flags.noQuoted && needEscape && !needComplexEscape && !flags.noPrintables {
      var quote := ChooseQuote(input);
      var quoted := EscapeStringWithQuote(quote, input);
      out := [quote] + quoted + [quote];
    }
  }

  /** read_unquoted_escape on what follows the backslash. */
  method ReadUnquotedEscape(loc: Locale, input: string, incomplete: bool, special: bool) returns (r: Escaped)
    ensures r == ReadEscape(loc, input, [], incomplete, special)
  {
    var rest := input;
    var bytes: seq<Byte> := [];
    while CharAt(rest, 0) == 'x' || CharAt(rest, 0) == 'X'
      invariant ReadEscape(loc, input, [], incomplete, special) == ReadEscape(loc, rest, bytes, incomplete, special)
      decreases |rest|
    {
      var (value, after) := ReadDigits(rest[1..], 16, 2, 0);
      if |after| == |rest| - 1 || value > 255 {
        return NoEscape;
      }
      bytes := bytes + [value];
      if !StartsByteEscape(after) {
        return Read(loc.decode(bytes), after);
      }
      rest := after[1..];
    }
    return ReadEscape(loc, rest, bytes, incomplete, special);
  }

  /** unescape_string_internal. */
  method UnescapeStringInternal(loc: Locale, flags: UnescapeFlags, input: string) returns (r: Unescaped)
    ensures r == UnescapeScript(loc, flags, input)
  {
    var rest, first, mode, result := input, true, Unquoted, "";
    while rest != ""
      invariant UnescapeScript(loc, flags, input) == UnescapeFrom(loc, flags, rest, first, mode, result)
      decreases |rest|
    {
      var c := rest[0];
      if mode == Unquoted {
        if c == '\\' && !flags.noBackslashes {
          var escape := ReadUnquotedEscape(loc, rest[1..], flags.incomplete, flags.special);
          if escape.NoEscape? {
            return Malformed;
          }
          result := result + escape.appended;
          rest := escape.rest;
        } else if c == '\'' || c == '"' {
          mode := if c == '\'' then SingleQuotes else DoubleQuotes;
          result := result + QuoteMark(flags);
          rest := rest[1..];
        } else if !flags.special {
          result := result + [c];
          rest := rest[1..];
        } else if c == '{' || c == '}' {
          return Braces;
        } else if c == '%' && first && !flags.removePercentSelf && rest == "%self" {
          result := result + [PROCESS_EXPAND_SELF];
          rest := "";
        } else if c == '*' && result != "" && result[|result| - 1] == ANY_STRING {
          result := result[..|result| - 1] + [ANY_STRING_RECURSIVE];
          rest := rest[1..];
        } else {
          result := result + [SpecialChar(flags, rest, first)];
          rest := rest[1..];
        }
      } else if mode == SingleQuotes {
        if c == '\'' {
          mode := Unquoted;
          result := result + QuoteMark(flags);
          rest := rest[1..];
        } else if c == '\\' && (CharAt(rest, 1) == '\\' || CharAt(rest, 1) == '\'') {
          result := result + [rest[1]];
          rest := rest[2..];
        } else if c == '\\' && CharAt(rest, 1) == '\0' {
          if !flags.incomplete {
            return Malformed;
          }
          result := result + ['\\'];
          rest := if |rest| == 1 then "" else rest[2..];
        } else {
          result := result + [c];
          rest := rest[1..];
        }
      } else {
        if c == '"' {
          mode := Unquoted;
          result := result + QuoteMark(flags);
          rest := rest[1..];
        } else if c == '$' && flags.special {
          result := result + [VARIABLE_EXPAND_SINGLE];
          rest := rest[1..];
        } else if c == '\\' && CharAt(rest, 1) == '\0' {
          if !flags.incomplete {
            return Malformed;
          }
          result := result + ['\0'];
          rest := rest[1..];
        } else if c == '\\' && CharAt(rest, 1) in "\\$\"" {
          result := result + [rest[1]];
          rest := rest[2..];
        } else if c == '\\' && CharAt(rest, 1) == '\n' {
          rest := rest[2..];
        } else {
          result := result + [c];
          rest := rest[1..];
        }
      }
      first := false;
    }
    return Text(result);
  }
}
