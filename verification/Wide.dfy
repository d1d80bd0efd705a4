/**
 Wide characters: the code points fish keeps for itself (src/common.rs:51-77, src/expand.rs:80-100,
 src/wildcard.rs:33-37) and the locale's conversion from bytes.
 */
module Wide {
  import opened Common

  const HOME_DIRECTORY := '\U{FDD0}'
  const PROCESS_EXPAND_SELF := '\U{FDD1}'
  const VARIABLE_EXPAND := '\U{FDD2}'
  const VARIABLE_EXPAND_SINGLE := '\U{FDD3}'
  const BRACE_BEGIN := '\U{FDD4}'
  const BRACE_END := '\U{FDD5}'
  const BRACE_SEP := '\U{FDD6}'
  const BRACE_SPACE := '\U{FDD7}'
  const INTERNAL_SEPARATOR := '\U{FDD8}'
  const VARIABLE_EXPAND_EMPTY := '\U{FDD9}'
  const ANY_CHAR := '\U{FDE0}'
  const ANY_STRING := '\U{FDE1}'
  const ANY_STRING_RECURSIVE := '\U{FDE2}'

  /** fish_reserved_codepoint (src/common.rs:1620-1623). */
  predicate Reserved(c: char) {
    '\U{FDD0}' <= c < '\U{FDF0}' || '\U{F500}' <= c < '\U{F700}'
  }

  /** A character standing for one undecodable byte (src/wchar.rs:45-55). */
  predicate DirectlyEncoded(c: char) {
    '\U{F600}' <= c < '\U{F700}'
  }

  predicate Plain(s: string) {
    forall i :: 0 <= i < |s| ==> !Reserved(s[i])
  }

  predicate IsAscii(c: char) {
    c < 128 as char
  }

  predicate IsAsciiAlnum(c: char) {
    '0' <= c <= '9' || 'A' <= c <= 'Z' || 'a' <= c <= 'z'
  }

  /** The environment: str2wcstring, and which characters beyond ASCII are alphanumeric. */
  datatype Locale = Locale(decode: seq<Byte> -> string, wideAlnum: char -> bool)

  predicate AllAscii(bytes: seq<Byte>) {
    forall i :: 0 <= i < |bytes| ==> bytes[i] < 128
  }

  function AsciiText(bytes: seq<Byte>): string
    requires AllAscii(bytes)
  {
    seq(|bytes|, i requires 0 <= i < |bytes| => bytes[i] as char)
  }

  /** fish only supports character sets that extend ASCII (src/common.rs:1107-1111). */
  ghost predicate AsciiTransparent(loc: Locale) {
    forall bytes: seq<Byte> :: AllAscii(bytes) ==> loc.decode(bytes) == AsciiText(bytes)
  }

  function HexChar(d: nat): char
    requires d < 16
  {
    if d < 10 then ('0' as int + d) as char else ('a' as int + d - 10) as char
  }

  /** char::to_digit. */
  function DigitValue(c: char, base: nat): Option<nat> {
    var v :=
      if '0' <= c <= '9' then c as int - '0' as int
      else if 'a' <= c <= 'z' then c as int - 'a' as int + 10
      else if 'A' <= c <= 'Z' then c as int - 'A' as int + 10
      else base;
    if v < base then Some(v) else None
  }

  /** Lower-case hexadecimal, zero-padded to `width` digits. */
  function Hex(n: nat, width: nat): (r: string)
    ensures |r| == width
  {
    if width == 0 then "" else Hex(n / 16, width - 1) + [HexChar(n % 16)]
  }

  function Pow16(n: nat): (r: nat)
    ensures r > 0
  {
    if n == 0 then 1 else 16 * Pow16(n - 1)
  }

  /** valid_var_name_char (src/common.rs:1640-1646). */
  predicate ValidVarNameChar(loc: Locale, c: char) {
    c == '_' || (if IsAscii(c) then IsAsciiAlnum(c) else !Reserved(c) && loc.wideAlnum(c))
  }

  // ---------------------------------------------------------------- runs of characters

  /** How many characters at the start of the text are of a kind. */
  function RunLength(kind: char -> bool, s: string): (n: nat)
    ensures n <= |s| && forall i :: 0 <= i < n ==> kind(s[i])
    ensures n < |s| ==> !kind(s[n])
  {
    if s == "" || !kind(s[0]) then 0 else 1 + RunLength(kind, s[1..])
  }

  predicate Ascii(s: string) {
    forall i :: 0 <= i < |s| ==> IsAscii(s[i])
  }

  function BytesOf(s: string): (bytes: seq<Byte>)
    requires Ascii(s)
    ensures |bytes| == |s| && forall i :: 0 <= i < |s| ==> bytes[i] == s[i] as int < 128
  {
    if s == "" then [] else [s[0] as int] + BytesOf(s[1..])
  }

  // ---------------------------------------------------------------- internal separators

  /** remove_internal_separator (src/expand.rs:1190-1192). */
  function Stripped(s: string): string {
    if s == "" then "" else (if s[0] == INTERNAL_SEPARATOR then "" else [s[0]]) + Stripped(s[1..])
  }

  lemma {:induction false} StrippedConcat(a: string, b: string)
    ensures Stripped(a + b) == Stripped(a) + Stripped(b)
  {
    if a == "" {
      assert a + b == b;
    } else {
      assert (a + b)[1..] == a[1..] + b;
      StrippedConcat(a[1..], b);
    }
  }
}
