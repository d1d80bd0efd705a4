module UvarFormat {
  /**
   The text of the universal variables file: printing (src/env_universal_common.rs:325-348, 886-1003)
   and parsing (src/env_universal_common.rs:246-322, 642-727, 866-884, 1028-1033).

   Files are modelled as wide text; UTF-8 in between is taken to be invertible.
   */

  import opened Common
  import opened Wide
  import Escape

  datatype EnvVarFlags = EnvVarFlags(exported: bool, readOnly: bool, pathVar: bool)

  const NO_FLAGS := EnvVarFlags(false, false, false)

  datatype EnvVar = EnvVar(values: seq<string>, flags: EnvVarFlags)

  type VarTable = map<string, EnvVar>

  datatype Format = Fish2x | Fish30 | Future

  const ENV_NULL: string := [29 as char]
  const UVAR_ARRAY_SEP := 30 as char
  const SAVE_MSG := "# This file contains" + " fish universal" + " variable definitions."
  const VERSION_LINE := "# VERSION: 3.0"
  const SETUVAR := "SETUVAR"
  const EXPORT := "--export"
  const PATH := "--path"

  // ---------------------------------------------------------------- lists of values

  function IndexOf(s: string, c: char): (n: nat)
    ensures n <= |s| && (forall i :: 0 <= i < n ==> s[i] != c) && (n < |s| ==> s[n] == c)
  {
    if s == "" || s[0] == c then 0 else 1 + IndexOf(s[1..], c)
  }

  lemma IndexOfIs(a: string, c: char, b: string)
    requires c !in a
    ensures IndexOf(a + [c] + b, c) == |a|
  {
    var s := a + [c] + b;
    assert s[|a|] == c;
    assert forall i :: 0 <= i < |a| ==> s[i] == a[i];
  }

  function SplitAt(s: string, sep: char): (parts: seq<string>)
    ensures parts != []
    decreases |s|
  {
    var n := IndexOf(s, sep);
    if n == |s| then [s] else [s[..n]] + SplitAt(s[n + 1..], sep)
  }

  function EncodeSerialized(vals: seq<string>): string {
    if vals == [] then ENV_NULL else JoinStrings(vals, UVAR_ARRAY_SEP)
  }

  function DecodeSerialized(val: string): seq<string> {
    if val == ENV_NULL then [] else SplitAt(val, UVAR_ARRAY_SEP)
  }

  lemma JoinCons(first: string, rest: seq<string>, sep: char)
    requires rest != []
    ensures JoinStrings([first] + rest, sep) == first + [sep] + JoinStrings(rest, sep)
  {
    assert ([first] + rest)[1..] == rest;
  }

  lemma {:induction false} JoinOfSplit(s: string, sep: char)
    ensures JoinStrings(SplitAt(s, sep), sep) == s
    decreases |s|
  {
    var n := IndexOf(s, sep);
    if n < |s| {
      var rest := s[n + 1..];
      var parts := SplitAt(rest, sep);
      JoinOfSplit(rest, sep);
      hide JoinStrings, IndexOf;
      assert SplitAt(s, sep) == [s[..n]] + parts;
      JoinCons(s[..n], parts, sep);
      assert s == s[..n] + [sep] + rest;
    }
  }

  lemma {:induction false} SplitOfJoin(vals: seq<string>, sep: char)
    requires vals != []
    ensures SplitAt(JoinStrings(vals, sep), sep) == vals <==> forall v <- vals :: sep !in v
  {
    if |vals| == 1 {
      var n := IndexOf(vals[0], sep);
      assert vals == [vals[0]];
      if n < |vals[0]| {
        assert sep in vals[0] && vals[0] in vals;
        assert |SplitAt(vals[0], sep)| > 1;
      }
    } else {
      var rest := JoinStrings(vals[1..], sep);
      var text := vals[0] + [sep] + rest;
      assert vals == [vals[0]] + vals[1..];
      SplitOfJoin(vals[1..], sep);
      var n := IndexOf(text, sep);
      if sep !in vals[0] {
        IndexOfIs(vals[0], sep, rest);
        assert text[..n] == vals[0] && text[n + 1..] == rest;
      } else {
        var i :| 0 <= i < |vals[0]| && vals[0][i] == sep;
        assert text[i] == sep;
        assert n <= i;
        assert SplitAt(text, sep)[0] == text[..n];
        assert |text[..n]| < |vals[0]|;
      }
    }
  }

  lemma DecodeThenEncode(val: string)
    ensures EncodeSerialized(DecodeSerialized(val)) == val
  {
    JoinOfSplit(val, UVAR_ARRAY_SEP);
  }

  /** Lists that survive being written: every value free of the separator, and not the one null marker. */
  predicate WireSafeList(vals: seq<string>) {
    (forall v <- vals :: UVAR_ARRAY_SEP !in v) && vals != [ENV_NULL]
  }

  lemma EncodeThenDecode(vals: seq<string>)
    ensures DecodeSerialized(EncodeSerialized(vals)) == vals <==> WireSafeList(vals)
  {
    if vals != [] {
      SplitOfJoin(vals, UVAR_ARRAY_SEP);
      assert SplitAt(ENV_NULL, UVAR_ARRAY_SEP) == [ENV_NULL];
    }
  }

  // ---------------------------------------------------------------- escaping values

  predicate SafeToEncodeDirectly(c: char) {
    IsAsciiAlnum(c) || c == '/' || c == '_'
  }

  function FullEscapedChar(c: char): string {
    if SafeToEncodeDirectly(c) then [c]
    else if IsAscii(c) then "\\x" + Hex(c as int, 2)
    else if DirectlyEncoded(c) then "\\x" + Hex(c as int - 0xF600, 2)
    else if c as int < 65536 then "\\u" + Hex(c as int, 4)
    else "\\U" + Hex(c as int, 8)
  }

  function FullEscape(s: string): string {
    if s == "" then "" else FullEscapedChar(s[0]) + FullEscape(s[1..])
  }

  // ---------------------------------------------------------------- printing

  predicate ValidVarName(loc: Locale, s: string) {
    s != "" && forall i :: 0 <= i < |s| ==> ValidVarNameChar(loc, s[i])
  }

  function FlagText(flags: EnvVarFlags): string {
    (if flags.exported then EXPORT + " " else "") + (if flags.pathVar then PATH + " " else "")
  }

  function EntryLine(flags: EnvVarFlags, key: string, val: string): string {
    SETUVAR + " " + FlagText(flags) + key + ":" + FullEscape(val)
  }

  /** append_file_entry: what it appends, nothing for an illegal name. */
  function FileEntry(loc: Locale, flags: EnvVarFlags, key: string, val: string): string {
    if ValidVarName(loc, key) then EntryLine(flags, key, val) + "\n" else ""
  }

  predicate StringLe(a: string, b: string) {
    a == "" || (b != "" && (a[0] < b[0] || (a[0] == b[0] && StringLe(a[1..], b[1..]))))
  }

  lemma {:induction false} StringLeTotal(a: string, b: string)
    ensures StringLe(a, b) || StringLe(b, a)
    ensures StringLe(a, b) && StringLe(b, a) ==> a == b
  {
    if a != "" && b != "" && a[0] == b[0] {
      StringLeTotal(a[1..], b[1..]);
      assert a == [a[0]] + a[1..] && b == [b[0]] + b[1..];
    }
  }

  lemma {:induction false} StringLeTransitive(a: string, b: string, c: string)
    requires StringLe(a, b) && StringLe(b, c)
    ensures StringLe(a, c)
  {
    if a != "" && a[0] == b[0] == c[0] {
      StringLeTransitive(a[1..], b[1..], c[1..]);
    }
  }

  ghost predicate IsLeast(keys: set<string>, least: string) {
    least in keys && forall k <- keys :: StringLe(least, k)
  }

  lemma {:induction false} LeastExists(keys: set<string>)
    requires keys != {}
    ensures exists least :: IsLeast(keys, least)
  {
    var k0 :| k0 in keys;
    var rest := keys - {k0};
    StringLeTotal(k0, k0);
    if rest == {} {
      assert keys == {k0};
      assert IsLeast(keys, k0);
    } else {
      LeastExists(rest);
      var other :| IsLeast(rest, other);
      StringLeTotal(k0, other);
      var least := if StringLe(k0, other) then k0 else other;
      forall k <- keys ensures StringLe(least, k) {
        if k != k0 && least == k0 {
          StringLeTransitive(k0, other, k);
        }
      }
      assert IsLeast(keys, least);
    }
  }

  ghost function Least(keys: set<string>): (least: string)
    requires keys != {}
    ensures IsLeast(keys, least)
  {
    LeastExists(keys);
    var least :| IsLeast(keys, least);
    least
  }

  lemma LeastIsUnique(keys: set<string>, least: string)
    requires IsLeast(keys, least)
    ensures least == Least(keys)
  {
    StringLeTotal(least, Least(keys));
  }

  ghost function SortedKeys(keys: set<string>): (sorted: seq<string>)
    ensures forall k :: k in sorted <==> k in keys
    decreases |keys|
  {
    if keys == {} then [] else [Least(keys)] + SortedKeys(keys - {Least(keys)})
  }

  function Entries(loc: Locale, vars: VarTable, keys: seq<string>): string
    requires forall k <- keys :: k in vars
  {
    if keys == [] then ""
    else FileEntry(loc, vars[keys[0]].flags, keys[0], EncodeSerialized(vars[keys[0]].values)) + Entries(loc, vars, keys[1..])
  }

  function FileText(entries: string): string {
    SAVE_MSG + "\n" + (VERSION_LINE + "\n" + entries)
  }

  /** serialize_with_vars */
  ghost function Serialize(loc: Locale, vars: VarTable): string {
    FileText(Entries(loc, vars, SortedKeys(vars.Keys)))
  }

  // ---------------------------------------------------------------- parsing

  /** LineIterator (src/wcstringutil.rs:541-562). */
  function Lines(text: string): seq<string>
    decreases |text|
  {
    if text == "" then []
    else
      var n := IndexOf(text, '\n');
      [text[..n]] + Lines(text[if n < |text| then n + 1 else n..])
  }

  predicate IsCSpace(c: char) {
    c == ' ' || 9 as char <= c <= 13 as char
  }

  function SkipCSpace(s: string): string {
    if s != "" && IsCSpace(s[0]) then SkipCSpace(s[1..]) else s
  }

  function Word(s: string, max: nat): string {
    if max == 0 || s == "" || IsCSpace(s[0]) then "" else [s[0]] + Word(s[1..], max - 1)
  }

  /** sscanf(line, "# VERSION: %64s", ...) */
  function ScanVersion(line: string): Option<string> {
    if line == "" || line[0] != '#' then None
    else
      var s := SkipCSpace(line[1..]);
      if !("VERSION:" <= s) then None
      else
        var version := Word(SkipCSpace(s[8..]), 64);
        if version == "" then None else Some(version)
  }

  function FormatOfLines(lines: seq<string>): Format {
    if lines == [] then Fish2x
    else if lines[0] == "" then FormatOfLines(lines[1..])
    else if lines[0][0] != '#' then Fish2x
    else
      match ScanVersion(lines[0])
      case None => FormatOfLines(lines[1..])
      case Some(version) => if version == "3.0" then Fish30 else Future
  }

  function FormatForContents(text: string): Format {
    FormatOfLines(Lines(text))
  }

  function SkipSpaces(s: string): (r: string)
    ensures |r| <= |s|
  {
    if s != "" && (s[0] == ' ' || s[0] == '\t') then SkipSpaces(s[1..]) else s
  }

  /** match: the text after the command `cmd`, if `s` starts with it as a whole word. */
  function MatchCommand(s: string, cmd: string): (r: Option<string>)
    ensures r.Some? ==> |r.value| == |s| - |cmd|
  {
    if cmd <= s && (|s| == |cmd| || s[|cmd|] == ' ' || s[|cmd|] == '\t') then Some(s[|cmd|..]) else None
  }

  function SkipWord(s: string): (r: string)
    ensures |r| <= |s|
  {
    if s != "" && s[0] != ' ' && s[0] != '\t' then SkipWord(s[1..]) else s
  }

  /** The flag loop of parse_message_30_internal. */
  function ParseFlags(s: string, flags: EnvVarFlags): (EnvVarFlags, string)
    decreases |s|
  {
    var cursor := SkipSpaces(s);
    if CharAt(cursor, 0) != '-' then (flags, cursor)
    else if MatchCommand(cursor, EXPORT).Some? then
      ParseFlags(MatchCommand(cursor, EXPORT).value, flags.(exported := true))
    else if MatchCommand(cursor, PATH).Some? then
      ParseFlags(MatchCommand(cursor, PATH).value, flags.(pathVar := true))
    else ParseFlags(SkipWord(cursor[1..]), flags)
  }

  const UNESCAPE_DEFAULT := Escape.UnescapeFlags(false, false, false, false, false)

  /** populate_1_variable */
  function PopulateOne(loc: Locale, input: string, flags: EnvVarFlags, vars: VarTable): VarTable {
    var s := SkipSpaces(input);
    var colon := IndexOf(s, ':');
    if colon == |s| then vars
    else
      match Escape.UnescapeScript(loc, UNESCAPE_DEFAULT, s[colon + 1..])
      case Text(text) => vars[s[..colon] := EnvVar(DecodeSerialized(text), flags)]
      case _ => vars
  }

  /** parse_message_30_internal */
  function ParseMessage30(loc: Locale, line: string, vars: VarTable): VarTable {
    if "#" <= line then vars
    else
      match MatchCommand(line, SETUVAR)
      case None => vars
      case Some(cursor) =>
        var (flags, rest) := ParseFlags(cursor, NO_FLAGS);
        PopulateOne(loc, rest, flags, vars)
  }

  /** parse_message_2x_internal */
  function ParseMessage2x(loc: Locale, line: string, vars: VarTable): VarTable {
    if CharAt(line, 0) == '#' then vars
    else if MatchCommand(line, "SET_EXPORT").Some? then
      PopulateOne(loc, MatchCommand(line, "SET_EXPORT").value, NO_FLAGS.(exported := true), vars)
    else if MatchCommand(line, "SET").Some? then
      PopulateOne(loc, MatchCommand(line, "SET").value, NO_FLAGS, vars)
    else vars
  }

  function PopulateLine(loc: Locale, format: Format, line: string, vars: VarTable): VarTable {
    if line == "" || line[0] == '#' then vars
    else if format == Fish2x then ParseMessage2x(loc, line, vars)
    else ParseMessage30(loc, line, vars)
  }

  function PopulateLines(loc: Locale, format: Format, lines: seq<string>, vars: VarTable): VarTable {
    if lines == [] then vars else PopulateLines(loc, format, lines[1..], PopulateLine(loc, format, lines[0], vars))
  }

  /** populate_variables on an empty table. */
  function Populate(loc: Locale, text: string): VarTable {
    PopulateLines(loc, FormatForContents(text), Lines(text), map[])
  }

  // ---------------------------------------------------------------- what a table looks like once written and read

  /** The list a variable's value turns into on the wire, or None if its line will not parse. */
  function WireVar(v: EnvVar): Option<EnvVar> {
    var text := EncodeSerialized(v.values);
    if Plain(text) then Some(EnvVar(DecodeSerialized(text), v.flags.(readOnly := false))) else None
  }

  function WireEntry(loc: Locale, key: string, v: EnvVar): Option<EnvVar> {
    if ValidVarName(loc, key) then WireVar(v) else None
  }

  function OnWire(loc: Locale, vars: VarTable): VarTable {
    map k | k in vars && WireEntry(loc, k, vars[k]).Some? :: WireEntry(loc, k, vars[k]).value
  }

  /** No character stands for an undecodable byte. */
  predicate FreeOfBytes(s: string) {
    forall i :: 0 <= i < |s| ==> !DirectlyEncoded(s[i])
  }

  predicate Textual(vars: VarTable) {
    forall k <- vars :: FreeOfBytes(EncodeSerialized(vars[k].values))
  }

  lemma WireVarIdempotent(v: EnvVar)
    ensures WireVar(v).Some? ==>
              && WireVar(WireVar(v).value) == WireVar(v)
              && EncodeSerialized(WireVar(v).value.values) == EncodeSerialized(v.values)
  {
    DecodeThenEncode(EncodeSerialized(v.values));
  }

  lemma {:induction false} OnWireIdempotent(loc: Locale, vars: VarTable)
    ensures OnWire(loc, OnWire(loc, vars)) == OnWire(loc, vars)
    ensures Textual(vars) ==> Textual(OnWire(loc, vars))
  {
    forall k | k in OnWire(loc, vars)
      ensures WireEntry(loc, k, OnWire(loc, vars)[k]) == Some(OnWire(loc, vars)[k])
      ensures EncodeSerialized(OnWire(loc, vars)[k].values) == EncodeSerialized(vars[k].values)
    {
      WireVarIdempotent(vars[k]);
    }
  }

  /** Variables that come back exactly as they were written. */
  predicate WireSafe(loc: Locale, key: string, v: EnvVar) {
    ValidVarName(loc, key) && !v.flags.readOnly && WireSafeList(v.values) && Plain(EncodeSerialized(v.values))
  }

  lemma OnWireUnchangedIff(loc: Locale, vars: VarTable)
    ensures OnWire(loc, vars) == vars <==> forall k <- vars :: WireSafe(loc, k, vars[k])
  {
    forall k <- vars
      ensures WireEntry(loc, k, vars[k]) == Some(vars[k]) <==> WireSafe(loc, k, vars[k])
    {
      EncodeThenDecode(vars[k].values);
    }
    if OnWire(loc, vars) == vars {
      forall k <- vars ensures WireEntry(loc, k, vars[k]) == Some(vars[k]) {
        assert k in OnWire(loc, vars);
      }
    }
  }

  // ---------------------------------------------------------------- unescaping values

  predicate IsHexEscaped(c: char) {
    IsAscii(c) && !SafeToEncodeDirectly(c)
  }

  predicate AllHexEscaped(s: string) {
    forall i :: 0 <= i < |s| ==> IsHexEscaped(s[i])
  }

  lemma FullEscapeCons(c: char, s: string)
    ensures FullEscape([c] + s) == FullEscapedChar(c) + FullEscape(s)
  {
    assert ([c] + s)[1..] == s;
  }

  lemma {:induction false} FullEscapeRun(run: string, rest: string)
    requires AllHexEscaped(run)
    ensures FullEscape(run + rest) == Escape.HexBytes(BytesOf(run)) + FullEscape(rest)
  {
    if run == "" {
      assert run + rest == rest;
    } else {
      var c, run' := run[0], run[1..];
      calc {
        FullEscape(run + rest);
        { assert run + rest == [c] + (run' + rest); FullEscapeCons(c, run' + rest); }
        FullEscapedChar(c) + FullEscape(run' + rest);
        { FullEscapeRun(run', rest); }
        "\\x" + Hex(c as int, 2) + (Escape.HexBytes(BytesOf(run')) + FullEscape(rest));
        { Escape.HexBytesCons(c as int, BytesOf(run'), FullEscape(rest)); }
        Escape.HexBytes([c as int] + BytesOf(run')) + FullEscape(rest);
      }
    }
  }

  lemma StartOfFullEscape(s: string)
    requires s != "" ==> !IsHexEscaped(s[0]) && !DirectlyEncoded(s[0])
    ensures !Escape.StartsByteEscape(FullEscape(s))
  {
    if s != "" {
      var e := FullEscapedChar(s[0]);
      assert FullEscape(s)[0] == e[0];
      if |e| > 1 {
        assert FullEscape(s)[1] == e[1];
      }
    }
  }

  /** A \u or \U escape reads as its character, unless that is reserved. */
  lemma ReadWideEscape(loc: Locale, c: char, tail: string)
    requires !IsAscii(c) && !DirectlyEncoded(c)
    ensures Escape.ReadEscape(loc, (FullEscapedChar(c) + tail)[1..], [], false, false)
            == if Reserved(c) then Escape.NoEscape else Escape.Read([c], tail)
  {
    var n := c as int;
    var width := if n < 65536 then 4 else 8;
    var text := (FullEscapedChar(c) + tail)[1..];
    assert Pow16(4) == 65536 && Pow16(8) == 65536 * Pow16(4);
    assert text[1..] == Hex(n, width) + tail;
    ReadHexDigits(n, width, tail);
    assert "" + [c] == [c];
  }

  lemma {:induction false} ReadHexDigits(n: nat, width: nat, tail: string)
    requires n < Pow16(width)
    ensures Escape.ReadDigits(Hex(n, width) + tail, 16, width, 0) == (n, tail)
  {
    Escape.ReadHexDigits(n, width, 0, tail);
  }

  lemma UnescapeStep(loc: Locale, c: char, rest: string, first: bool, out: string)
    requires !IsHexEscaped(c) && !DirectlyEncoded(c)
    ensures Escape.UnescapeFrom(loc, UNESCAPE_DEFAULT, FullEscape([c] + rest), first, Escape.Unquoted, out)
            == if Reserved(c) then Escape.Malformed
               else Escape.UnescapeFrom(loc, UNESCAPE_DEFAULT, FullEscape(rest), false, Escape.Unquoted, out + [c])
  {
    FullEscapeCons(c, rest);
    var text := FullEscapedChar(c) + FullEscape(rest);
    if SafeToEncodeDirectly(c) {
      assert text[0] == c && text[1..] == FullEscape(rest);
    } else {
      ReadWideEscape(loc, c, FullEscape(rest));
      assert text[0] == '\\';
    }
  }

  lemma UnescapeRun(loc: Locale, run: string, rest: string, first: bool, out: string)
    requires AsciiTransparent(loc) && FreeOfBytes(rest)
    requires run != "" && AllHexEscaped(run) && (rest != "" ==> !IsHexEscaped(rest[0]))
    ensures Escape.UnescapeFrom(loc, UNESCAPE_DEFAULT, FullEscape(run + rest), first, Escape.Unquoted, out)
            == Escape.UnescapeFrom(loc, UNESCAPE_DEFAULT, FullEscape(rest), false, Escape.Unquoted, out + run)
  {
    var bytes := BytesOf(run);
    var text := Escape.HexBytes(bytes) + FullEscape(rest);
    FullEscapeRun(run, rest);
    StartOfFullEscape(rest);
    Escape.ReadByteRun(loc, bytes, FullEscape(rest), [], false, false);
    assert [] + bytes == bytes;
    assert loc.decode(bytes) == run;
    assert text[0] == '\\';
  }

  // ---------------------------------------------------------------- reading back one line

  /** Text at which the flag loop stops. */
  predicate StartsName(s: string) {
    s != "" && s[0] != ' ' && s[0] != '\t' && s[0] != '-'
  }

  lemma UnescapeNothing(loc: Locale, first: bool, out: string)
    ensures Escape.UnescapeFrom(loc, UNESCAPE_DEFAULT, FullEscape(""), first, Escape.Unquoted, out) == Escape.Text(out + "")
    ensures Plain("")
  {
    assert out + "" == out;
  }

  lemma HexRunPlain(run: string)
    requires AllHexEscaped(run)
    ensures Plain(run)
  {
  }

  /** The first characters of an escaped value, as many as are read at once. */
  lemma HeadUnescapes(loc: Locale, s: string, n: nat, first: bool, out: string)
    requires AsciiTransparent(loc) && FreeOfBytes(s) && s != ""
    requires n == if IsHexEscaped(s[0]) then RunLength(IsHexEscaped, s) else 1
    ensures 0 < n <= |s| && FreeOfBytes(s[n..])
    ensures Escape.UnescapeFrom(loc, UNESCAPE_DEFAULT, FullEscape(s), first, Escape.Unquoted, out)
            == if Plain(s[..n]) then Escape.UnescapeFrom(loc, UNESCAPE_DEFAULT, FullEscape(s[n..]), false, Escape.Unquoted, out + s[..n])
               else Escape.Malformed
  {
    assert 0 < n;
    var head, rest := s[..n], s[n..];
    assert s == head + rest;
    if IsHexEscaped(s[0]) {
      HexRunPlain(head);
      hide FullEscape, Escape.UnescapeFrom, Plain, AllHexEscaped;
      UnescapeRun(loc, head, rest, first, out);
    } else {
      hide FullEscape, Escape.UnescapeFrom;
      assert head == [s[0]];
      UnescapeStep(loc, s[0], rest, first, out);
    }
  }

  lemma {:induction false} UnescapeFullEscape(loc: Locale, s: string, first: bool, out: string)
    requires AsciiTransparent(loc) && FreeOfBytes(s)
    ensures Escape.UnescapeFrom(loc, UNESCAPE_DEFAULT, FullEscape(s), first, Escape.Unquoted, out)
            == if Plain(s) then Escape.Text(out + s) else Escape.Malformed
    decreases |s|
  {
    hide FullEscape, Escape.UnescapeFrom, Plain;
    if s == "" {
      UnescapeNothing(loc, first, out);
    } else {
      var n := if IsHexEscaped(s[0]) then RunLength(IsHexEscaped, s) else 1;
      PlainSplit(s, n);
      HeadUnescapes(loc, s, n, first, out);
      if Plain(s[..n]) {
        UnescapeFullEscape(loc, s[n..], false, out + s[..n]);
        assert out + s[..n] + s[n..] == out + s;
      }
    }
  }

  lemma PlainSplit(s: string, n: nat)
    requires n <= |s|
    ensures Plain(s) <==> Plain(s[..n]) && Plain(s[n..])
  {
    forall i | 0 <= i < |s| ensures s[i] == if i < n then s[..n][i] else s[n..][i - n] {
    }
  }

  lemma MatchWord(cmd: string, rest: string)
    requires rest != "" && rest[0] == ' '
    ensures MatchCommand(cmd + rest, cmd) == Some(rest)
  {
    assert (cmd + rest)[|cmd|..] == rest;
  }

  lemma FlagsEnd(tail: string, flags: EnvVarFlags)
    requires StartsName(tail)
    ensures ParseFlags(" " + tail, flags) == (flags, tail)
  {
    assert (" " + tail)[1..] == tail;
    assert SkipSpaces(tail) == tail;
  }

  lemma FlagsPath(tail: string, flags: EnvVarFlags)
    requires StartsName(tail)
    ensures ParseFlags(" " + (PATH + " " + tail), flags) == (flags.(pathVar := true), tail)
  {
    var s := PATH + " " + tail;
    assert s == PATH + (" " + tail);
    assert (" " + s)[1..] == s && s[0] == '-' && s[2] == 'p';
    assert SkipSpaces(" " + s) == s;
    assert MatchCommand(s, EXPORT).None?;
    MatchWord(PATH, " " + tail);
    FlagsEnd(tail, flags.(pathVar := true));
  }

  lemma FlagsExport(rest: string, flags: EnvVarFlags)
    ensures ParseFlags(" " + (EXPORT + " " + rest), flags) == ParseFlags(" " + rest, flags.(exported := true))
  {
    var s := EXPORT + " " + rest;
    assert s == EXPORT + (" " + rest);
    assert (" " + s)[1..] == s && s[0] == '-';
    assert SkipSpaces(" " + s) == s;
    MatchWord(EXPORT, " " + rest);
  }

  lemma FlagsRoundTrip(flags: EnvVarFlags, tail: string)
    requires StartsName(tail)
    ensures ParseFlags(" " + (FlagText(flags) + tail), NO_FLAGS) == (flags.(readOnly := false), tail)
  {
    var path := if flags.pathVar then PATH + " " else "";
    var start := NO_FLAGS.(exported := flags.exported);
    assert FlagText(flags) + tail == if flags.exported then EXPORT + " " + (path + tail) else path + tail;
    hide ParseFlags, FlagText, StartsName;
    if flags.pathVar {
      FlagsPath(tail, start);
      assert path + tail == PATH + " " + tail;
    } else {
      FlagsEnd(tail, start);
      assert path + tail == tail;
    }
    if flags.exported {
      FlagsExport(path + tail, NO_FLAGS);
    }
  }

  lemma {:induction false} PopulateOneReads(loc: Locale, flags: EnvVarFlags, key: string, val: string, vars: VarTable)
    requires AsciiTransparent(loc) && ValidVarName(loc, key) && FreeOfBytes(val)
    ensures PopulateOne(loc, key + ":" + FullEscape(val), flags, vars)
            == if Plain(val) then vars[key := EnvVar(DecodeSerialized(val), flags)] else vars
  {
    var s := key + ":" + FullEscape(val);
    assert s[0] == key[0];
    assert SkipSpaces(s) == s;
    assert ':' !in key;
    IndexOfIs(key, ':', FullEscape(val));
    assert s[..|key|] == key && s[|key| + 1..] == FullEscape(val);
    UnescapeFullEscape(loc, val, true, "");
    assert "" + val == val;
  }

  lemma MessageReads(loc: Locale, line: string, cursor: string, flags: EnvVarFlags, tail: string, vars: VarTable)
    requires line != "" && line[0] != '#'
    requires MatchCommand(line, SETUVAR) == Some(cursor) && ParseFlags(cursor, NO_FLAGS) == (flags, tail)
    ensures PopulateLine(loc, Fish30, line, vars) == PopulateOne(loc, tail, flags, vars)
  {
  }

  lemma LineRoundTrip(loc: Locale, flags: EnvVarFlags, key: string, val: string, vars: VarTable)
    requires AsciiTransparent(loc) && ValidVarName(loc, key) && FreeOfBytes(val)
    ensures PopulateLine(loc, Fish30, EntryLine(flags, key, val), vars)
            == if Plain(val) then vars[key := EnvVar(DecodeSerialized(val), flags.(readOnly := false))] else vars
  {
    var line := EntryLine(flags, key, val);
    var tail := key + ":" + FullEscape(val);
    var rest := " " + (FlagText(flags) + tail);
    EntryStarts(flags, key, val);
    NameStarts(loc, key, FullEscape(val));
    hide EntryLine, FullEscape, FlagText, PopulateLine, PopulateOne, ParseFlags, MatchCommand, DecodeSerialized, StartsName, ValidVarName;
    MatchWord(SETUVAR, rest);
    FlagsRoundTrip(flags, tail);
    MessageReads(loc, line, rest, flags.(readOnly := false), tail, vars);
    PopulateOneReads(loc, flags.(readOnly := false), key, val, vars);
  }

  lemma EntryStarts(flags: EnvVarFlags, key: string, val: string)
    ensures EntryLine(flags, key, val) == SETUVAR + (" " + (FlagText(flags) + (key + ":" + FullEscape(val))))
    ensures EntryLine(flags, key, val)[0] == 'S'
  {
    hide FullEscape, FlagText;
    Append(SETUVAR + " ", FlagText(flags), key + ":" + FullEscape(val));
    assert SETUVAR + " " + FlagText(flags) + key + ":" + FullEscape(val)
        == SETUVAR + " " + FlagText(flags) + (key + ":" + FullEscape(val));
    Append(SETUVAR, " ", FlagText(flags) + (key + ":" + FullEscape(val)));
  }

  lemma NameStarts(loc: Locale, key: string, escaped: string)
    requires ValidVarName(loc, key)
    ensures StartsName(key + ":" + escaped)
  {
    assert (key + ":" + escaped)[0] == key[0];
  }

  // ---------------------------------------------------------------- reading back a file

  lemma {:induction false} LinesCons(line: string, rest: string)
    requires '\n' !in line
    ensures Lines(line + "\n" + rest) == [line] + Lines(rest)
  {
    var text := line + "\n" + rest;
    IndexOfIs(line, '\n', rest);
    assert text[..|line|] == line && text[|line| + 1..] == rest;
  }

  lemma {:induction false} HexIsDigits(n: nat, width: nat)
    ensures '\n' !in Hex(n, width)
  {
    if width > 0 {
      HexIsDigits(n / 16, width - 1);
    }
  }

  lemma {:induction false} FullEscapeOneLine(s: string)
    ensures '\n' !in FullEscape(s)
  {
    if s != "" {
      FullEscapeOneLine(s[1..]);
      var c := s[0] as int;
      HexIsDigits(c, 2);
      HexIsDigits(c, 4);
      HexIsDigits(c, 8);
      if DirectlyEncoded(s[0]) {
        HexIsDigits(c - 0xF600, 2);
      }
    }
  }

  lemma OneLineConcat(a: string, b: string)
    requires OneLine(a) && OneLine(b)
    ensures OneLine(a + b)
  {
  }

  lemma EntryOneLine(loc: Locale, flags: EnvVarFlags, key: string, val: string)
    requires ValidVarName(loc, key)
    ensures OneLine(EntryLine(flags, key, val))
  {
    FullEscapeOneLine(val);
    assert OneLine(EXPORT + " ") && OneLine(PATH + " ");
    OneLineConcat(SETUVAR + " ", FlagText(flags));
    OneLineConcat(SETUVAR + " " + FlagText(flags), key);
    OneLineConcat(SETUVAR + " " + FlagText(flags) + key, ":");
    OneLineConcat(SETUVAR + " " + FlagText(flags) + key + ":", FullEscape(val));
  }

  function Put(vars: VarTable, key: string, v: Option<EnvVar>): VarTable {
    if v.Some? then vars[key := v.value] else vars
  }

  function PutWire(loc: Locale, vars: VarTable, keys: seq<string>, acc: VarTable): VarTable
    requires forall k <- keys :: k in vars
  {
    if keys == [] then acc else PutWire(loc, vars, keys[1..], Put(acc, keys[0], WireEntry(loc, keys[0], vars[keys[0]])))
  }

  lemma {:induction false} EntriesRoundTrip(loc: Locale, vars: VarTable, keys: seq<string>, acc: VarTable)
    requires AsciiTransparent(loc) && Textual(vars)
    requires forall k <- keys :: k in vars
    ensures PopulateLines(loc, Fish30, Lines(Entries(loc, vars, keys)), acc) == PutWire(loc, vars, keys, acc)
    decreases |keys|
  {
    if keys != [] {
      var key, v := keys[0], vars[keys[0]];
      var val := EncodeSerialized(v.values);
      var rest := Entries(loc, vars, keys[1..]);
      var acc' := Put(acc, key, WireEntry(loc, key, v));
      EntriesRoundTrip(loc, vars, keys[1..], acc');
      if ValidVarName(loc, key) {
        var line := EntryLine(v.flags, key, val);
        EntryOneLine(loc, v.flags, key, val);
        LinesCons(line, rest);
        assert ([line] + Lines(rest))[1..] == Lines(rest);
        LineRoundTrip(loc, v.flags, key, val, acc);
      } else {
        assert Entries(loc, vars, keys) == rest;
      }
    }
  }

  lemma {:induction false} PutWireIs(loc: Locale, vars: VarTable, keys: seq<string>, acc: VarTable)
    requires forall k <- keys :: k in vars
    ensures forall k :: k in PutWire(loc, vars, keys, acc) <==> k in acc || (k in keys && k in OnWire(loc, vars))
    ensures forall k <- PutWire(loc, vars, keys, acc) ::
              PutWire(loc, vars, keys, acc)[k] == if k in keys && k in OnWire(loc, vars) then OnWire(loc, vars)[k] else acc[k]
    decreases |keys|
  {
    if keys != [] {
      PutWireIs(loc, vars, keys[1..], Put(acc, keys[0], WireEntry(loc, keys[0], vars[keys[0]])));
    }
  }

  /** The first line is a comment without a version. */
  lemma SaveMessage()
    ensures SAVE_MSG[0] == '#' && OneLine(SAVE_MSG)
    ensures ScanVersion(SAVE_MSG).None?
  {
    var start := "# This file contains";
    assert OneLine(start) && OneLine(" fish universal") && OneLine(" variable definitions.");
    OneLineConcat(start, " fish universal");
    OneLineConcat(start + " fish universal", " variable definitions.");
    assert SAVE_MSG[..20] == start;
    var s := SAVE_MSG[1..];
    assert s[0] == start[1] && s[1..][0] == start[2] == 'T';
    assert SkipCSpace(s) == s[1..];
  }

  lemma HeaderFormat(rest: seq<string>)
    ensures FormatOfLines([SAVE_MSG, VERSION_LINE] + rest) == Fish30
  {
    var lines := [SAVE_MSG, VERSION_LINE] + rest;
    assert lines[1..] == [VERSION_LINE] + rest;
    SaveMessage();
    VersionLine();
    hide ScanVersion;
  }

  lemma VersionLine()
    ensures ScanVersion(VERSION_LINE) == Some("3.0")
  {
    assert VERSION_LINE[1..] == " VERSION: 3.0" && VERSION_LINE[1..][1..] == "VERSION: 3.0";
    assert "VERSION: 3.0"[8..] == " 3.0" && " 3.0"[1..] == "3.0";
    assert "3.0"[1..] == ".0" && ".0"[1..] == "0" && "0"[1..] == "";
    assert Word("0", 62) == "0" && Word(".0", 63) == ".0" && Word("3.0", 64) == "3.0";
  }

  lemma TwoLines(a: string, b: string, rest: string)
    requires OneLine(a) && OneLine(b)
    ensures Lines(a + "\n" + (b + "\n" + rest)) == [a, b] + Lines(rest)
  {
    LinesCons(a, b + "\n" + rest);
    LinesCons(b, rest);
    assert [a] + ([b] + Lines(rest)) == [a, b] + Lines(rest);
  }

  lemma SkipTwo(loc: Locale, a: string, b: string, lines: seq<string>, acc: VarTable)
    requires a != "" && b != "" && a[0] == b[0] == '#'
    ensures PopulateLines(loc, Fish30, [a, b] + lines, acc) == PopulateLines(loc, Fish30, lines, acc)
  {
    assert ([a, b] + lines)[1..] == [b] + lines;
    assert ([b] + lines)[1..] == lines;
    assert PopulateLines(loc, Fish30, [b] + lines, acc) == PopulateLines(loc, Fish30, lines, acc);
  }

  lemma {:induction false} HeaderRead(loc: Locale, entries: string)
    ensures FormatForContents(FileText(entries)) == Fish30
    ensures Populate(loc, FileText(entries)) == PopulateLines(loc, Fish30, Lines(entries), map[])
  {
    SaveMessage();
    TwoLines(SAVE_MSG, VERSION_LINE, entries);
    HeaderFormat(Lines(entries));
    SkipTwo(loc, SAVE_MSG, VERSION_LINE, Lines(entries), map[]);
  }

  /** Parsing the printed form of any table, of any values and names, gives its wire form. */
  lemma FileRoundTrip(loc: Locale, vars: VarTable)
    requires AsciiTransparent(loc) && Textual(vars)
    ensures FormatForContents(Serialize(loc, vars)) == Fish30
    ensures Populate(loc, Serialize(loc, vars)) == OnWire(loc, vars)
  {
    hide SortedKeys, Entries, PopulateLines, Lines, PutWire, FormatOfLines, FileText, OnWire;
    var keys := SortedKeys(vars.Keys);
    HeaderRead(loc, Entries(loc, vars, keys));
    EntriesRoundTrip(loc, vars, keys, map[]);
    PutWireAll(loc, vars);
  }

  lemma PutWireAll(loc: Locale, vars: VarTable)
    ensures PutWire(loc, vars, SortedKeys(vars.Keys), map[]) == OnWire(loc, vars)
  {
    hide SortedKeys, PutWire;
    PutWireIs(loc, vars, SortedKeys(vars.Keys), map[]);
  }

  /** The printed form gives back the table exactly if every name and value is safe on the wire. */
  lemma FileRoundTripExactIff(loc: Locale, vars: VarTable)
    requires AsciiTransparent(loc) && Textual(vars)
    ensures Populate(loc, Serialize(loc, vars)) == vars <==> forall k <- vars :: WireSafe(loc, k, vars[k])
  {
    FileRoundTrip(loc, vars);
    OnWireUnchangedIff(loc, vars);
  }

  /** The keys are printed in ascending order, each once. */
  lemma {:induction false} SortedKeysAscending(keys: set<string>)
    ensures forall i, j :: 0 <= i < j < |SortedKeys(keys)| ==>
                             StringLe(SortedKeys(keys)[i], SortedKeys(keys)[j]) && SortedKeys(keys)[i] != SortedKeys(keys)[j]
    decreases |keys|
  {
    if keys != {} {
      var least := Least(keys);
      var rest := SortedKeys(keys - {least});
      SortedKeysAscending(keys - {least});
      forall j | 0 <= j < |rest| ensures rest[j] in keys && rest[j] != least {
        assert rest[j] in rest;
      }
    }
  }

  // ---------------------------------------------------------------- the loops

  method FullEscapeString(input: string) returns (out: string)
    ensures out == FullEscape(input)
  {
    out := "";
    for i := 0 to |input|
      invariant FullEscape(input) == out + FullEscape(input[i..])
    {
      var piece := FullEscapedChar(input[i]);
      assert input[i..] == [input[i]] + input[i + 1..];
      FullEscapeCons(input[i], input[i + 1..]);
      assert out + (piece + FullEscape(input[i + 1..])) == (out + piece) + FullEscape(input[i + 1..]);
      out := out + piece;
    }
  }

  lemma Append(result: string, a: string, b: string)
    ensures (result + a) + b == result + (a + b)
  {
  }

  method FlagString(flags: EnvVarFlags) returns (out: string)
    ensures out == FlagText(flags)
  {
    out := "";
    if flags.exported {
      out := out + EXPORT + " ";
    }
    if flags.pathVar {
      out := out + PATH + " ";
    }
  }

  lemma EntryParts(start: string, key: string, escaped: string)
    ensures start + (key + ":" + escaped + "\n") == start + key + ":" + escaped + "\n"
  {
  }

  /** append_file_entry: an illegal name leaves `result` as it was. */
  method AppendFileEntry(loc: Locale, flags: EnvVarFlags, key: string, val: string, result: string)
    returns (out: string, success: bool)
    ensures out == result + FileEntry(loc, flags, key, val)
    ensures success <==> ValidVarName(loc, key)
  {
    var flagText := FlagString(flags);
    var start := SETUVAR + " " + flagText;
    out := result + start;
    success := ValidVarName(loc, key);
    if success {
      var escaped := FullEscapeString(val);
      var end := key + ":" + escaped + "\n";
      EntryParts(SETUVAR + " " + flagText, key, escaped);
      Append(result, start, end);
      out := out + end;
    } else {
      out := out[..|result|];
      assert out == result + "";
    }
  }

  lemma EntriesStep(loc: Locale, vars: VarTable, keys: set<string>, key: string, contents: string)
    requires keys <= vars.Keys && IsLeast(keys, key)
    ensures contents + Entries(loc, vars, SortedKeys(keys))
            == contents + FileEntry(loc, vars[key].flags, key, EncodeSerialized(vars[key].values))
               + Entries(loc, vars, SortedKeys(keys - {key}))
  {
    LeastIsUnique(keys, key);
    assert SortedKeys(keys)[1..] == SortedKeys(keys - {key});
    Append(contents, FileEntry(loc, vars[key].flags, key, EncodeSerialized(vars[key].values)),
           Entries(loc, vars, SortedKeys(keys - {key})));
  }

  method SerializeWithVars(loc: Locale, vars: VarTable) returns (contents: string)
    ensures contents == Serialize(loc, vars)
  {
    contents := SAVE_MSG + "\n" + (VERSION_LINE + "\n");
    ghost var header := contents;
    var rest := vars.Keys;
    while rest != {}
      invariant rest <= vars.Keys
      invariant header + Entries(loc, vars, SortedKeys(vars.Keys)) == contents + Entries(loc, vars, SortedKeys(rest))
      decreases |rest|
    {
      LeastExists(rest);
      assert exists k :: k in rest && forall j <- rest :: StringLe(k, j) by {
        var k :| IsLeast(rest, k);
      }
      var key :| key in rest && forall j <- rest :: StringLe(key, j);
      EntriesStep(loc, vars, rest, key, contents);
      var success;
      contents, success := AppendFileEntry(loc, vars[key].flags, key, EncodeSerialized(vars[key].values), contents);
      rest := rest - {key};
    }
    HeaderText(Entries(loc, vars, SortedKeys(vars.Keys)));
    assert contents + "" == contents;
  }

  lemma HeaderText(entries: string)
    ensures SAVE_MSG + "\n" + (VERSION_LINE + "\n") + entries == FileText(entries)
  {
    Append(SAVE_MSG + "\n", VERSION_LINE + "\n", entries);
  }

  method ParseMessage30Internal(loc: Locale, msg: string, vars: VarTable) returns (r: VarTable)
    ensures r == ParseMessage30(loc, msg, vars)
  {
    if "#" <= msg {
      return vars;
    }
    var start := MatchCommand(msg, SETUVAR);
    if start.None? {
      return vars;
    }
    var flags := NO_FLAGS;
    SkipSpacesTwice(start.value, NO_FLAGS);
    var cursor := SkipSpaces(start.value);
    while CharAt(cursor, 0) == '-'
      invariant cursor == SkipSpaces(cursor)
      invariant ParseFlags(start.value, NO_FLAGS) == ParseFlags(cursor, flags)
      decreases |cursor|
    {
      if MatchCommand(cursor, EXPORT).Some? {
        flags := flags.(exported := true);
        cursor := MatchCommand(cursor, EXPORT).value;
      } else if MatchCommand(cursor, PATH).Some? {
        flags := flags.(pathVar := true);
        cursor := MatchCommand(cursor, PATH).value;
      } else {
        cursor := SkipWord(cursor[1..]);
      }
      SkipSpacesTwice(cursor, flags);
      cursor := SkipSpaces(cursor);
    }
    return PopulateOne(loc, cursor, flags, vars);
  }

  lemma SkipSpacesTwice(s: string, flags: EnvVarFlags)
    ensures SkipSpaces(SkipSpaces(s)) == SkipSpaces(s)
    ensures ParseFlags(SkipSpaces(s), flags) == ParseFlags(s, flags)
  {
    SkipSpacesStops(s);
  }

  lemma {:induction false} SkipSpacesStops(s: string)
    ensures var r := SkipSpaces(s); r != "" ==> r[0] != ' ' && r[0] != '\t'
  {
    if s != "" && (s[0] == ' ' || s[0] == '\t') {
      SkipSpacesStops(s[1..]);
    }
  }

  method PopulateVariables(loc: Locale, text: string) returns (vars: VarTable, format: Format)
    ensures vars == Populate(loc, text) && format == FormatForContents(text)
  {
    format := FormatForContents(text);
    vars := map[];
    var rest := text;
    while rest != ""
      invariant Populate(loc, text) == PopulateLines(loc, format, Lines(rest), vars)
      decreases |rest|
    {
      var n := IndexOf(rest, '\n');
      var line := rest[..n];
      rest := rest[if n < |rest| then n + 1 else n..];
      if line != "" && line[0] != '#' {
        match format
        case Fish2x => vars := ParseMessage2x(loc, line, vars);
        case _ => vars := ParseMessage30Internal(loc, line, vars);
      }
    }
  }
}
