module TypedText {
  /**
   What the text of an argument stands for (src/common.rs:492-756, 834-1011): wildcards, variables and the home
   directory where they are active, quoted text, and escapes. The words here are made of pieces that are read
   one after the other; braces are not part of them.
   */

  import opened Common
  import opened Wide
  import opened Escape

  // ---------------------------------------------------------------- text without quotes and escapes

  /** Nothing in it is quoted, escaped, a brace, or a character fish keeps for itself. */
  predicate BareText(s: string) {
    forall i :: 0 <= i < |s| ==>
                  !Reserved(s[i]) && s[i] != '\\' && s[i] != '\'' && s[i] != '"' && s[i] != '{' && s[i] != '}'
  }

  /** What it stands for under SPECIAL. `first` says that it begins the argument. */
  function Meant(qmarkNoglob: bool, s: string, first: bool): string {
    if s == "" then ""
    else if |s| >= 2 && s[0] == '*' && s[1] == '*' then [ANY_STRING_RECURSIVE] + Meant(qmarkNoglob, s[2..], false)
    else if s[0] == '*' then [ANY_STRING] + Meant(qmarkNoglob, s[1..], false)
    else if s[0] == '?' && !qmarkNoglob then [ANY_CHAR] + Meant(qmarkNoglob, s[1..], false)
    else if s[0] == '$' && !(|s| >= 2 && s[1] == '(') then [VARIABLE_EXPAND] + Meant(qmarkNoglob, s[1..], false)
    else if s[0] == '~' && first then [HOME_DIRECTORY] + Meant(qmarkNoglob, s[1..], false)
    else [s[0]] + Meant(qmarkNoglob, s[1..], false)
  }

  predicate NotAfterStar(s: string, out: string) {
    s != "" && s[0] == '*' && out != "" ==> out[|out| - 1] != ANY_STRING
  }

  /** What one character stands for before `rest`. */
  function MeantChar(qmarkNoglob: bool, c: char, rest: string, first: bool): char {
    if c == '*' then ANY_STRING
    else if c == '?' && !qmarkNoglob then ANY_CHAR
    else if c == '$' && !(rest != "" && rest[0] == '(') then VARIABLE_EXPAND
    else if c == '~' && first then HOME_DIRECTORY
    else c
  }

  lemma CharStep(loc: Locale, flags: UnescapeFlags, c: char, rest: string, first: bool, out: string)
    requires BareText([c])
    requires flags.special ==> NotAfterStar([c], out) && !(first && [c] + rest == "%self" && !flags.removePercentSelf)
    ensures UnescapeFrom(loc, flags, [c] + rest, first, Unquoted, out)
            == UnescapeFrom(loc, flags, rest, false, Unquoted,
                            out + [if flags.special then MeantChar(flags.qmarkNoglob, c, rest, first) else c])
  {
    var text := [c] + rest;
    assert [c][0] == c && text[0] == c && text[1..] == rest;
    assert rest != "" ==> text[1] == rest[0];
  }

  lemma SecondStar(loc: Locale, flags: UnescapeFlags, rest: string, out: string)
    requires flags.special
    ensures UnescapeFrom(loc, flags, "*" + rest, false, Unquoted, out + [ANY_STRING])
            == UnescapeFrom(loc, flags, rest, false, Unquoted, out + [ANY_STRING_RECURSIVE])
  {
    var text := "*" + rest;
    assert text[0] == '*' && text[1..] == rest;
    assert (out + [ANY_STRING])[..|out|] == out;
  }

  /** One character, or two stars. */
  lemma BareStep(loc: Locale, flags: UnescapeFlags, s: string, tail: string, first: bool, out: string) returns (n: nat, c: char)
    requires BareText(s) && s != "" && (tail != "" ==> tail[0] == '\'' || tail[0] == '"' || tail[0] == '\\')
    requires flags.special ==> NotAfterStar(s, out) && !(first && s + tail == "%self" && !flags.removePercentSelf)
    ensures 0 < n <= |s| && (flags.special ==> NotAfterStar(s[n..], out + [c]))
    ensures UnescapeFrom(loc, flags, s + tail, first, Unquoted, out)
            == UnescapeFrom(loc, flags, s[n..] + tail, false, Unquoted, out + [c])
    ensures flags.special ==> Meant(flags.qmarkNoglob, s, first) == [c] + Meant(flags.qmarkNoglob, s[n..], false)
    ensures !flags.special ==> n == 1 && c == s[0]
  {
    hide UnescapeFrom;
    var rest := s[1..] + tail;
    assert s + tail == [s[0]] + rest;
    assert BareText([s[0]]);
    CharStep(loc, flags, s[0], rest, first, out);
    n, c := 1, if flags.special then MeantChar(flags.qmarkNoglob, s[0], rest, first) else s[0];
    if flags.special && |s| >= 2 && s[0] == '*' && s[1] == '*' {
      n, c := 2, ANY_STRING_RECURSIVE;
      assert rest == "*" + (s[2..] + tail);
      SecondStar(loc, flags, s[2..] + tail, out);
    }
  }

  /** Bare text is read character by character. */
  lemma {:induction false} BareReads(loc: Locale, flags: UnescapeFlags, s: string, tail: string, first: bool, out: string)
    requires BareText(s) && (tail != "" ==> tail[0] == '\'' || tail[0] == '"' || tail[0] == '\\')
    requires flags.special ==> NotAfterStar(s, out) && !(first && s + tail == "%self" && !flags.removePercentSelf)
    ensures UnescapeFrom(loc, flags, s + tail, first, Unquoted, out)
            == UnescapeFrom(loc, flags, tail, first && s == "", Unquoted,
                            out + if flags.special then Meant(flags.qmarkNoglob, s, first) else s)
    decreases |s|
  {
    if s == "" {
      assert s + tail == tail && out + "" == out;
    } else {
      var n, c := BareStep(loc, flags, s, tail, first, out);
      hide UnescapeFrom, Meant;
      BareReads(loc, flags, s[n..], tail, false, out + [c]);
      assert [s[0]] + s[1..] == s;
      Appended(out, [c], if flags.special then Meant(flags.qmarkNoglob, s[n..], false) else s[n..]);
    }
  }

  lemma Appended(out: string, a: string, b: string)
    ensures out + a + b == out + (a + b)
  {
  }

  // ---------------------------------------------------------------- quoted text

  /** Between double quotes only a dollar is active. */
  function MeantInQuotes(s: string): string {
    if s == "" then ""
    else [if s[0] == '$' then VARIABLE_EXPAND_SINGLE else s[0]] + MeantInQuotes(s[1..])
  }

  lemma {:induction false} DoubleQuotedReads(loc: Locale, flags: UnescapeFlags, s: string, tail: string, out: string)
    requires forall i :: 0 <= i < |s| ==> s[i] != '"' && s[i] != '\\'
    ensures UnescapeFrom(loc, flags, s + ("\"" + tail), false, DoubleQuotes, out)
            == UnescapeFrom(loc, flags, tail, false, Unquoted, out + (if flags.special then MeantInQuotes(s) else s) + QuoteMark(flags))
    decreases |s|
  {
    var text := s + ("\"" + tail);
    if s == "" {
      assert text == "\"" + tail && text[1..] == tail && out + "" == out;
    } else {
      assert text[0] == s[0] && text[1..] == s[1..] + ("\"" + tail);
      var c := if flags.special && s[0] == '$' then VARIABLE_EXPAND_SINGLE else s[0];
      DoubleQuotedReads(loc, flags, s[1..], tail, out + [c]);
      hide UnescapeFrom;
      assert [s[0]] + s[1..] == s;
      Appended(out, [c], if flags.special then MeantInQuotes(s[1..]) else s[1..]);
    }
  }

  lemma {:induction false} SingleQuotedReads(loc: Locale, flags: UnescapeFlags, s: string, tail: string, out: string)
    requires forall i :: 0 <= i < |s| ==> s[i] != '\'' && s[i] != '\\'
    ensures UnescapeFrom(loc, flags, s + ("'" + tail), false, SingleQuotes, out)
            == UnescapeFrom(loc, flags, tail, false, Unquoted, out + s + QuoteMark(flags))
    decreases |s|
  {
    var text := s + ("'" + tail);
    if s == "" {
      assert text == "'" + tail && text[1..] == tail && out + "" == out;
    } else {
      assert text[0] == s[0] && text[1..] == s[1..] + ("'" + tail);
      SingleQuotedReads(loc, flags, s[1..], tail, out + [s[0]]);
      hide UnescapeFrom;
      assert [s[0]] + s[1..] == s;
      Appended(out, [s[0]], s[1..]);
    }
  }

  // ---------------------------------------------------------------- escapes

  /** The letters of escapes for control characters. */
  const ALERT := 7 as char
  const BACKSPACE := 8 as char
  const VERTICAL_TAB := 11 as char
  const FORM_FEED := 12 as char
  const ESCAPE := 27 as char

  function OctalDigit(c: char): nat
    requires '0' <= c <= '7'
  {
    c as nat - '0' as nat
  }

  /** `spelling` is an escape, all of it, whatever follows, and stands for `meaning`. */
  predicate Spells(spelling: string, meaning: char) {
    || (spelling == "\\a" && meaning == ALERT)
    || (spelling == "\\b" && meaning == BACKSPACE)
    || (spelling == "\\e" && meaning == ESCAPE)
    || (spelling == "\\f" && meaning == FORM_FEED)
    || (spelling == "\\n" && meaning == '\n')
    || (spelling == "\\r" && meaning == '\r')
    || (spelling == "\\t" && meaning == '\t')
    || (spelling == "\\v" && meaning == VERTICAL_TAB)
    || (|spelling| == 3 && spelling[0] == '\\' && spelling[1] == 'c'
        && ('a' <= spelling[2] <= 'z' || 'A' <= spelling[2] <= 'Z')
        && meaning as int == (spelling[2] as int - (if spelling[2] >= 'a' then 'a' else 'A') as int) + 1)
    || (|spelling| == 4 && spelling[0] == '\\' && (forall i :: 1 <= i < 4 ==> '0' <= spelling[i] <= '7')
        && meaning as int == 64 * OctalDigit(spelling[1]) + 8 * OctalDigit(spelling[2]) + OctalDigit(spelling[3]) < 128)
  }

  lemma OneOctal(d: char, rest: string, chars: nat, value: nat)
    requires '0' <= d <= '7'
    ensures ReadDigits([d] + rest, 8, chars + 1, value) == ReadDigits(rest, 8, chars, value * 8 + OctalDigit(d))
  {
    assert ([d] + rest)[0] == d && ([d] + rest)[1..] == rest;
    assert DigitValue(d, 8) == Some(OctalDigit(d));
  }

  lemma OctalReads(digits: string, tail: string)
    requires |digits| == 3 && forall i :: 0 <= i < 3 ==> '0' <= digits[i] <= '7'
    ensures ReadDigits(digits + tail, 8, 3, 0)
            == (64 * OctalDigit(digits[0]) + 8 * OctalDigit(digits[1]) + OctalDigit(digits[2]), tail)
  {
    var a, b, c := digits[0], digits[1], digits[2];
    assert digits + tail == [a] + ([b] + ([c] + tail));
    assert ReadDigits(tail, 8, 0, (OctalDigit(a) * 8 + OctalDigit(b)) * 8 + OctalDigit(c))
        == (64 * OctalDigit(a) + 8 * OctalDigit(b) + OctalDigit(c), tail);
    hide ReadDigits, OctalDigit;
    OneOctal(a, [b] + ([c] + tail), 2, 0);
    OneOctal(b, [c] + tail, 1, OctalDigit(a));
    OneOctal(c, tail, 0, OctalDigit(a) * 8 + OctalDigit(b));
  }

  lemma OctalEscape(loc: Locale, rest: string, meaning: char, tail: string, incomplete: bool, special: bool)
    requires |rest| == 3 && forall i :: 0 <= i < 3 ==> '0' <= rest[i] <= '7'
    requires meaning as int == 64 * OctalDigit(rest[0]) + 8 * OctalDigit(rest[1]) + OctalDigit(rest[2]) < 128
    ensures ReadEscape(loc, rest + tail, [], incomplete, special) == Read([meaning], tail)
  {
    OctalReads(rest, tail);
    hide ReadDigits;
    assert (rest + tail)[0] == rest[0];
    assert "" + [meaning] == [meaning];
  }

  lemma ControlEscape(loc: Locale, letter: char, meaning: char, tail: string, incomplete: bool, special: bool)
    requires 'a' <= letter <= 'z' || 'A' <= letter <= 'Z'
    requires meaning as int == (letter as int - (if letter >= 'a' then 'a' else 'A') as int) + 1
    ensures ReadEscape(loc, ['c', letter] + tail, [], incomplete, special) == Read([meaning], tail)
  {
    var rest := ['c', letter] + tail;
    assert rest[0] == 'c' && rest[1] == letter && rest[2..] == tail;
    assert "" + [meaning] == [meaning];
  }

  lemma NamedEscapeReads(loc: Locale, letter: char, meaning: char, tail: string, incomplete: bool, special: bool)
    requires Spells(['\\', letter], meaning)
    ensures ReadEscape(loc, [letter] + tail, [], incomplete, special) == Read([meaning], tail)
  {
    var spelling := ['\\', letter];
    assert spelling[1] == letter;
    assert ([letter] + tail)[0] == letter && ([letter] + tail)[1..] == tail;
    assert NamedEscape(letter) == Some(meaning);
    assert "" + [meaning] == [meaning];
  }

  lemma SpellingParts(spelling: string, meaning: char)
    requires Spells(spelling, meaning)
    ensures 2 <= |spelling| <= 4 && spelling[0] == '\\'
    ensures |spelling| == 2 ==> spelling == ['\\', spelling[1]] && spelling[1..] == [spelling[1]]
    ensures |spelling| == 3 ==>
              && spelling[1..] == ['c', spelling[2]] && ('a' <= spelling[2] <= 'z' || 'A' <= spelling[2] <= 'Z')
              && meaning as int == (spelling[2] as int - (if spelling[2] >= 'a' then 'a' else 'A') as int) + 1
    ensures |spelling| == 4 ==>
              && (forall i :: 1 <= i < 4 ==> '0' <= spelling[i] <= '7')
              && meaning as int == 64 * OctalDigit(spelling[1]) + 8 * OctalDigit(spelling[2]) + OctalDigit(spelling[3]) < 128
  {
  }

  lemma SpellingEscape(loc: Locale, spelling: string, meaning: char, tail: string, incomplete: bool, special: bool)
    requires Spells(spelling, meaning)
    ensures spelling != "" && spelling[0] == '\\'
    ensures ReadEscape(loc, spelling[1..] + tail, [], incomplete, special) == Read([meaning], tail)
  {
    SpellingParts(spelling, meaning);
    hide ReadEscape, Spells;
    if |spelling| == 2 {
      NamedEscapeReads(loc, spelling[1], meaning, tail, incomplete, special);
    } else if |spelling| == 3 {
      ControlEscape(loc, spelling[2], meaning, tail, incomplete, special);
    } else {
      OctalEscape(loc, spelling[1..], meaning, tail, incomplete, special);
    }
  }

  /** An escape is read as what it stands for. */
  lemma SpellingReads(loc: Locale, flags: UnescapeFlags, spelling: string, meaning: char, tail: string, first: bool, out: string)
    requires Spells(spelling, meaning) && !flags.noBackslashes
    ensures UnescapeFrom(loc, flags, spelling + tail, first, Unquoted, out)
            == UnescapeFrom(loc, flags, tail, false, Unquoted, out + [meaning])
  {
    hide *;
    SpellingEscape(loc, spelling, meaning, tail, flags.incomplete, flags.special);
    EscapeStep(loc, flags, spelling[1..], meaning, tail, first, out);
    assert spelling + tail == ['\\'] + (spelling[1..] + tail);
  }

  lemma EscapeStep(loc: Locale, flags: UnescapeFlags, rest: string, meaning: char, tail: string, first: bool, out: string)
    requires ReadEscape(loc, rest + tail, [], flags.incomplete, flags.special) == Read([meaning], tail) && !flags.noBackslashes
    ensures UnescapeFrom(loc, flags, ['\\'] + (rest + tail), first, Unquoted, out)
            == UnescapeFrom(loc, flags, tail, false, Unquoted, out + [meaning])
  {
    hide ReadEscape;
    var text := ['\\'] + (rest + tail);
    assert text[0] == '\\' && text[1..] == rest + tail;
  }

  // ---------------------------------------------------------------- words

  /** The pieces of a word. */
  datatype Piece =
    | Bare(text: string)
    | DoubleQuoted(text: string)
    | SingleQuoted(text: string)
    | Escaped(spelling: string, meaning: char)
    | Backslashed(c: char)

  predicate PieceSound(p: Piece) {
    match p
    case Bare(text) => BareText(text)
    case DoubleQuoted(text) => forall i :: 0 <= i < |text| ==> text[i] != '"' && text[i] != '\\'
    case SingleQuoted(text) => forall i :: 0 <= i < |text| ==> text[i] != '\'' && text[i] != '\\'
    case Escaped(spelling, meaning) => Spells(spelling, meaning)
    case Backslashed(c) => !Reserved(c) && c !in "abefnrtvcxXuU01234567\n\0"
  }

  /** Bare text is not cut in two. */
  predicate WordSound(word: seq<Piece>) {
    && (forall p <- word :: PieceSound(p))
    && (forall i :: 0 <= i < |word| - 1 ==> !(word[i].Bare? && word[i + 1].Bare?))
  }

  function Spelled(p: Piece): string {
    match p
    case Bare(text) => text
    case DoubleQuoted(text) => "\"" + (text + "\"")
    case SingleQuoted(text) => "'" + (text + "'")
    case Escaped(spelling, _) => spelling
    case Backslashed(c) => ['\\', c]
  }

  function Spelling(word: seq<Piece>): string {
    if word == [] then "" else Spelled(word[0]) + Spelling(word[1..])
  }

  function MeaningOf(flags: UnescapeFlags, p: Piece, first: bool): string {
    match p
    case Bare(text) => if flags.special then Meant(flags.qmarkNoglob, text, first) else text
    case DoubleQuoted(text) => QuoteMark(flags) + (if flags.special then MeantInQuotes(text) else text) + QuoteMark(flags)
    case SingleQuoted(text) => QuoteMark(flags) + text + QuoteMark(flags)
    case Escaped(_, meaning) => [meaning]
    case Backslashed(c) => QuoteMark(flags) + [c]
  }

  /** What a word stands for: each piece on its own, the first one knowing that it is. */
  function Meaning(flags: UnescapeFlags, word: seq<Piece>, first: bool): string {
    if word == [] then ""
    else MeaningOf(flags, word[0], first) + Meaning(flags, word[1..], first && Spelled(word[0]) == "")
  }

  /** Bare text can follow. */
  predicate Open(flags: UnescapeFlags, word: seq<Piece>, out: string) {
    flags.special && word != [] && word[0].Bare? ==> NotAfterStar(word[0].text, out)
  }

  predicate Escapes(flags: UnescapeFlags, word: seq<Piece>) {
    flags.noBackslashes ==> forall p <- word :: !p.Escaped? && !p.Backslashed?
  }

  lemma PieceReads(loc: Locale, flags: UnescapeFlags, word: seq<Piece>, first: bool, out: string)
    requires WordSound(word) && word != [] && Open(flags, word, out) && Escapes(flags, word)
    requires flags.special && first ==> flags.removePercentSelf || Spelling(word) != "%self"
    ensures UnescapeFrom(loc, flags, Spelling(word), first, Unquoted, out)
            == UnescapeFrom(loc, flags, Spelling(word[1..]), first && Spelled(word[0]) == "", Unquoted,
                            out + MeaningOf(flags, word[0], first))
  {
    var p, tail := word[0], Spelling(word[1..]);
    assert PieceSound(p);
    TailStart(word);
    match p
    case Bare(text) =>
      hide UnescapeFrom, Meant, BareText;
      BareReads(loc, flags, text, tail, first, out);
    case DoubleQuoted(text) =>
      QuoteOpens(loc, flags, '"', text, tail, first, out);
      DoubleQuotedReads(loc, flags, text, tail, out + QuoteMark(flags));
      hide UnescapeFrom;
      Appended3(out, QuoteMark(flags), if flags.special then MeantInQuotes(text) else text, QuoteMark(flags));
    case SingleQuoted(text) =>
      QuoteOpens(loc, flags, '\'', text, tail, first, out);
      SingleQuotedReads(loc, flags, text, tail, out + QuoteMark(flags));
      hide UnescapeFrom;
      Appended3(out, QuoteMark(flags), text, QuoteMark(flags));
    case Escaped(spelling, meaning) =>
      hide UnescapeFrom;
      SpellingParts(spelling, meaning);
      SpellingReads(loc, flags, spelling, meaning, tail, first, out);
    case Backslashed(c) =>
      hide UnescapeFrom;
      BackslashReads(loc, flags, c, tail, first, out);
  }

  lemma BackslashReads(loc: Locale, flags: UnescapeFlags, c: char, tail: string, first: bool, out: string)
    requires PieceSound(Backslashed(c)) && !flags.noBackslashes
    ensures UnescapeFrom(loc, flags, ['\\', c] + tail, first, Unquoted, out)
            == UnescapeFrom(loc, flags, tail, false, Unquoted, out + (QuoteMark(flags) + [c]))
  {
    var text := ['\\', c] + tail;
    assert text[0] == '\\' && text[1..] == [c] + tail;
    assert PairReads(c, c);
    ReadPair(loc, c, c, tail, flags.incomplete, flags.special);
    hide ReadEscape;
    assert QuoteMark(flags) + [c] == if flags.special then [INTERNAL_SEPARATOR, c] else [c];
  }

  lemma Appended3(out: string, a: string, b: string, c: string)
    ensures out + a + b + c == out + (a + b + c)
  {
  }

  lemma QuoteOpens(loc: Locale, flags: UnescapeFlags, quote: char, text: string, tail: string, first: bool, out: string)
    requires quote == '"' || quote == '\''
    ensures UnescapeFrom(loc, flags, [quote] + (text + [quote]) + tail, first, Unquoted, out)
            == UnescapeFrom(loc, flags, text + ([quote] + tail), false, if quote == '"' then DoubleQuotes else SingleQuotes,
                            out + QuoteMark(flags))
  {
    var all := [quote] + (text + [quote]) + tail;
    assert all[0] == quote && all[1..] == text + ([quote] + tail);
  }

  /** What comes after bare text is a quote or a backslash, or nothing. */
  lemma {:induction false} TailStart(word: seq<Piece>)
    requires WordSound(word) && word != []
    ensures var tail := Spelling(word[1..]);
            word[0].Bare? && tail != "" ==> tail[0] == '\'' || tail[0] == '"' || tail[0] == '\\'
  {
    if word[0].Bare? && |word| > 1 {
      assert PieceSound(word[1]) && !word[1].Bare?;
      if word[1].Escaped? {
        SpellingParts(word[1].spelling, word[1].meaning);
      }
    }
  }

  lemma StaysOpen(flags: UnescapeFlags, word: seq<Piece>, first: bool, out: string)
    requires WordSound(word) && word != [] && Open(flags, word, out)
    ensures Open(flags, word[1..], out + MeaningOf(flags, word[0], first))
  {
    var p := word[0];
    assert PieceSound(p);
    if flags.special && |word| > 1 && word[1].Bare? {
      var meaning := MeaningOf(flags, p, first);
      assert meaning != "" && meaning[|meaning| - 1] != ANY_STRING;
      assert (out + meaning)[|out + meaning| - 1] == meaning[|meaning| - 1];
    }
  }

  lemma {:induction false} WordReads(loc: Locale, flags: UnescapeFlags, word: seq<Piece>, first: bool, out: string)
    requires WordSound(word) && Open(flags, word, out) && Escapes(flags, word)
    requires flags.special && first ==> flags.removePercentSelf || Spelling(word) != "%self"
    ensures UnescapeFrom(loc, flags, Spelling(word), first, Unquoted, out) == Text(out + Meaning(flags, word, first))
    decreases |word|
  {
    if word == [] {
      assert out + "" == out;
    } else {
      var next := out + MeaningOf(flags, word[0], first);
      PieceReads(loc, flags, word, first, out);
      StaysOpen(flags, word, first, out);
      assert Spelled(word[0]) == "" ==> Spelling(word) == Spelling(word[1..]);
      hide UnescapeFrom, MeaningOf, Spelled, Open, PieceSound;
      WordReads(loc, flags, word[1..], first && Spelled(word[0]) == "", next);
      Appended(out, MeaningOf(flags, word[0], first), Meaning(flags, word[1..], first && Spelled(word[0]) == ""));
    }
  }

  /** Every word is unescaped to what its pieces stand for. */
  lemma WordUnescapes(loc: Locale, flags: UnescapeFlags, word: seq<Piece>)
    requires WordSound(word) && Escapes(flags, word)
    requires flags.special ==> flags.removePercentSelf || Spelling(word) != "%self"
    ensures UnescapeScript(loc, flags, Spelling(word)) == Text(Meaning(flags, word, true))
  {
    WordReads(loc, flags, word, true, "");
    assert "" + Meaning(flags, word, true) == Meaning(flags, word, true);
  }

  /** In particular text with nothing quoted or escaped. */
  lemma BareUnescapes(loc: Locale, flags: UnescapeFlags, s: string)
    requires BareText(s) && (flags.special ==> flags.removePercentSelf || s != "%self")
    ensures UnescapeScript(loc, flags, s) == Text(if flags.special then Meant(flags.qmarkNoglob, s, true) else s)
  {
    WordUnescapes(loc, flags, [Bare(s)]);
    assert Spelling([Bare(s)]) == s + "" == s;
    var meaning := MeaningOf(flags, Bare(s), true);
    assert Meaning(flags, [Bare(s)], true) == meaning + "" == meaning;
  }

  lemma PercentSelf(loc: Locale, flags: UnescapeFlags)
    requires flags.special && !flags.removePercentSelf
    ensures UnescapeScript(loc, flags, "%self") == Text([PROCESS_EXPAND_SELF])
  {
    assert "" + [PROCESS_EXPAND_SELF] == [PROCESS_EXPAND_SELF];
  }
}
