module WrappedText {
  /**
   A message with its line breaks redone to fit the terminal (reformat_for_screen, src/common.rs:1403-1461).
   How wide a character is shown (fish_wcwidth) is a parameter; widths may be negative, as they are for
   characters that cannot be printed.

   A token is what can be printed without a break: a word, or as much of one as leaves room for a hyphen. Tokens
   are put on a line, one after the other with spaces between them, until one does not fit.
   */

  import opened Common

  type Widths = char -> int

  predicate Blank(c: char) {
    c == ' ' || c == '\n' || c == '\r' || c == '\t'
  }

  // ---------------------------------------------------------------- what is printed

  datatype Token = Token(end: nat, width: int, overflow: bool)

  /** The rest of a token that has been read up to `pos` and is `width` wide so far. */
  function TokenFrom(msg: string, pos: nat, width: int, screen: int, widths: Widths): (t: Token)
    requires pos <= |msg|
    ensures pos <= t.end <= |msg|
    ensures forall i :: pos <= i < t.end ==> !Blank(msg[i])
    ensures pos < t.end ==> t.width <= screen - 1
    ensures !t.overflow && t.end < |msg| ==> Blank(msg[t.end])
    decreases |msg| - pos
  {
    if pos == |msg| || Blank(msg[pos]) then Token(pos, width, false)
    else if width + widths(msg[pos]) > screen - 1 then Token(pos, width, true)
    else TokenFrom(msg, pos + 1, width + widths(msg[pos]), screen, widths)
  }

  function TokenAt(msg: string, start: nat, screen: int, widths: Widths): Token
    requires start <= |msg|
  {
    TokenFrom(msg, start, 0, screen, widths)
  }

  /** A token starts a line of its own if it does not fit the current one. */
  predicate Breaks(lineWidth: int, width: int, screen: int) {
    lineWidth + (if lineWidth != 0 then 1 else 0) + width > screen
  }

  /** The width of the line after a token. The place of a space counts even where there is a break instead. */
  function WidthNext(lineWidth: int, t: Token, screen: int): int {
    if t.overflow then 0
    else (if Breaks(lineWidth, t.width, screen) then 0 else lineWidth) + (if lineWidth != 0 then 1 else 0) + t.width
  }

  /** What comes before a token. */
  function Gap(lineWidth: int, t: Token, screen: int): string {
    var breaks := if t.overflow then lineWidth != 0 else Breaks(lineWidth, t.width, screen);
    if breaks then "\n" else if lineWidth != 0 then " " else ""
  }

  /** The message from `start` on, in a line that has some width already. */
  function Wrapped(msg: string, start: nat, lineWidth: int, screen: int, widths: Widths): string
    requires start <= |msg|
    decreases |msg| - start
  {
    if start == |msg| then ""
    else
      var t := TokenAt(msg, start, screen, widths);
      if t.end == start then Wrapped(msg, start + 1, lineWidth, screen, widths)
      else
        Gap(lineWidth, t, screen) + (msg[start..t.end] + ((if t.overflow then "-\n" else "")
                                                          + Wrapped(msg, t.end, WidthNext(lineWidth, t, screen), screen, widths)))
  }

  function Reformatted(msg: string, screen: int, widths: Widths): string {
    (if screen == 0 then msg else Wrapped(msg, 0, 0, screen, widths)) + "\n"
  }

  // ---------------------------------------------------------------- lines that fit

  /** All lines of a text fit, if the first one goes on from some width. */
  predicate Fits(text: string, width: int, limit: int, widths: Widths) {
    if text == "" then width <= limit
    else if text[0] == '\n' then width <= limit && Fits(text[1..], 0, limit, widths)
    else Fits(text[1..], width + widths(text[0]), limit, widths)
  }

  function WidthOf(text: string, widths: Widths): int {
    if text == "" then 0 else widths(text[0]) + WidthOf(text[1..], widths)
  }

  /** The width of a line, up to the token, that was some width wide. */
  function WidthBefore(lineWidth: int, t: Token, screen: int, width: int): int {
    var gap := Gap(lineWidth, t, screen);
    if gap == "\n" then 0 else width + |gap|
  }

  // ---------------------------------------------------------------- the text that is kept

  /** What is printed of a text that goes on with a token some columns wide. A character is lost if it is as wide as
      the screen and, with what the token has already, no narrower; without negative widths, if it is as wide as
      the screen. */
  function Kept(text: string, width: int, screen: int, widths: Widths): string {
    if text == "" then ""
    else
      var w := widths(text[0]);
      if Blank(text[0]) then Kept(text[1..], 0, screen, widths)
      else if width + w < screen then [text[0]] + Kept(text[1..], width + w, screen, widths)
      else if w < screen then [text[0]] + Kept(text[1..], w, screen, widths)
      else Kept(text[1..], 0, screen, widths)
  }

  function NotBlank(text: string): string {
    if text == "" then "" else (if Blank(text[0]) then "" else [text[0]]) + NotBlank(text[1..])
  }

  predicate NoNegativeWidth(widths: Widths, text: string) {
    forall i :: 0 <= i < |text| ==> widths(text[i]) >= 0
  }

  /** The printed text is this text with spaces, line breaks, and hyphens before line breaks put in. */
  predicate Laid(text: string, printed: string)
    decreases |printed|
  {
    || (text == "" && printed == "")
    || (printed != "" && (printed[0] == ' ' || printed[0] == '\n') && Laid(text, printed[1..]))
    || (|printed| >= 2 && printed[0] == '-' && printed[1] == '\n' && Laid(text, printed[2..]))
    || (text != "" && printed != "" && text[0] == printed[0] && Laid(text[1..], printed[1..]))
  }

  // ---------------------------------------------------------------- words

  function WordLength(text: string): (n: nat)
    ensures n <= |text| && (forall i :: 0 <= i < n ==> !Blank(text[i]))
    ensures n < |text| ==> Blank(text[n])
  {
    if text == "" || Blank(text[0]) then 0 else 1 + WordLength(text[1..])
  }

  /** The longest pieces without blanks. */
  function Words(text: string): seq<string> {
    if text == "" then []
    else if Blank(text[0]) then Words(text[1..])
    else [text[..WordLength(text)]] + Words(text[WordLength(text)..])
  }

  /** A word is one token if each of its beginnings leaves room for a hyphen on a line. */
  predicate LeavesRoom(word: string, width: int, screen: int, widths: Widths) {
    word == "" || (width + widths(word[0]) < screen && LeavesRoom(word[1..], width + widths(word[0]), screen, widths))
  }

  predicate WordsFit(words: seq<string>, screen: int, widths: Widths) {
    forall word <- words :: LeavesRoom(word, 0, screen, widths)
  }

  /** No word but the last leaves the line with a counted width of zero, as a word of width zero can, or one that
      makes up for a negative width. */
  predicate NeverAtZero(words: seq<string>, lineWidth: int, screen: int, widths: Widths) {
    |words| <= 1
    || var next := WidthNext(lineWidth, Token(0, WidthOf(words[0], widths), false), screen);
       next != 0 && NeverAtZero(words[1..], next, screen, widths)
  }
}
