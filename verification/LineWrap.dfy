module LineWrap {
  /** What holds of every wrapped message, and reformat_for_screen (src/common.rs:1403-1461) itself. */

  import opened Common
  import opened WrappedText
  import opened WrapSteps

  /** No line is wider than the screen. */
  lemma EveryLineFits(msg: string, screen: int, widths: Widths)
    requires screen > 0 && widths(' ') == 1 && widths('-') == 1
    ensures Fits(Reformatted(msg, screen, widths), 0, screen, widths)
  {
    WrappedFits(msg, 0, 0, screen, widths, 0, screen);
  }

  // ---------------------------------------------------------------- the text is kept

  /** What is printed is the text, but for characters as wide as the screen, in order and with nothing
      but spaces, line breaks and hyphens put in. */
  lemma KeepsText(msg: string, screen: int, widths: Widths)
    requires screen != 0
    ensures Reformatted(msg, screen, widths) == Wrapped(msg, 0, 0, screen, widths) + "\n"
    ensures Laid(Kept(msg, 0, screen, widths), Wrapped(msg, 0, 0, screen, widths))
    ensures (forall i :: 0 <= i < |msg| && !Blank(msg[i]) ==> widths(msg[i]) < screen)
            ==> Laid(NotBlank(msg), Wrapped(msg, 0, 0, screen, widths))
  {
    WrappedKeepsText(msg, 0, 0, screen, widths);
    assert msg[0..] == msg;
    if forall i :: 0 <= i < |msg| && !Blank(msg[i]) ==> widths(msg[i]) < screen {
      NarrowIsKept(msg, 0, screen, widths);
    }
  }

  /** The whole text is printed exactly if all its characters are narrower than the screen. */
  lemma LosesNothingIff(msg: string, screen: int, widths: Widths)
    requires screen != 0 && NoNegativeWidth(widths, msg) && widths('-') < screen
    ensures Laid(NotBlank(msg), Wrapped(msg, 0, 0, screen, widths))
            <==> forall i :: 0 <= i < |msg| && !Blank(msg[i]) ==> widths(msg[i]) < screen
  {
    KeepsText(msg, screen, widths);
    forall i | 0 <= i < |msg| && !Blank(msg[i]) && widths(msg[i]) >= screen
      ensures !Laid(NotBlank(msg), Wrapped(msg, 0, 0, screen, widths))
    {
      var c := msg[i];
      var printed := Wrapped(msg, 0, 0, screen, widths);
      WideIsLost(msg, 0, screen, widths, c);
      NotBlankHas(msg, i);
      LaidCounts(Kept(msg, 0, screen, widths), printed, c);
      assert c in multiset(NotBlank(msg)) && c !in multiset(Kept(msg, 0, screen, widths));
      if Laid(NotBlank(msg), printed) {
        LaidCounts(NotBlank(msg), printed, c);
      }
    }
  }

  function WideW(c: char): int {
    if c == 'W' then 2 else 1
  }

  /** A character two columns wide is lost on a screen of two. */
  lemma LosesWideCharacter()
    ensures Reformatted("aWb", 2, WideW) == "a-\nb\n"
  {
    var msg := "aWb";
    assert TokenAt(msg, 2, 2, WideW) == Token(3, 1, false);
    assert Wrapped(msg, 2, 0, 2, WideW) == "b";
    assert TokenAt(msg, 1, 2, WideW) == Token(1, 0, true);
    assert TokenAt(msg, 0, 2, WideW) == Token(1, 1, true);
    assert Wrapped(msg, 1, 0, 2, WideW) == "b";
    assert Wrapped(msg, 0, 0, 2, WideW) == "a-\n" + "b";
  }

  // ---------------------------------------------------------------- words stay apart

  /** If every word is one token, what is printed has the same words exactly if no word but the last leaves the
      line at zero; otherwise words run together, and there are fewer. */
  lemma KeepsWordsIff(msg: string, screen: int, widths: Widths)
    requires screen != 0 && WordsFit(Words(msg), screen, widths)
    ensures Words(Reformatted(msg, screen, widths)) == Words(msg) <==> NeverAtZero(Words(msg), 0, screen, widths)
    ensures |Words(Reformatted(msg, screen, widths))| <= |Words(msg)|
  {
    assert msg[0..] == msg;
    WrappedWords(msg, 0, 0, screen, widths);
    WordsBeforeBreak(Wrapped(msg, 0, 0, screen, widths));
  }

  /** Words that can be seen and leave room for a hyphen are kept: none is split, and no two run together. */
  lemma KeepsWords(msg: string, screen: int, widths: Widths)
    requires NoNegativeWidth(widths, msg) && forall word <- Words(msg) :: 0 < WidthOf(word, widths) < screen
    ensures Words(Reformatted(msg, screen, widths)) == Words(msg)
  {
    if screen == 0 {
      WordsBeforeBreak(msg);
    } else {
      forall word <- Words(msg) ensures LeavesRoom(word, 0, screen, widths) {
        WordsOfText(msg, word);
        forall i | 0 <= i < |word| ensures widths(word[i]) >= 0 {
          assert word[i] in msg;
        }
        NarrowWordFits(word, 0, screen, widths);
      }
      SeenNeverAtZero(Words(msg), 0, screen, widths);
      KeepsWordsIff(msg, screen, widths);
    }
  }

  // ---------------------------------------------------------------- breaks that are not needed

  /** How far wrapping has come: the place in the message, the width the line counts, what has been printed, and
      whether the current line was begun because a word did not fit. */
  datatype Place = Place(start: nat, counted: int, printed: string, broken: bool)

  function NextPlace(msg: string, p: Place, screen: int, widths: Widths): Place
    requires p.start < |msg|
  {
    var t := TokenAt(msg, p.start, screen, widths);
    if t.end == p.start then p.(start := p.start + 1)
    else
      Place(t.end, WidthNext(p.counted, t, screen),
            p.printed + (Gap(p.counted, t, screen) + (msg[p.start..t.end] + if t.overflow then "-\n" else "")),
            !t.overflow && (p.broken || Breaks(p.counted, t.width, screen)))
  }

  function PlaceAfter(msg: string, steps: nat, screen: int, widths: Widths): (p: Place)
    ensures p.start <= |msg|
  {
    if steps == 0 then Place(0, 0, "", false)
    else
      var p := PlaceAfter(msg, steps - 1, screen, widths);
      if p.start == |msg| then p else NextPlace(msg, p, screen, widths)
  }

  /** The width of the last line of a text. */
  function LastLineWidth(text: string, widths: Widths): int {
    if text == "" || text[|text| - 1] == '\n' then 0
    else LastLineWidth(text[..|text| - 1], widths) + widths(text[|text| - 1])
  }

  lemma {:induction false} LastLineAfter(text: string, more: string, widths: Widths)
    requires OneLine(more)
    ensures LastLineWidth(text + more, widths) == LastLineWidth(text, widths) + WidthOf(more, widths)
    decreases |more|
  {
    if more == "" {
      assert text + more == text;
    } else {
      assert text + more == (text + [more[0]]) + more[1..];
      LastLineAfter(text + [more[0]], more[1..], widths);
      assert (text + [more[0]])[..|text|] == text;
    }
  }

  /** What a line counts is its width, and one more if it was begun because a word did not fit. */
  lemma {:induction false} CountedIsWidth(msg: string, steps: nat, screen: int, widths: Widths)
    requires widths(' ') == 1
    ensures var p := PlaceAfter(msg, steps, screen, widths);
            && p.counted == LastLineWidth(p.printed, widths) + (if p.broken then 1 else 0)
            && Wrapped(msg, 0, 0, screen, widths) == p.printed + Wrapped(msg, p.start, p.counted, screen, widths)
  {
    if steps > 0 {
      CountedIsWidth(msg, steps - 1, screen, widths);
      var p := PlaceAfter(msg, steps - 1, screen, widths);
      if p.start < |msg| {
        StepCounts(msg, p, screen, widths);
      }
    } else {
      assert "" + Wrapped(msg, 0, 0, screen, widths) == Wrapped(msg, 0, 0, screen, widths);
    }
  }

  lemma StepCounts(msg: string, p: Place, screen: int, widths: Widths)
    requires p.start < |msg| && widths(' ') == 1
    requires p.counted == LastLineWidth(p.printed, widths) + (if p.broken then 1 else 0)
    ensures var q := NextPlace(msg, p, screen, widths);
            && q.counted == LastLineWidth(q.printed, widths) + (if q.broken then 1 else 0)
            && p.printed + Wrapped(msg, p.start, p.counted, screen, widths)
               == q.printed + Wrapped(msg, q.start, q.counted, screen, widths)
  {
    var t := TokenAt(msg, p.start, screen, widths);
    if t.end > p.start {
      TokenParts(msg, p.start, p.counted, screen, widths);
      TokenAtWidth(msg, p.start, screen, widths);
      hide TokenFrom, TokenAt, Wrapped, LastLineWidth, WidthOf, OneLine, Gap, WidthNext, Breaks;
      var gap, token := Gap(p.counted, t, screen), msg[p.start..t.end];
      var hyphen := if t.overflow then "-\n" else "";
      PrintedThen(p.printed, gap, token, hyphen, Wrapped(msg, t.end, WidthNext(p.counted, t, screen), screen, widths));
      TokenCounts(p.printed, p.counted, p.broken, t, token, screen, widths);
    }
  }

  lemma PrintedThen(printed: string, gap: string, token: string, hyphen: string, rest: string)
    ensures printed + (gap + (token + (hyphen + rest))) == printed + (gap + (token + hyphen)) + rest
  {
  }

  /** What one token does to the count and to the last line. */
  lemma TokenCounts(text: string, counted: int, broken: bool, t: Token, token: string, screen: int, widths: Widths)
    requires OneLine(token) && t.width == WidthOf(token, widths) <= screen - 1 && widths(' ') == 1
    requires counted == LastLineWidth(text, widths) + (if broken then 1 else 0)
    ensures var broken' := !t.overflow && (broken || Breaks(counted, t.width, screen));
            WidthNext(counted, t, screen)
            == LastLineWidth(text + (Gap(counted, t, screen) + (token + if t.overflow then "-\n" else "")), widths)
               + (if broken' then 1 else 0)
  {
    var gap := Gap(counted, t, screen);
    if t.overflow {
      var printed := text + (gap + (token + "-\n"));
      assert printed[|printed| - 1] == '\n';
    } else {
      assert text + (gap + (token + "")) == text + gap + token;
      LineAfterGap(text, gap, widths);
      hide LastLineWidth;
      LastLineAfter(text + gap, token, widths);
    }
  }

  lemma LineAfterGap(text: string, gap: string, widths: Widths)
    requires (gap == "" || gap == " " || gap == "\n") && widths(' ') == 1
    ensures LastLineWidth(text + gap, widths) == if gap == "\n" then 0 else LastLineWidth(text, widths) + |gap|
  {
    if gap == "" {
      assert text + gap == text;
    } else {
      assert (text + gap)[..|text|] == text;
    }
  }

  /** A line is broken although there is room for a space and the word exactly if it was itself begun because a word
      did not fit, and the word would fill it. */
  lemma EarlyBreakIff(msg: string, steps: nat, screen: int, widths: Widths)
    requires widths(' ') == 1 && PlaceAfter(msg, steps, screen, widths).start < |msg|
    requires var p := PlaceAfter(msg, steps, screen, widths);
             var t := TokenAt(msg, p.start, screen, widths);
             p.start < t.end && !t.overflow
    ensures var p := PlaceAfter(msg, steps, screen, widths);
            var t := TokenAt(msg, p.start, screen, widths);
            var width := LastLineWidth(p.printed, widths);
            Gap(p.counted, t, screen) == "\n" && width + 1 + t.width <= screen
            <==> p.broken && width + 1 + t.width == screen
  {
    CountedIsWidth(msg, steps, screen, widths);
    var p := PlaceAfter(msg, steps, screen, widths);
    TokenAtWidth(msg, p.start, screen, widths);
  }

  function One(c: char): int {
    1
  }

  /** After a break, the line counts as one wider than it is: here "b b" would fit into three columns. */
  lemma BreaksTooEarly()
    ensures Reformatted("aa b b", 3, One) == "aa\nb\nb\n"
    ensures Reformatted("b b", 3, One) == "b b\n"
  {
    var long := "aa b b";
    assert TokenAt(long, 5, 3, One) == Token(6, 1, false);
    assert Wrapped(long, 4, 2, 3, One) == Wrapped(long, 5, 2, 3, One) == "\nb";
    assert TokenAt(long, 3, 3, One) == Token(4, 1, false);
    assert Wrapped(long, 2, 2, 3, One) == Wrapped(long, 3, 2, 3, One) == "\nb" + "\nb";
    assert TokenAt(long, 0, 3, One) == Token(2, 2, false);
    assert Wrapped(long, 0, 0, 3, One) == "aa" + "\nb" + "\nb";
    var short := "b b";
    assert TokenAt(short, 2, 3, One) == Token(3, 1, false);
    assert Wrapped(short, 1, 1, 3, One) == Wrapped(short, 2, 1, 3, One) == " b";
    assert TokenAt(short, 0, 3, One) == Token(1, 1, false);
  }

  // ---------------------------------------------------------------- the loops

  /** The inner loop of reformat_for_screen. */
  method ReadToken(msg: string, start: nat, screenWidth: int, widths: Widths) returns (t: Token)
    requires start <= |msg|
    ensures t == TokenAt(msg, start, screenWidth, widths)
  {
    var pos, tokWidth := start, 0;
    while pos < |msg| && !Blank(msg[pos])
      invariant start <= pos <= |msg|
      invariant TokenAt(msg, start, screenWidth, widths) == TokenFrom(msg, pos, tokWidth, screenWidth, widths)
    {
      var width := widths(msg[pos]);
      if tokWidth + width > screenWidth - 1 {
        return Token(pos, tokWidth, true);
      }
      tokWidth := tokWidth + width;
      pos := pos + 1;
    }
    return Token(pos, tokWidth, false);
  }

  /** What its outer loop does with a token. */
  method PutToken(buff: string, lineWidth: int, token: string, t: Token, screenWidth: int) returns (r: string, next: int)
    ensures r == buff + Gap(lineWidth, t, screenWidth) + token + if t.overflow then "-\n" else ""
    ensures next == WidthNext(lineWidth, t, screenWidth)
  {
    r, next := buff, lineWidth;
    if t.overflow {
      if next != 0 {
        r := r + "\n";
      }
      r := r + token + "-\n";
      next := 0;
    } else {
      var lineWidthUnit := if next != 0 then 1 else 0;
      if next + lineWidthUnit + t.width > screenWidth {
        r := r + "\n";
        next := 0;
      }
      if next != 0 {
        r := r + " ";
      }
      r := r + token;
      next := next + lineWidthUnit + t.width;
    }
  }

  lemma Associate(buff: string, gap: string, token: string, hyphen: string, rest: string)
    ensures buff + (gap + (token + (hyphen + rest))) == (buff + gap + token + hyphen) + rest
  {
  }

  /** reformat_for_screen */
  method ReformatForScreen(msg: string, screenWidth: int, widths: Widths) returns (buff: string)
    ensures buff == Reformatted(msg, screenWidth, widths)
  {
    buff := "";
    if screenWidth != 0 {
      hide TokenFrom, Gap;
      var start, lineWidth := 0, 0;
      while start < |msg|
        invariant start <= |msg|
        invariant Wrapped(msg, 0, 0, screenWidth, widths) == buff + Wrapped(msg, start, lineWidth, screenWidth, widths)
      {
        var t := ReadToken(msg, start, screenWidth, widths);
        if t.end == start {
          start := start + 1;
        } else {
          var token := msg[start..t.end];
          ghost var rest := Wrapped(msg, t.end, WidthNext(lineWidth, t, screenWidth), screenWidth, widths);
          Associate(buff, Gap(lineWidth, t, screenWidth), token, if t.overflow then "-\n" else "", rest);
          buff, lineWidth := PutToken(buff, lineWidth, token, t, screenWidth);
          start := t.end;
        }
      }
      assert buff + Wrapped(msg, start, lineWidth, screenWidth, widths) == buff;
    } else {
      buff := buff + msg;
    }
    buff := buff + "\n";
  }
}
