/**
 What WrappedText does with one token, for the proofs of LineWrap.

 A token goes to the current line or to a new one, and what is printed of the rest goes on from the width the line then
 counts. So what holds of all that is printed is shown by going through the tokens: that lines fit, since a line never
 counts less than its width; that the text is kept, since each token is printed as it is; and that words stay apart, as
 there is no gap before a token only where the line counts a width of zero.
 */
module WrapSteps {
  import opened Common
  import opened WrappedText

  // ---------------------------------------------------------------- width

  lemma {:induction false} FitsAfter(text: string, rest: string, width: int, limit: int, widths: Widths)
    requires OneLine(text)
    ensures Fits(text + rest, width, limit, widths) == Fits(rest, width + WidthOf(text, widths), limit, widths)
  {
    if text == "" {
      assert text + rest == rest;
    } else {
      assert (text + rest)[1..] == text[1..] + rest;
      FitsAfter(text[1..], rest, width + widths(text[0]), limit, widths);
    }
  }

  lemma {:induction false} TokenWidth(msg: string, pos: nat, width: int, screen: int, widths: Widths)
    requires pos <= |msg|
    ensures var t := TokenFrom(msg, pos, width, screen, widths); t.width == width + WidthOf(msg[pos..t.end], widths)
    decreases |msg| - pos
  {
    var t := TokenFrom(msg, pos, width, screen, widths);
    if pos < t.end {
      TokenWidth(msg, pos + 1, width + widths(msg[pos]), screen, widths);
      assert msg[pos..t.end][1..] == msg[pos + 1..t.end];
    }
  }

  /** The line never gets wider than it counts, nor than the limit. */
  lemma CountsEnough(lineWidth: int, t: Token, screen: int, width: int, limit: int)
    requires t.width <= screen - 1 && screen <= limit && 0 <= limit && width <= lineWidth <= limit
    ensures var end := WidthBefore(lineWidth, t, screen, width) + t.width;
            if t.overflow then end + 1 <= limit else end <= WidthNext(lineWidth, t, screen) <= limit
  {
  }

  lemma NextAfterOverflow(lineWidth: int, t: Token, screen: int)
    ensures t.overflow ==> WidthNext(lineWidth, t, screen) == 0
  {
  }

  lemma TokenAtWidth(msg: string, start: nat, screen: int, widths: Widths)
    requires start < |msg| && TokenAt(msg, start, screen, widths).end > start
    ensures var t := TokenAt(msg, start, screen, widths);
            start < t.end <= |msg| && t.width == WidthOf(msg[start..t.end], widths) <= screen - 1
  {
    TokenWidth(msg, start, 0, screen, widths);
  }

  /** The parts of what is printed for a token and after it. */
  lemma TokenParts(msg: string, start: nat, lineWidth: int, screen: int, widths: Widths)
    requires start < |msg| && TokenAt(msg, start, screen, widths).end > start
    ensures var t := TokenAt(msg, start, screen, widths);
            var rest := Wrapped(msg, t.end, WidthNext(lineWidth, t, screen), screen, widths);
            && OneLine(msg[start..t.end])
            && Wrapped(msg, start, lineWidth, screen, widths)
               == Gap(lineWidth, t, screen) + (msg[start..t.end] + ((if t.overflow then "-\n" else "") + rest))
  {
    var t := TokenAt(msg, start, screen, widths);
    assert t == TokenFrom(msg, start, 0, screen, widths);
    forall i | 0 <= i < t.end - start ensures msg[start..t.end][i] != '\n' {
      assert !Blank(msg[start + i]);
    }
  }

  lemma TokenFits(lineWidth: int, t: Token, screen: int, text: string, rest: string, width: int, limit: int, widths: Widths)
    requires OneLine(text) && t.width == WidthOf(text, widths)
    requires widths(' ') == 1 && widths('-') == 1 && width <= limit && 0 <= limit
    requires var end := WidthBefore(lineWidth, t, screen, width) + t.width;
             if t.overflow then end + 1 <= limit && Fits(rest, 0, limit, widths) else Fits(rest, end, limit, widths)
    ensures Fits(Gap(lineWidth, t, screen) + (text + ((if t.overflow then "-\n" else "") + rest)), width, limit, widths)
  {
    var gap := Gap(lineWidth, t, screen);
    var tail := (if t.overflow then "-\n" else "") + rest;
    var before := WidthBefore(lineWidth, t, screen, width);
    assert gap == "" || gap == " " || gap == "\n";
    HyphenFits(t.overflow, rest, before + t.width, limit, widths);
    hide *;
    FitsAfter(text, tail, before, limit, widths);
    GapFits(gap, text + tail, width, limit, widths);
  }

  lemma HyphenFits(hyphen: bool, rest: string, width: int, limit: int, widths: Widths)
    requires widths('-') == 1 && widths(' ') == 1
    requires if hyphen then width + 1 <= limit && Fits(rest, 0, limit, widths) else Fits(rest, width, limit, widths)
    ensures Fits((if hyphen then "-\n" else "") + rest, width, limit, widths)
  {
    if hyphen {
      assert "-\n" + rest == "-" + ("\n" + rest);
      FitsAfter("-", "\n" + rest, width, limit, widths);
      assert WidthOf("-", widths) == 1;
      GapFits("\n", rest, width + 1, limit, widths);
    } else {
      assert "" + rest == rest;
    }
  }

  lemma GapFits(gap: string, rest: string, width: int, limit: int, widths: Widths)
    requires gap == "" || gap == " " || gap == "\n"
    requires widths(' ') == 1 && width <= limit
    ensures Fits(gap + rest, width, limit, widths)
            == if gap == "\n" then Fits(rest, 0, limit, widths) else Fits(rest, width + |gap|, limit, widths)
  {
    assert (gap + rest)[|gap|..] == rest;
    if gap == "" {
      assert gap + rest == rest;
    }
  }

  lemma {:induction false} WrappedFits(msg: string, start: nat, lineWidth: int, screen: int, widths: Widths, width: int, limit: int)
    requires start <= |msg| && screen <= limit && 0 <= limit
    requires widths(' ') == 1 && widths('-') == 1
    requires width <= lineWidth <= limit
    ensures Fits(Wrapped(msg, start, lineWidth, screen, widths) + "\n", width, limit, widths)
    decreases |msg| - start
  {
    if start == |msg| {
      assert "" + "\n" == "\n" && "\n"[1..] == "";
    } else {
      var t := TokenAt(msg, start, screen, widths);
      if t.end == start {
        hide Fits;
        WrappedFits(msg, start + 1, lineWidth, screen, widths, width, limit);
      } else {
        TokenAtWidth(msg, start, screen, widths);
        hide *;
        var rest := Wrapped(msg, t.end, WidthNext(lineWidth, t, screen), screen, widths);
        var end := WidthBefore(lineWidth, t, screen, width) + t.width;
        CountsEnough(lineWidth, t, screen, width, limit);
        TokenParts(msg, start, lineWidth, screen, widths);
        NextAfterOverflow(lineWidth, t, screen);
        WrappedFits(msg, t.end, WidthNext(lineWidth, t, screen), screen, widths, if t.overflow then 0 else end, limit);
        TokenFits(lineWidth, t, screen, msg[start..t.end], rest + "\n", width, limit, widths);
        assert Wrapped(msg, start, lineWidth, screen, widths) + "\n"
            == Gap(lineWidth, t, screen) + (msg[start..t.end] + ((if t.overflow then "-\n" else "") + (rest + "\n")));
      }
    }
  }

  // ---------------------------------------------------------------- the text that is kept

  lemma {:induction false} LaidAfter(same: string, text: string, printed: string)
    requires Laid(text, printed)
    ensures Laid(same + text, same + printed)
  {
    if same == "" {
      assert same + text == text && same + printed == printed;
    } else {
      LaidAfter(same[1..], text, printed);
      assert (same + text)[1..] == same[1..] + text && (same + printed)[1..] == same[1..] + printed;
    }
  }

  lemma LaidGap(gap: string, text: string, printed: string)
    requires gap == "" || gap == " " || gap == "\n"
    requires Laid(text, printed)
    ensures Laid(text, gap + printed)
  {
    assert (gap + printed)[|gap|..] == printed;
  }

  lemma LaidHyphen(hyphen: bool, text: string, printed: string)
    requires Laid(text, printed)
    ensures Laid(text, (if hyphen then "-\n" else "") + printed)
  {
    if hyphen {
      assert ("-\n" + printed)[2..] == printed;
    } else {
      assert "" + printed == printed;
    }
  }

  /** All of a token is kept, and what follows starts a token of its own. */
  lemma {:induction false} TokenKept(msg: string, pos: nat, width: int, screen: int, widths: Widths)
    requires pos <= |msg|
    ensures var t := TokenFrom(msg, pos, width, screen, widths);
            Kept(msg[pos..], width, screen, widths) == msg[pos..t.end] + Kept(msg[t.end..], 0, screen, widths)
    decreases |msg| - pos
  {
    if pos == |msg| {
      assert msg[pos..] == "";
    } else {
      assert msg[pos..][1..] == msg[pos + 1..] && msg[pos..][0] == msg[pos];
      if Blank(msg[pos]) || width + widths(msg[pos]) >= screen {
        assert msg[pos..pos] == "";
        assert "" + Kept(msg[pos..], 0, screen, widths) == Kept(msg[pos..], 0, screen, widths);
      } else {
        var next := width + widths(msg[pos]);
        TokenKept(msg, pos + 1, next, screen, widths);
        var t := TokenFrom(msg, pos + 1, next, screen, widths);
        assert Kept(msg[pos..], width, screen, widths) == [msg[pos]] + Kept(msg[pos + 1..], next, screen, widths);
        hide Kept, TokenFrom;
        assert msg[pos..t.end] == [msg[pos]] + msg[pos + 1..t.end];
      }
    }
  }

  /** An empty token is at a blank or at a character that is too wide. */
  lemma NoToken(msg: string, start: nat, screen: int, widths: Widths)
    requires start < |msg| && TokenAt(msg, start, screen, widths).end == start
    ensures Kept(msg[start..], 0, screen, widths) == Kept(msg[start + 1..], 0, screen, widths)
  {
    assert msg[start..][1..] == msg[start + 1..];
  }

  lemma {:induction false} WrappedKeepsText(msg: string, start: nat, lineWidth: int, screen: int, widths: Widths)
    requires start <= |msg|
    ensures Laid(Kept(msg[start..], 0, screen, widths), Wrapped(msg, start, lineWidth, screen, widths))
    decreases |msg| - start
  {
    if start < |msg| {
      var t := TokenAt(msg, start, screen, widths);
      if t.end == start {
        NoToken(msg, start, screen, widths);
        WrappedKeepsText(msg, start + 1, lineWidth, screen, widths);
      } else {
        assert start < t.end <= |msg|;
        var gap := Gap(lineWidth, t, screen);
        assert gap == "" || gap == " " || gap == "\n";
        TokenKept(msg, start, 0, screen, widths);
        hide *;
        var next := WidthNext(lineWidth, t, screen);
        var text := msg[start..t.end];
        var rest := Wrapped(msg, t.end, next, screen, widths);
        var kept := Kept(msg[t.end..], 0, screen, widths);
        WrappedKeepsText(msg, t.end, next, screen, widths);
        LaidHyphen(t.overflow, kept, rest);
        LaidAfter(text, kept, (if t.overflow then "-\n" else "") + rest);
        LaidGap(gap, text + kept, text + ((if t.overflow then "-\n" else "") + rest));
        TokenParts(msg, start, lineWidth, screen, widths);
      }
    }
  }

  /** A character narrower than the screen is never lost. */
  lemma {:induction false} NarrowIsKept(text: string, width: int, screen: int, widths: Widths)
    requires forall i :: 0 <= i < |text| && !Blank(text[i]) ==> widths(text[i]) < screen
    ensures Kept(text, width, screen, widths) == NotBlank(text)
  {
    if text != "" {
      var w := widths(text[0]);
      var next := if Blank(text[0]) then 0 else if width + w < screen then width + w else w;
      NarrowIsKept(text[1..], next, screen, widths);
      assert "" + NotBlank(text[1..]) == NotBlank(text[1..]);
    }
  }

  /** Without negative widths, one that is not narrower always is. */
  lemma {:induction false} WideIsLost(text: string, width: int, screen: int, widths: Widths, c: char)
    requires NoNegativeWidth(widths, text) && width >= 0 && widths(c) >= screen
    ensures c !in Kept(text, width, screen, widths)
  {
    if text != "" {
      var w := widths(text[0]);
      WideIsLost(text[1..], if Blank(text[0]) then 0 else if width + w < screen then width + w else if w < screen then w else 0,
                 screen, widths, c);
    }
  }

  lemma {:induction false} NotBlankHas(text: string, i: nat)
    requires i < |text| && !Blank(text[i])
    ensures text[i] in NotBlank(text)
  {
    if i > 0 {
      NotBlankHas(text[1..], i - 1);
    }
  }

  /** Nothing is put in but spaces, line breaks and hyphens. */
  lemma {:induction false} LaidCounts(text: string, printed: string, c: char)
    requires Laid(text, printed) && c != ' ' && c != '\n' && c != '-'
    ensures multiset(text)[c] == multiset(printed)[c]
    decreases |printed|
  {
    if text == "" && printed == "" {
    } else if printed != "" && (printed[0] == ' ' || printed[0] == '\n') && Laid(text, printed[1..]) {
      LaidCounts(text, printed[1..], c);
      assert printed == [printed[0]] + printed[1..];
    } else if |printed| >= 2 && printed[0] == '-' && printed[1] == '\n' && Laid(text, printed[2..]) {
      LaidCounts(text, printed[2..], c);
      assert printed == [printed[0], printed[1]] + printed[2..];
    } else {
      LaidCounts(text[1..], printed[1..], c);
      assert printed == [printed[0]] + printed[1..] && text == [text[0]] + text[1..];
    }
  }

  // ---------------------------------------------------------------- words

  lemma {:induction false} WordLengthIs(word: string, rest: string)
    requires (forall i :: 0 <= i < |word| ==> !Blank(word[i])) && (rest != "" ==> Blank(rest[0]))
    ensures WordLength(word + rest) == |word|
  {
    if word == "" {
      assert word + rest == rest;
    } else {
      assert (word + rest)[1..] == word[1..] + rest;
      WordLengthIs(word[1..], rest);
    }
  }

  lemma {:induction false} WordsAfter(word: string, rest: string)
    requires word != "" && (forall i :: 0 <= i < |word| ==> !Blank(word[i])) && (rest != "" ==> Blank(rest[0]))
    ensures Words(word + rest) == [word] + Words(rest)
  {
    WordLengthIs(word, rest);
    assert (word + rest)[0] == word[0];
    assert (word + rest)[..|word|] == word && (word + rest)[|word|..] == rest;
  }

  lemma WordsAfterGap(gap: string, text: string)
    requires gap == "" || (|gap| == 1 && Blank(gap[0]))
    ensures Words(gap + text) == Words(text)
  {
    assert (gap + text)[|gap|..] == text;
    if gap == "" {
      assert gap + text == text;
    }
  }

  lemma {:induction false} WordsBeforeBreak(text: string)
    ensures Words(text + "\n") == Words(text)
    decreases |text|
  {
    if text == "" {
      assert text + "\n" == "\n" && "\n"[1..] == "";
    } else if Blank(text[0]) {
      WordsBeforeBreak(text[1..]);
      assert (text + "\n")[1..] == text[1..] + "\n";
    } else {
      var n := WordLength(text);
      WordsBeforeBreak(text[n..]);
      assert text + "\n" == text[..n] + (text[n..] + "\n");
      WordsAfter(text[..n], text[n..] + "\n");
    }
  }

  /** Without a gap, a word and the next one are one word. */
  lemma WordsJoin(word: string, rest: string)
    requires word != "" && (forall i :: 0 <= i < |word| ==> !Blank(word[i])) && rest != "" && !Blank(rest[0])
    ensures |Words(word + rest)| == |Words(rest)|
  {
    var n := WordLength(rest);
    var first := word + rest[..n];
    assert word + rest == first + rest[n..];
    assert n > 0;
    WordsAfter(first, rest[n..]);
  }

  lemma {:induction false} TokenIsWord(msg: string, pos: nat, width: int, screen: int, widths: Widths)
    requires pos <= |msg| && LeavesRoom(msg[pos..][..WordLength(msg[pos..])], width, screen, widths)
    ensures var t := TokenFrom(msg, pos, width, screen, widths); !t.overflow && t.end == pos + WordLength(msg[pos..])
    decreases |msg| - pos
  {
    var n := WordLength(msg[pos..]);
    if n > 0 {
      var word := msg[pos..][..n];
      assert msg[pos..][1..] == msg[pos + 1..];
      assert word[1..] == msg[pos + 1..][..n - 1] && word[0] == msg[pos];
      TokenIsWord(msg, pos + 1, width + widths(msg[pos]), screen, widths);
    }
  }

  lemma FirstWord(msg: string, start: nat, screen: int, widths: Widths)
    requires start < |msg| && !Blank(msg[start]) && WordsFit(Words(msg[start..]), screen, widths)
    ensures var t := TokenAt(msg, start, screen, widths);
            && start < t.end && !t.overflow && t.width == WidthOf(msg[start..t.end], widths)
            && (forall i :: 0 <= i < t.end - start ==> !Blank(msg[start..t.end][i]))
            && Words(msg[start..]) == [msg[start..t.end]] + Words(msg[t.end..])
            && WordsFit(Words(msg[t.end..]), screen, widths)
  {
    var n := WordLength(msg[start..]);
    var word := msg[start..][..n];
    assert word == msg[start..start + n] && msg[start..][n..] == msg[start + n..];
    assert Words(msg[start..]) == [word] + Words(msg[start + n..]);
    assert word in Words(msg[start..]);
    assert forall w <- Words(msg[start + n..]) :: w in Words(msg[start..]);
    TokenIsWord(msg, start, 0, screen, widths);
    TokenWidth(msg, start, 0, screen, widths);
  }

  /** How the words of what is printed from `start` on compare with those of the message. */
  predicate WordsCompare(words: seq<string>, printed: string, lineWidth: int, screen: int, widths: Widths) {
    && (words == [] <==> printed == "")
    && (printed != "" ==> (Blank(printed[0]) <==> lineWidth != 0))
    && |Words(printed)| <= |words|
    && if NeverAtZero(words, lineWidth, screen, widths) then Words(printed) == words else |Words(printed)| < |words|
  }

  lemma {:induction false} WrappedWords(msg: string, start: nat, lineWidth: int, screen: int, widths: Widths)
    requires start <= |msg| && WordsFit(Words(msg[start..]), screen, widths)
    ensures WordsCompare(Words(msg[start..]), Wrapped(msg, start, lineWidth, screen, widths), lineWidth, screen, widths)
    decreases |msg| - start
  {
    if start == |msg| {
      assert msg[start..] == "";
    } else if Blank(msg[start]) {
      assert msg[start..][1..] == msg[start + 1..];
      WrappedWords(msg, start + 1, lineWidth, screen, widths);
    } else {
      FirstWord(msg, start, screen, widths);
      var t := TokenAt(msg, start, screen, widths);
      TokenParts(msg, start, lineWidth, screen, widths);
      var next := WidthNext(lineWidth, t, screen);
      WrappedWords(msg, t.end, next, screen, widths);
      var rest := Wrapped(msg, t.end, next, screen, widths);
      var word := msg[start..t.end];
      assert Wrapped(msg, start, lineWidth, screen, widths) == Gap(lineWidth, t, screen) + (word + rest) by {
        assert "" + rest == rest;
      }
      hide TokenFrom, Wrapped, WordLength, WordsFit;
      OneMoreWord(word, t, Words(msg[t.end..]), rest, lineWidth, screen, widths);
    }
  }

  /** One word before the others. */
  lemma OneMoreWord(word: string, t: Token, words: seq<string>, rest: string, lineWidth: int, screen: int, widths: Widths)
    requires word != "" && (forall i :: 0 <= i < |word| ==> !Blank(word[i]))
    requires !t.overflow && t.width == WidthOf(word, widths) < screen
    requires WordsCompare(words, rest, WidthNext(lineWidth, t, screen), screen, widths)
    ensures WordsCompare([word] + words, Gap(lineWidth, t, screen) + (word + rest), lineWidth, screen, widths)
  {
    var gap := Gap(lineWidth, t, screen);
    var next := WidthNext(lineWidth, t, screen);
    assert lineWidth == 0 <==> gap == "";
    assert gap == "" || gap == " " || gap == "\n";
    WordsAfterGap(gap, word + rest);
    NextWord(word, t, words, lineWidth, screen, widths);
    if rest == "" || next != 0 {
      WordsAfter(word, rest);
      NoWords();
    } else {
      WordsJoin(word, rest);
    }
    hide Words, WordLength, Gap, WidthNext, NeverAtZero;
    assert gap + (word + rest) != "";
    assert Blank((gap + (word + rest))[0]) <==> gap != "" by {
      if gap == "" {
        assert (gap + (word + rest))[0] == word[0];
      }
    }
  }

  lemma NextWord(word: string, t: Token, words: seq<string>, lineWidth: int, screen: int, widths: Widths)
    requires !t.overflow && t.width == WidthOf(word, widths)
    ensures var next := WidthNext(lineWidth, t, screen);
            NeverAtZero([word] + words, lineWidth, screen, widths)
            <==> words == [] || (next != 0 && NeverAtZero(words, next, screen, widths))
  {
    assert ([word] + words)[1..] == words && ([word] + words)[0] == word;
    assert WidthNext(lineWidth, t, screen) == WidthNext(lineWidth, Token(0, WidthOf(word, widths), false), screen);
  }

  lemma NoWords()
    ensures Words("") == []
  {
  }

  lemma {:induction false} NarrowWordFits(word: string, width: int, screen: int, widths: Widths)
    requires NoNegativeWidth(widths, word) && width + WidthOf(word, widths) < screen
    ensures LeavesRoom(word, width, screen, widths) && WidthOf(word, widths) >= 0
  {
    if word != "" {
      NoNegativeSum(word[1..], widths);
      NarrowWordFits(word[1..], width + widths(word[0]), screen, widths);
    }
  }

  lemma {:induction false} NoNegativeSum(text: string, widths: Widths)
    requires NoNegativeWidth(widths, text)
    ensures WidthOf(text, widths) >= 0
  {
    if text != "" {
      NoNegativeSum(text[1..], widths);
    }
  }

  /** Words that can be seen never leave the line at zero. */
  lemma {:induction false} SeenNeverAtZero(words: seq<string>, lineWidth: int, screen: int, widths: Widths)
    requires lineWidth >= 0 && forall word <- words :: WidthOf(word, widths) > 0
    ensures NeverAtZero(words, lineWidth, screen, widths)
  {
    if |words| > 1 {
      assert words[0] in words;
      SeenNeverAtZero(words[1..], WidthNext(lineWidth, Token(0, WidthOf(words[0], widths), false), screen), screen, widths);
    }
  }

  lemma {:induction false} WordsOfText(text: string, word: string)
    requires word in Words(text)
    ensures forall c <- word :: c in text
    decreases |text|
  {
    if Blank(text[0]) {
      WordsOfText(text[1..], word);
    } else {
      var n := WordLength(text);
      if word != text[..n] {
        WordsOfText(text[n..], word);
      }
    }
  }
}
