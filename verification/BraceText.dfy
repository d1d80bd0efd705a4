/**
 The text of words: what concatenation, trimming and substitution do to it, to the depth of its braces and to their
 number. Everything that BraceExpand needs to know to follow, on the text, what happens to the word.

 A text is sealed if none of its prefixes closes a brace that it does not open, and if, inside of an alternation, it has
 no separator outside of braces. Words are written as sealed texts, so where an item or an alternation ends can be told
 from the depth of the braces alone.
 */
module BraceText {
  import opened Common
  import opened Wide
  import opened Products
  import opened BraceWords

  // ---------------------------------------------------------------- how words are written

  lemma {:induction false} PrintConcat(a: Word, b: Word)
    ensures Print(Concat(a, b)) == Print(a) + Print(b)
  {
    match a
    case Nil =>
    case Lit(c, rest) => PrintConcat(rest, b);
    case Alt(items, rest) =>
      PrintConcat(rest, b);
      Regroup(PrintItems(items), Print(rest), Print(b));
  }

  lemma Regroup(items: string, rest: string, b: string)
    ensures [BRACE_BEGIN] + items + [BRACE_END] + (rest + b) == ([BRACE_BEGIN] + items + [BRACE_END] + rest) + b
  {
  }

  lemma {:induction false} ConcatWellFormed(a: Word, b: Word, nested: bool)
    requires WellFormed(a, nested) && WellFormed(b, nested)
    ensures WellFormed(Concat(a, b), nested)
  {
    if !a.Nil? {
      ConcatWellFormed(a.rest, b, nested);
    }
  }

  lemma {:induction false} Unnested(w: Word)
    requires WellFormed(w, true)
    ensures WellFormed(w, false)
  {
    if !w.Nil? {
      Unnested(w.rest);
    }
  }

  lemma PrintAlt(items: Items, v: Word)
    ensures Print(Alt(items, v)) == [BRACE_BEGIN] + PrintItems(items) + [BRACE_END] + Print(v)
  {
  }

  lemma Ungroup(a: string, items: string, rest: string)
    ensures a + ([BRACE_BEGIN] + items + [BRACE_END] + rest) == a + [BRACE_BEGIN] + items + [BRACE_END] + rest
  {
  }

  lemma BracedTail(items: string, rest: string)
    ensures ([BRACE_BEGIN] + items + [BRACE_END] + rest)[1..] == items + [BRACE_END] + rest
  {
  }

  // ---------------------------------------------------------------- trimming

  lemma {:induction false} CleanWellFormed(w: Word)
    requires WellFormed(w, true)
    ensures WellFormed(Clean(w), true)
  {
    TrimEndWellFormed(w);
    TrimStartWellFormed(TrimEndWord(w));
    SpacedWellFormed(TrimStartWord(TrimEndWord(w)));
  }

  lemma {:induction false} TrimEndWellFormed(w: Word)
    requires WellFormed(w, true)
    ensures WellFormed(TrimEndWord(w), true)
  {
    if !w.Nil? {
      TrimEndWellFormed(w.rest);
    }
  }

  lemma {:induction false} TrimStartWellFormed(w: Word)
    requires WellFormed(w, true)
    ensures WellFormed(TrimStartWord(w), true)
  {
    if w.Lit? && Blank(w.c) {
      TrimStartWellFormed(w.rest);
    }
  }

  lemma {:induction false} SpacedWellFormed(w: Word)
    requires WellFormed(w, true)
    ensures WellFormed(SpacedWord(w), true)
  {
    match w
    case Nil =>
    case Lit(_, rest) => SpacedWellFormed(rest);
    case Alt(items, rest) => SpacedItemsWellFormed(items); SpacedWellFormed(rest);
  }

  lemma {:induction false} SpacedItemsWellFormed(items: Items)
    requires WellFormedItems(items)
    ensures WellFormedItems(SpacedItems(items))
  {
    SpacedWellFormed(items.item);
    if items.More? {
      SpacedItemsWellFormed(items.others);
    }
  }

  lemma {:induction false} TrimEndConcat(a: string, b: string)
    ensures TrimEnd(a + b) == if TrimEnd(b) == "" then TrimEnd(a) else a + TrimEnd(b)
    decreases |b|
  {
    if b == "" {
      assert a + b == a;
    } else {
      assert (a + b)[..|a + b| - 1] == a + b[..|b| - 1];
      if Blank(b[|b| - 1]) {
        TrimEndConcat(a, b[..|b| - 1]);
      }
    }
  }

  lemma {:induction false} SpacedConcat(a: string, b: string)
    ensures SpacedString(a + b) == SpacedString(a) + SpacedString(b)
  {
    if a == "" {
      assert a + b == b;
    } else {
      assert (a + b)[1..] == a[1..] + b;
      SpacedConcat(a[1..], b);
    }
  }

  lemma {:induction false} PrintTrimEnd(w: Word)
    ensures Print(TrimEndWord(w)) == TrimEnd(Print(w))
  {
    match w
    case Nil =>
    case Lit(c, rest) =>
      PrintTrimEnd(rest);
      TrimEndConcat([c], Print(rest));
      assert [c][..0] == "";
    case Alt(items, rest) =>
      PrintTrimEnd(rest);
      var front := [BRACE_BEGIN] + PrintItems(items) + [BRACE_END];
      assert TrimEnd(front) == front;
      TrimEndConcat(front, Print(rest));
      assert front + "" == front;
  }

  lemma {:induction false} PrintTrimStart(w: Word)
    ensures Print(TrimStartWord(w)) == TrimStart(Print(w))
  {
    if w.Lit? {
      assert Print(w)[1..] == Print(w.rest);
      if Blank(w.c) {
        PrintTrimStart(w.rest);
      }
    }
  }

  lemma {:induction false} PrintSpaced(w: Word)
    ensures Print(SpacedWord(w)) == SpacedString(Print(w))
  {
    match w
    case Nil =>
    case Lit(c, rest) =>
      PrintSpaced(rest);
      assert Print(w)[1..] == Print(rest);
    case Alt(items, rest) =>
      PrintSpaced(rest);
      PrintSpacedItems(items);
      SpacedConcat([BRACE_BEGIN] + PrintItems(items) + [BRACE_END], Print(rest));
      SpacedConcat([BRACE_BEGIN] + PrintItems(items), [BRACE_END]);
      SpacedConcat([BRACE_BEGIN], PrintItems(items));
      SpacedOne(BRACE_BEGIN);
      SpacedOne(BRACE_END);
  }

  lemma SpacedOne(c: char)
    ensures SpacedString([c]) == [Spaced(c)]
  {
    assert [c][1..] == "";
  }

  lemma {:induction false} PrintSpacedItems(items: Items)
    ensures PrintItems(SpacedItems(items)) == SpacedString(PrintItems(items))
  {
    PrintSpaced(items.item);
    if items.More? {
      PrintSpacedItems(items.others);
      SpacedConcat(Print(items.item) + [BRACE_SEP], PrintItems(items.others));
      SpacedConcat(Print(items.item), [BRACE_SEP]);
      SpacedOne(BRACE_SEP);
    }
  }

  /** Cleaning the text of an item is cleaning the item. */
  lemma PrintClean(w: Word)
    ensures Print(Clean(w)) == CleanString(Print(w))
  {
    PrintTrimEnd(w);
    PrintTrimStart(TrimEndWord(w));
    PrintSpaced(TrimStartWord(TrimEndWord(w)));
  }

  // ---------------------------------------------------------------- depth of braces

  lemma {:induction false} DepthConcat(a: string, b: string)
    ensures Depth(a + b) == Depth(a) + Depth(b)
    decreases |b|
  {
    if b == "" {
      assert a + b == a;
    } else {
      assert (a + b)[..|a + b| - 1] == a + b[..|b| - 1];
      DepthConcat(a, b[..|b| - 1]);
    }
  }

  lemma DepthOne(c: char)
    ensures Depth([c]) == if c == BRACE_BEGIN then 1 else if c == BRACE_END then -1 else 0
  {
    assert [c][..0] == "";
  }

  lemma BalancedDepth(s: string)
    requires Balanced(s)
    ensures Depth(s) == 0
  {
  }

  lemma DepthOfPrefix(a: string, b: string, i: nat)
    requires i <= |a + b|
    ensures Depth((a + b)[..i]) == if i <= |a| then Depth(a[..i]) else Depth(a) + Depth(b[..i - |a|])
  {
    if i <= |a| {
      assert (a + b)[..i] == a[..i];
    } else {
      assert (a + b)[..i] == a + b[..i - |a|];
      DepthConcat(a, b[..i - |a|]);
    }
  }

  lemma SealedConcat(a: string, b: string, nested: bool)
    requires Sealed(a, nested) && Sealed(b, nested)
    ensures Sealed(a + b, nested)
  {
    DepthConcat(a, b);
    forall i | 0 <= i <= |a + b| ensures Depth((a + b)[..i]) >= 0 {
      DepthOfPrefix(a, b, i);
    }
    forall i | 0 <= i < |a + b| && Depth((a + b)[..i]) == 0
      ensures (a + b)[i] != BRACE_END && (nested ==> (a + b)[i] != BRACE_SEP)
    {
      DepthOfPrefix(a, b, i);
      assert b[..0] == "" && a[..|a|] == a;
    }
  }

  lemma SealedBraces(s: string, nested: bool)
    requires Balanced(s)
    ensures Sealed([BRACE_BEGIN] + s + [BRACE_END], nested)
  {
    var t := [BRACE_BEGIN] + s + [BRACE_END];
    DepthOne(BRACE_BEGIN);
    DepthOne(BRACE_END);
    DepthConcat([BRACE_BEGIN] + s, [BRACE_END]);
    DepthConcat([BRACE_BEGIN], s);
    forall i | 0 < i < |t| ensures Depth(t[..i]) >= 1 {
      assert t[..i] == [BRACE_BEGIN] + s[..i - 1];
      DepthConcat([BRACE_BEGIN], s[..i - 1]);
    }
    assert t[..|t|] == t && t[..0] == "";
  }

  lemma SealedLit(c: char, nested: bool)
    requires c != BRACE_BEGIN && c != BRACE_END && (nested ==> c != BRACE_SEP)
    ensures Sealed([c], nested)
  {
    DepthOne(c);
    assert [c][..0] == "" && [c][..1] == [c];
  }

  lemma {:induction false} PrintSealed(w: Word, nested: bool)
    requires WellFormed(w, nested)
    ensures Sealed(Print(w), nested)
  {
    match w
    case Nil =>
    case Lit(c, rest) =>
      PrintSealed(rest, nested);
      SealedLit(c, nested);
      SealedConcat([c], Print(rest), nested);
    case Alt(items, rest) =>
      PrintSealed(rest, nested);
      ItemsBalanced(items);
      SealedBraces(PrintItems(items), nested);
      SealedConcat([BRACE_BEGIN] + PrintItems(items) + [BRACE_END], Print(rest), nested);
  }

  lemma {:induction false} ItemsBalanced(items: Items)
    requires WellFormedItems(items)
    ensures Sealed(PrintItems(items), false)
  {
    PrintSealed(items.item, true);
    if items.More? {
      ItemsBalanced(items.others);
      SealedLit(BRACE_SEP, false);
      SealedConcat(Print(items.item), [BRACE_SEP], false);
      SealedConcat(Print(items.item) + [BRACE_SEP], PrintItems(items.others), false);
    }
  }

  // ---------------------------------------------------------------- number of opening braces

  lemma {:induction false} BeginsConcat(a: string, b: string)
    ensures Begins(a + b) == Begins(a) + Begins(b)
  {
    if a == "" {
      assert a + b == b;
    } else {
      assert (a + b)[1..] == a[1..] + b;
      BeginsConcat(a[1..], b);
    }
  }

  lemma {:induction false} TrimEndBegins(s: string)
    ensures Begins(TrimEnd(s)) <= Begins(s)
  {
    if s != "" && Blank(s[|s| - 1]) {
      TrimEndBegins(s[..|s| - 1]);
      assert s == s[..|s| - 1] + [s[|s| - 1]];
      BeginsConcat(s[..|s| - 1], [s[|s| - 1]]);
    }
  }

  lemma {:induction false} TrimStartBegins(s: string)
    ensures Begins(TrimStart(s)) <= Begins(s)
  {
    if s != "" && Blank(s[0]) {
      TrimStartBegins(s[1..]);
    }
  }

  lemma {:induction false} SpacedBegins(s: string)
    ensures Begins(SpacedString(s)) == Begins(s)
  {
    if s != "" {
      SpacedBegins(s[1..]);
      assert SpacedString(s)[1..] == SpacedString(s[1..]);
    }
  }

  lemma CleanBegins(s: string)
    ensures Begins(CleanString(s)) <= Begins(s)
  {
    TrimEndBegins(s);
    TrimStartBegins(TrimEnd(s));
    SpacedBegins(TrimStart(TrimEnd(s)));
  }

  lemma OneBegin()
    ensures Begins([BRACE_BEGIN]) == 1
  {
    assert [BRACE_BEGIN][1..] == "";
  }

  lemma BeginsOfParts(a: string, x: string, item: string, y: string, b: string)
    ensures Begins(a + ([BRACE_BEGIN] + (x + (item + (y + b))))) >= Begins(a) + 1 + Begins(item) + Begins(b)
  {
    hide Begins;
    BeginsConcat(a, [BRACE_BEGIN] + (x + (item + (y + b))));
    BeginsConcat([BRACE_BEGIN], x + (item + (y + b)));
    BeginsConcat(x, item + (y + b));
    BeginsConcat(item, y + b);
    BeginsConcat(y, b);
    OneBegin();
  }

  // ---------------------------------------------------------------- parts of texts

  lemma FiveParts(input: string, i: nat, j: nat, k: nat, n: nat)
    requires i < j <= k <= n < |input|
    ensures input == input[..i] + ([input[i]] + (input[i + 1..j] + (input[j..k] + (input[k..n + 1] + input[n + 1..]))))
  {
    assert input[k..] == input[k..n + 1] + input[n + 1..];
    assert input[j..] == input[j..k] + input[k..];
    assert input[i + 1..] == input[i + 1..j] + input[j..];
    assert input[i..] == [input[i]] + input[i + 1..];
  }

  lemma ItemsParts(items: Items)
    ensures PrintItems(items) == Print(items.item) + (if items.More? then [BRACE_SEP] + PrintItems(items.others) else "")
  {
    if items.Last? {
      assert Print(items.item) + "" == Print(items.item);
    }
  }

  lemma AtItemEnd(p: string, more: string)
    requires Sealed(p, true)
    ensures (p + more)[..|p|] == p && p[..|p|] == p && Depth(p) == 0
    ensures more != "" ==> (p + more)[|p|] == more[0]
  {
  }

  lemma AfterSeparator(p: string, others: string)
    ensures (p + ([BRACE_SEP] + others))[|p| + 1..] == others
  {
  }

  lemma Slices(s: string, i: nat, j: nat, k: nat)
    requires i <= j <= k <= |s|
    ensures s[i..k][..j - i] == s[i..j] && s[i..k][j - i..] == s[j..k] && (j < k ==> s[i..k][j - i] == s[j])
  {
  }

  lemma InsideItem(p: string, inside: string, k: nat)
    requires Sealed(p, true) && k < |p| <= |inside| && inside[..|p|] == p
    ensures inside[k] == p[k] && Depth(p[..k + 1]) == Depth(p[..k]) + Depth([p[k]])
    ensures Depth(p[..k]) == 0 ==> p[k] != BRACE_SEP && p[k] != BRACE_END
  {
    assert p[..k + 1] == p[..k] + [p[k]];
    DepthConcat(p[..k], [p[k]]);
  }

  lemma Associate(a: string, b: string, c: string)
    ensures a + (b + c) == a + b + c
  {
  }

  lemma TextParts(u: string, items: string, v: string)
    ensures var t := u + [BRACE_BEGIN] + items + [BRACE_END] + v;
            var b := |u| + 1 + |items|;
            && t[..|u|] == u && t[|u|] == BRACE_BEGIN && t[|u| + 1..b] == items && t[b] == BRACE_END && t[b + 1..] == v
  {
  }
}
