module BraceExpand {
  /**
   Brace expansion (src/expand.rs:797-919, src/wcstringutil.rs:500-513): the last top-level pair of braces is
   replaced by each of its items in turn and the result expanded again, which is proved equal to a
   meaning defined on the structure of the word. Completion mode and the limit on the number of
   results are not part of this model.
   */

  import opened Common
  import opened Wide
  import opened Products
  import opened BraceWords
  import opened BraceText

  // ---------------------------------------------------------------- every balanced text is a word

  /** The text closes `d` braces besides its own, and no more. */
  ghost predicate Closes(s: string, d: nat) {
    Depth(s) == 0 - d && forall i :: 0 <= i <= |s| ==> Depth(s[..i]) >= 0 - d
  }

  lemma ClosesTail(s: string, d: nat)
    requires s != "" && Closes(s, d)
    ensures s[0] == BRACE_BEGIN ==> Closes(s[1..], d + 1)
    ensures s[0] == BRACE_END ==> d > 0 && Closes(s[1..], d - 1)
    ensures s[0] != BRACE_BEGIN && s[0] != BRACE_END ==> Closes(s[1..], d)
  {
    var c, t := s[0], s[1..];
    assert s == [c] + t;
    DepthOne(c);
    DepthConcat([c], t);
    forall i | 0 <= i <= |t| ensures Depth(s[..i + 1]) == Depth([c]) + Depth(t[..i]) {
      assert s[..i + 1] == [c] + t[..i];
      DepthConcat([c], t[..i]);
    }
    assert s[..1] == [c] && t[..0] == "";
    assert Depth(s[..0 + 1]) == Depth([c]) + Depth(t[..0]);
    forall i | 0 <= i <= |t| ensures Depth(t[..i]) >= 0 - d - Depth([c]) {
      assert Depth(s[..i + 1]) >= 0 - d;
    }
  }

  lemma ClosesNothing(d: nat)
    requires Closes("", d)
    ensures d == 0
  {
  }

  lemma Braced(s: string, items: string, after: string, next: string, rest: string)
    requires s != "" && s[0] == BRACE_BEGIN && s[1..] == items + after
    requires after != "" && after[0] == BRACE_END && after[1..] == next + rest
    ensures s == ([BRACE_BEGIN] + items + [BRACE_END] + next) + rest
  {
    assert s == [BRACE_BEGIN] + s[1..] && after == [BRACE_END] + after[1..];
    assert s == [BRACE_BEGIN] + (items + ([BRACE_END] + (next + rest)));
  }

  /** Reads a word up to the end of the text, or to what ends an item. */
  lemma {:induction false} ParseWord(s: string, d: nat) returns (w: Word, rest: string)
    requires Closes(s, d)
    ensures s == Print(w) + rest && WellFormed(w, d > 0) && Closes(rest, d)
    ensures if d == 0 then rest == "" else rest != "" && (rest[0] == BRACE_END || rest[0] == BRACE_SEP)
    decreases |s|, 0
  {
    hide Closes, Depth;
    if s == "" || s[0] == BRACE_END || (d > 0 && s[0] == BRACE_SEP) {
      if s == "" {
        ClosesNothing(d);
      } else {
        ClosesTail(s, d);
      }
      return Nil, s;
    }
    ClosesTail(s, d);
    if s[0] == BRACE_BEGIN {
      var items, after := ParseItems(s[1..], d + 1);
      ClosesTail(after, d + 1);
      var next;
      next, rest := ParseWord(after[1..], d);
      w := Alt(items, next);
      Braced(s, PrintItems(items), after, Print(next), rest);
    } else {
      var next;
      next, rest := ParseWord(s[1..], d);
      w := Lit(s[0], next);
    }
  }

  lemma {:induction false} ParseItems(s: string, d: nat) returns (items: Items, rest: string)
    requires d > 0 && Closes(s, d)
    ensures s == PrintItems(items) + rest && WellFormedItems(items) && Closes(rest, d)
    ensures rest != "" && rest[0] == BRACE_END
    decreases |s|, 1
  {
    var item, after := ParseWord(s, d);
    if after[0] == BRACE_END {
      return Last(item), after;
    }
    ClosesTail(after, d);
    var others;
    others, rest := ParseItems(after[1..], d);
    items := More(item, others);
    assert s == Print(item) + ([BRACE_SEP] + (PrintItems(others) + rest));
    assert s == Print(item) + [BRACE_SEP] + PrintItems(others) + rest;
  }

  /** A text is balanced exactly if it is how some word is written. */
  lemma BalancedIffWord(s: string)
    ensures Balanced(s) <==> exists w :: WellFormed(w, false) && Print(w) == s
  {
    if Balanced(s) {
      var w, rest := ParseWord(s, 0);
      assert Print(w) == s;
    }
    forall w | WellFormed(w, false) && Print(w) == s ensures Balanced(s) {
      PrintSealed(w, false);
    }
  }

  // ---------------------------------------------------------------- the last pair

  /** What the first loop knows after some text: the open braces, the last pair, whether too many closed. */
  datatype Scanned = Scanned(count: int, begin: Option<nat>, end: Option<nat>, bad: bool)

  function ScanOne(st: Scanned, pos: nat, c: char): Scanned {
    if c == BRACE_BEGIN then
      st.(begin := if st.count == 0 then Some(pos) else st.begin, count := st.count + 1)
    else if c == BRACE_END then
      st.(count := st.count - 1,
      bad := st.bad || st.count - 1 < 0,
      end := if st.count - 1 == 0 then Some(pos) else st.end)
    else st
  }

  function Scan(s: string): Scanned {
    if s == "" then Scanned(0, None, None, false) else ScanOne(Scan(s[..|s| - 1]), |s| - 1, s[|s| - 1])
  }

  /** The loop finds a syntax error exactly in an unbalanced text. */
  lemma {:induction false} ScanBalance(s: string)
    ensures Scan(s).count == Depth(s)
    ensures Scan(s).bad <==> exists i :: 0 <= i <= |s| && Depth(s[..i]) < 0
  {
    if s != "" {
      var n := |s| - 1;
      ScanBalance(s[..n]);
      assert s[..|s|] == s;
      assert forall i :: 0 <= i <= n ==> s[..n][..i] == s[..i];
      if Depth(s) < 0 {
        assert Depth(s[..|s|]) < 0;
      }
    }
  }

  /** Inside of open braces nothing of what was found changes. */
  lemma {:induction false} ScanInside(a: string, b: string)
    requires Scan(a).count >= 1 && Balanced(b)
    ensures Scan(a + b) == Scan(a)
  {
    ScanInsidePrefix(a, b, |b|);
    assert b[..|b|] == b;
  }

  lemma {:induction false} ScanInsidePrefix(a: string, b: string, n: nat)
    requires Scan(a).count >= 1 && Balanced(b) && n <= |b|
    ensures Scan(a + b[..n]) == Scan(a).(count := Scan(a).count + Depth(b[..n]))
  {
    if n == 0 {
      assert a + b[..0] == a;
    } else {
      ScanInsidePrefix(a, b, n - 1);
      var t := a + b[..n];
      assert t[..|t| - 1] == a + b[..n - 1];
      assert b[..n][..n - 1] == b[..n - 1];
    }
  }

  lemma {:induction false} ScanLiteral(a: string, v: Word)
    requires Literal(v) && WellFormed(v, false)
    ensures Scan(a + Print(v)) == Scan(a)
    decreases v
  {
    if v.Nil? {
      assert a + "" == a;
    } else {
      var b := a + [v.c];
      assert b[..|b| - 1] == a;
      ScanLiteral(b, v.rest);
      assert a + Print(v) == b + Print(v.rest);
    }
  }

  lemma ScanSnoc(a: string, c: char)
    ensures Scan(a + [c]) == ScanOne(Scan(a), |a|, c)
  {
    assert (a + [c])[..|a|] == a;
  }

  lemma {:induction false} ScanPair(a: string, inner: string, v: Word)
    requires Balanced(a) && Balanced(inner) && WellFormed(v, false) && Literal(v)
    ensures var st := Scan(a + [BRACE_BEGIN] + inner + [BRACE_END] + Print(v));
            st.begin == Some(|a|) && st.end == Some(|a| + 1 + |inner|)
  {
    hide Balanced, Scan, Depth, Print, Literal, WellFormed;
    var b := a + [BRACE_BEGIN];
    ScanBalance(a);
    BalancedDepth(a);
    ScanSnoc(a, BRACE_BEGIN);
    ScanInside(b, inner);
    ScanSnoc(b + inner, BRACE_END);
    ScanLiteral(b + inner + [BRACE_END], v);
  }

  /** The loop finds the last pair of the word. */
  lemma {:induction false} ScanFindsLast(u: Word, items: Items, v: Word)
    requires WellFormed(u, false) && WellFormedItems(items) && WellFormed(v, false) && Literal(v)
    ensures Print(Concat(u, Alt(items, v))) == Print(u) + [BRACE_BEGIN] + PrintItems(items) + [BRACE_END] + Print(v)
    ensures var st := Scan(Print(Concat(u, Alt(items, v))));
            st.begin == Some(|Print(u)|) && st.end == Some(|Print(u)| + 1 + |PrintItems(items)|)
  {
    hide Scan, Depth, Print, PrintItems, WellFormed, WellFormedItems, Literal, Concat;
    PrintSealed(u, false);
    ItemsBalanced(items);
    PrintConcat(u, Alt(items, v));
    PrintAlt(items, v);
    Ungroup(Print(u), PrintItems(items), Print(v));
    ScanPair(Print(u), PrintItems(items), v);
  }

  /** The last alternation of a word, if there is one. */
  lemma {:induction false} LastAlternation(w: Word) returns (u: Word, items: Items, v: Word)
    requires !Literal(w) && WellFormed(w, false)
    ensures w == Concat(u, Alt(items, v)) && Literal(v)
    ensures WellFormed(u, false) && WellFormedItems(items) && WellFormed(v, false)
  {
    if Literal(w.rest) {
      return Nil, w.items, w.rest;
    }
    var u';
    u', items, v := LastAlternation(w.rest);
    u := if w.Lit? then Lit(w.c, u') else Alt(w.items, u');
  }

  // ---------------------------------------------------------------- a text is one word only

  /** What ends an item, or the braces, at this place. */
  predicate StopsAt(t: string, n: nat, nested: bool) {
    n < |t| && Depth(t[..n]) == 0 && (t[n] == BRACE_END || (nested && t[n] == BRACE_SEP))
  }

  lemma FirstStop(a: string, x: char, b: string, nested: bool)
    requires Sealed(a, nested) && (x == BRACE_END || (nested && x == BRACE_SEP))
    ensures StopsAt(a + [x] + b, |a|, nested) && forall i: nat :: i < |a| ==> !StopsAt(a + [x] + b, i, nested)
  {
    var t := a + [x] + b;
    assert t[..|a|] == a;
    forall i: nat | i < |a| ensures !StopsAt(t, i, nested) {
      assert t[..i] == a[..i] && t[i] == a[i];
    }
  }

  /** Where the first unmatched closing brace or separator is cannot depend on how the text is read. */
  lemma SameSplit(a: string, x: char, b: string, a': string, y: char, b': string, nested: bool)
    requires a + [x] + b == a' + [y] + b' && Sealed(a, nested) && Sealed(a', nested)
    requires (x == BRACE_END || (nested && x == BRACE_SEP)) && (y == BRACE_END || (nested && y == BRACE_SEP))
    ensures a == a' && x == y && b == b'
  {
    hide Sealed, StopsAt;
    FirstStop(a, x, b, nested);
    FirstStop(a', y, b', nested);
    assert |a| == |a'|;
    var s := a + [x] + b;
    assert a == s[..|a|] && a' == s[..|a'|] && x == s[|a|] && y == s[|a'|] && b == s[|a| + 1..] && b' == s[|a'| + 1..];
  }

  lemma {:induction false} PrintInjective(a: Word, b: Word, nested: bool)
    requires WellFormed(a, nested) && WellFormed(b, nested) && Print(a) == Print(b)
    ensures a == b
    decreases a, 1
  {
    if !a.Nil? {
      assert Print(a)[0] == Print(b)[0];
      if a.Lit? {
        assert Print(a)[1..] == Print(a.rest) && Print(b)[1..] == Print(b.rest);
      } else {
        ItemsBalanced(a.items);
        ItemsBalanced(b.items);
        BracedTail(PrintItems(a.items), Print(a.rest));
        BracedTail(PrintItems(b.items), Print(b.rest));
        SameSplit(PrintItems(a.items), BRACE_END, Print(a.rest), PrintItems(b.items), BRACE_END, Print(b.rest), false);
        ItemsInjective(a.items, b.items);
      }
      PrintInjective(a.rest, b.rest, nested);
    }
  }

  lemma SealedNeverStops(t: string)
    requires Sealed(t, true)
    ensures forall n :: !StopsAt(t, n, true)
  {
  }

  lemma MoreStops(items: Items)
    requires WellFormedItems(items)
    ensures items.More? <==> exists n :: StopsAt(PrintItems(items), n, true)
  {
    PrintSealed(items.item, true);
    if items.More? {
      assert PrintItems(items) == Print(items.item) + [BRACE_SEP] + PrintItems(items.others);
      hide StopsAt;
      FirstStop(Print(items.item), BRACE_SEP, PrintItems(items.others), true);
      assert StopsAt(PrintItems(items), |Print(items.item)|, true);
    } else {
      assert PrintItems(items) == Print(items.item);
      SealedNeverStops(PrintItems(items));
    }
  }

  lemma {:induction false} ItemsInjective(a: Items, b: Items)
    requires WellFormedItems(a) && WellFormedItems(b) && PrintItems(a) == PrintItems(b)
    ensures a == b
    decreases a, 0
  {
    MoreStops(a);
    MoreStops(b);
    assert a.More? <==> b.More?;
    if a.More? {
      PrintSealed(a.item, true);
      PrintSealed(b.item, true);
      SameSplit(Print(a.item), BRACE_SEP, PrintItems(a.others), Print(b.item), BRACE_SEP, PrintItems(b.others), true);
      ItemsInjective(a.others, b.others);
    }
    PrintInjective(a.item, b.item, true);
  }

  // ---------------------------------------------------------------- the loops

  method Trim(input: string) returns (r: string)
    ensures r == TrimStart(TrimEnd(input))
  {
    var n := |input|;
    assert input[..n] == input;
    while n > 0 && Blank(input[n - 1])
      invariant 0 <= n <= |input| && TrimEnd(input[..n]) == TrimEnd(input)
    {
      n := n - 1;
      assert input[..n + 1][..n] == input[..n];
    }
    r := input[..n];
    while r != "" && Blank(r[0])
      invariant TrimStart(r) == TrimStart(TrimEnd(input))
      decreases |r|
    {
      r := r[1..];
    }
  }

  method CleanItem(input: string) returns (r: string)
    ensures r == CleanString(input)
  {
    var item := Trim(input);
    r := "";
    assert item[0..] == item;
    for i := 0 to |item|
      invariant r + SpacedString(item[i..]) == SpacedString(item)
    {
      assert item[i..][1..] == item[i + 1..];
      assert r + SpacedString(item[i..]) == r + [Spaced(item[i])] + SpacedString(item[i + 1..]);
      r := r + [if item[i] == BRACE_SPACE then ' ' else item[i]];
    }
    assert item[|item|..] == "";
  }

  /** The first loop of expand_braces. */
  method FindLastPair(input: string) returns (st: Scanned)
    ensures st == Scan(input)
    ensures st.bad || st.count > 0 <==> !Balanced(input)
  {
    st := Scanned(0, None, None, false);
    for pos := 0 to |input|
      invariant st == Scan(input[..pos])
    {
      var c := input[pos];
      assert input[..pos + 1] == input[..pos] + [c];
      ScanSnoc(input[..pos], c);
      if c == BRACE_BEGIN {
        if st.count == 0 {
          st := st.(begin := Some(pos));
        }
        st := st.(count := st.count + 1);
      } else if c == BRACE_END {
        st := st.(count := st.count - 1);
        if st.count < 0 {
          st := st.(bad := true);
        } else if st.count == 0 {
          st := st.(end := Some(pos));
        }
      }
    }
    assert input[..|input|] == input;
    ScanBalance(input);
  }

  /** Expand braces. The input is a word exactly if its braces match; then the word is unique and the
      results added are its meaning. */
  method ExpandBraces(input: string, out: Receiver) returns (ok: bool)
    modifies out
    ensures ok <==> Balanced(input)
    ensures !ok ==> out.items == old(out.items)
    ensures forall w :: WellFormed(w, false) && Print(w) == input ==> out.items == old(out.items) + Meaning(w)
    decreases Begins(input), 1
  {
    hide Scan, WellFormed, Meaning, Print, Begins;
    var st := FindLastPair(input);
    if st.bad || st.count > 0 {
      forall w | WellFormed(w, false) ensures Print(w) != input {
        PrintSealed(w, false);
      }
      return false;
    }
    ghost var w := WordOf(input);
    ExpandWord(input, st, out, w);
    return true;
  }

  /** The word of a balanced text is unique. */
  lemma WordOf(input: string) returns (w: Word)
    requires Balanced(input)
    ensures WellFormed(w, false) && Print(w) == input
    ensures forall w' :: WellFormed(w', false) && Print(w') == input ==> w' == w
  {
    var rest;
    w, rest := ParseWord(input, 0);
    assert Print(w) == input;
    forall w' | WellFormed(w', false) && Print(w') == input ensures w' == w {
      PrintInjective(w', w, false);
    }
  }

  /** The rest of expand_braces, once the pair is found. */
  method ExpandWord(input: string, st: Scanned, out: Receiver, ghost w: Word)
    requires st == Scan(input) && WellFormed(w, false) && Print(w) == input
    modifies out
    ensures out.items == old(out.items) + Meaning(w)
    decreases Begins(input), 0, 2
  {
    hide Scan, WellFormed, Meaning, Print, PrintItems, Concat, Literal, Begins;
    if st.begin.None? {
      NoPair(w);
      LiteralMeaning(w);
      out.Add(input);
    } else {
      PairFound(w);
      ghost var u, items, v := LastAlternation(w);
      ScanFindsLast(u, items, v);
      PairText(input, u, items, v);
      Substitute(input, st.begin.value, st.end.value, out, u, items, v);
    }
  }

  lemma NoPair(w: Word)
    requires WellFormed(w, false) && Scan(Print(w)).begin.None?
    ensures Literal(w)
  {
    if !Literal(w) {
      var u, items, v := LastAlternation(w);
      ScanFindsLast(u, items, v);
    }
  }

  lemma PairFound(w: Word)
    requires WellFormed(w, false) && Scan(Print(w)).begin.Some?
    ensures !Literal(w)
  {
    if Literal(w) {
      LiteralHasNoPair(w);
    }
  }

  lemma LiteralHasNoPair(w: Word)
    requires Literal(w) && WellFormed(w, false)
    ensures Scan(Print(w)).begin.None?
  {
    ScanLiteral("", w);
    assert "" + Print(w) == Print(w);
  }

  /** The second loop of expand_braces: every item in place of the pair, expanded in turn. */
  method Substitute(input: string, braceBegin: nat, braceEnd: nat, out: Receiver, ghost u: Word, ghost items: Items, ghost v: Word)
    requires PairOf(input, braceBegin, braceEnd, u, v) && Literal(v)
    requires WellFormedItems(items) && input[braceBegin + 1..braceEnd] == PrintItems(items)
    modifies out
    ensures out.items == old(out.items) + Meaning(Concat(u, Alt(items, v)))
    decreases Begins(input), 0, 1
  {
    hide Meaning, Print, PrintItems, WellFormed, Concat, Depth, Literal;
    var braceCount := 0;
    var itemBegin := braceBegin + 1;
    var pos := braceBegin + 1;
    ghost var left := items;
    ItemStarts(left);
    assert Print(left.item)[..pos - itemBegin] == "";
    while pos < |input|
      invariant braceBegin < itemBegin <= pos <= braceEnd
      invariant WellFormedItems(left) && input[itemBegin..braceEnd] == PrintItems(left)
      invariant pos - itemBegin <= |Print(left.item)| && braceCount == Depth(Print(left.item)[..pos - itemBegin])
      invariant out.items + Meaning(Concat(u, Alt(left, v))) == old(out.items) + Meaning(Concat(u, Alt(items, v)))
      decreases |input| - pos
    {
      var c := input[pos];
      WhereItemEnds(left, input, itemBegin, pos, braceEnd);
      if braceCount == 0 && (c == BRACE_SEP || pos == braceEnd) {
        ExpandItem(input, braceBegin, itemBegin, pos, braceEnd, out, u, left.item, v);
        itemBegin := pos + 1;
        if pos == braceEnd {
          SubstituteLast(u, left, v);
          break;
        }
        SubstituteFirst(u, left, v);
        left := left.others;
        ItemStarts(left);
        assert Print(left.item)[..0] == "";
      } else {
        DepthOne(c);
      }
      if c == BRACE_BEGIN {
        braceCount := braceCount + 1;
      }
      if c == BRACE_END {
        braceCount := braceCount - 1;
      }
      pos := pos + 1;
    }
  }

  /** The braces in the text of a word with the alternation last. */
  ghost predicate PairOf(input: string, braceBegin: nat, braceEnd: nat, u: Word, v: Word) {
    && braceBegin < braceEnd < |input| && input[braceBegin] == BRACE_BEGIN && input[braceEnd] == BRACE_END
    && input[..braceBegin] == Print(u) && input[braceEnd + 1..] == Print(v)
    && WellFormed(u, false) && WellFormed(v, false)
  }

  lemma ItemStarts(items: Items)
    requires WellFormedItems(items)
    ensures WellFormed(items.item, true) && (items.More? ==> WellFormedItems(items.others)) && Depth("") == 0
  {
  }

  /** One item in place of the pair. */
  method ExpandItem(input: string, braceBegin: nat, itemBegin: nat, pos: nat, braceEnd: nat, out: Receiver,
                    ghost u: Word, ghost item: Word, ghost v: Word)
    requires PairOf(input, braceBegin, braceEnd, u, v) && braceBegin < itemBegin <= pos <= braceEnd
    requires WellFormed(item, true) && input[itemBegin..pos] == Print(item)
    modifies out
    ensures out.items == old(out.items) + Meaning(Concat(u, Concat(Clean(item), v)))
    decreases Begins(input), 0, 0
  {
    hide Meaning, Print, WellFormed, Concat;
    var cleaned := CleanItem(input[itemBegin..pos]);
    ItemSubstituted(input, braceBegin, braceEnd, u, item, v);
    FewerBegins(input, braceBegin, itemBegin, pos, braceEnd);
    var _ := ExpandBraces(input[..braceBegin] + cleaned + input[braceEnd + 1..], out);
  }

  lemma {:induction false} FewerBegins(input: string, braceBegin: nat, itemBegin: nat, pos: nat, braceEnd: nat)
    requires braceBegin < itemBegin <= pos <= braceEnd < |input| && input[braceBegin] == BRACE_BEGIN
    ensures Begins(input[..braceBegin] + CleanString(input[itemBegin..pos]) + input[braceEnd + 1..]) < Begins(input)
  {
    hide Begins, CleanString;
    var a, item, b := input[..braceBegin], input[itemBegin..pos], input[braceEnd + 1..];
    CleanBegins(item);
    BeginsConcat(a + CleanString(item), b);
    BeginsConcat(a, CleanString(item));
    var x, y := input[braceBegin + 1..itemBegin], input[pos..braceEnd + 1];
    BeginsOfParts(a, x, item, y, b);
    FiveParts(input, braceBegin, itemBegin, pos, braceEnd);
  }

  /** The loop is at the end of an item exactly when it is at depth 0 and sees a separator or the closing brace. */
  lemma WhereItemEnds(left: Items, input: string, itemBegin: nat, pos: nat, braceEnd: nat)
    requires itemBegin <= pos <= braceEnd < |input| && input[braceEnd] == BRACE_END
    requires WellFormedItems(left) && input[itemBegin..braceEnd] == PrintItems(left)
    requires pos - itemBegin <= |Print(left.item)|
    ensures var k := pos - itemBegin;
            var p := Print(left.item);
            var d := Depth(p[..k]);
            && (d == 0 && (input[pos] == BRACE_SEP || pos == braceEnd) <==> k == |p|)
            && (k == |p| ==> input[itemBegin..pos] == p && (pos == braceEnd <==> left.Last?))
            && (k == |p| && left.More? ==> input[pos] == BRACE_SEP && input[pos + 1..braceEnd] == PrintItems(left.others))
            && (k < |p| ==> pos < braceEnd && Depth(p[..k + 1]) == d + Depth([input[pos]]))
  {
    hide Depth, Print, PrintItems, WellFormed;
    var p := Print(left.item);
    PrintSealed(left.item, true);
    ItemsParts(left);
    var more := if left.More? then [BRACE_SEP] + PrintItems(left.others) else "";
    Slices(input, itemBegin, pos, braceEnd);
    if pos - itemBegin < |p| {
      InsideItem(p, p + more, pos - itemBegin);
    } else {
      AtItemEnd(p, more);
      if left.More? {
        Slices(input, itemBegin, pos + 1, braceEnd);
        AfterSeparator(p, PrintItems(left.others));
      }
    }
  }

  /** The text with an item in place of the pair is the word with the item in place of the alternation. */
  lemma ItemSubstituted(input: string, braceBegin: nat, braceEnd: nat, u: Word, item: Word, v: Word)
    requires PairOf(input, braceBegin, braceEnd, u, v) && WellFormed(item, true)
    ensures var w := Concat(u, Concat(Clean(item), v));
            WellFormed(w, false) && Print(w) == input[..braceBegin] + CleanString(Print(item)) + input[braceEnd + 1..]
  {
    CleanWellFormed(item);
    Unnested(Clean(item));
    ConcatWellFormed(Clean(item), v, false);
    ConcatWellFormed(u, Concat(Clean(item), v), false);
    PrintConcat(Clean(item), v);
    PrintConcat(u, Concat(Clean(item), v));
    PrintClean(item);
    Associate(Print(u), CleanString(Print(item)), Print(v));
  }

  lemma PairText(input: string, u: Word, items: Items, v: Word)
    requires WellFormed(u, false) && WellFormed(v, false)
    requires input == Print(u) + [BRACE_BEGIN] + PrintItems(items) + [BRACE_END] + Print(v)
    ensures var a, b := |Print(u)|, |Print(u)| + 1 + |PrintItems(items)|;
            PairOf(input, a, b, u, v) && input[a + 1..b] == PrintItems(items)
  {
    hide Print, PrintItems, WellFormed;
    TextParts(Print(u), PrintItems(items), Print(v));
  }
}
