module VariableExpand {
  /**
   Variable expansion by repeated substitution from the right (src/expand.rs:551-795, 1190-1211), proved
   equal to the product of the variables' values. Slices, `$$`, empty names, $history and the limit
   on the number of results are not part of this model.
   */

  import opened Common
  import opened Wide
  import opened Products

  datatype Piece = Lit(c: char) | Var(name: string, single: bool)

  datatype EnvVar = EnvVar(values: seq<string>, delimiter: char)

  type Environment = map<string, EnvVar>

  predicate ExpandChar(c: char) {
    c == VARIABLE_EXPAND || c == VARIABLE_EXPAND_SINGLE
  }

  function PrintPiece(p: Piece): string {
    match p
    case Lit(c) => [c]
    case Var(name, single) => [if single then VARIABLE_EXPAND_SINGLE else VARIABLE_EXPAND] + name
  }

  function Print(pieces: seq<Piece>): string {
    if pieces == [] then "" else Print(pieces[..|pieces| - 1]) + PrintPiece(pieces[|pieces| - 1])
  }

  /** What may follow a variable: nothing that would make its name longer, empty it, or start a slice. */
  predicate EndsName(loc: Locale, s: string) {
    s == "" || (!ValidVarNameChar(loc, s[0]) && s[0] != VARIABLE_EXPAND_EMPTY && s[0] != '[')
  }

  predicate PieceSound(loc: Locale, p: Piece) {
    match p
    case Lit(c) => !ExpandChar(c)
    case Var(name, _) => name != "" && name != "history" && forall c <- name :: ValidVarNameChar(loc, c)
  }

  /** How a text with variables is written, from the right: `tail` is what comes after. */
  predicate WellFormed(loc: Locale, pieces: seq<Piece>, tail: string)
    decreases |pieces|
  {
    pieces == []
    || var last := pieces[|pieces| - 1];
       && PieceSound(loc, last)
       && (last.Var? ==> EndsName(loc, tail))
       && WellFormed(loc, pieces[..|pieces| - 1], PrintPiece(last) + tail)
  }

  // ---------------------------------------------------------------- the meaning

  function StripEach(texts: seq<string>): (r: seq<string>)
    ensures |r| == |texts|
  {
    if texts == [] then [] else [Stripped(texts[0])] + StripEach(texts[1..])
  }

  /** A variable in quotes is its values joined; unquoted, one result for each value. */
  function MeaningOfVar(env: Environment, name: string, single: bool): seq<string> {
    if name !in env then (if single then [""] else [])
    else if single then [Stripped(JoinStrings(env[name].values, env[name].delimiter))]
    else StripEach(env[name].values)
  }

  function MeaningOfPiece(env: Environment, p: Piece): seq<string> {
    match p
    case Lit(c) => [Stripped([c])]
    case Var(name, single) => MeaningOfVar(env, name, single)
  }

  /** What a text stands for: the product of its pieces, the rightmost varying slowest. */
  function Meaning(env: Environment, pieces: seq<Piece>): seq<string> {
    if pieces == [] then [""]
    else Product(Meaning(env, pieces[..|pieces| - 1]), MeaningOfPiece(env, pieces[|pieces| - 1]))
  }

  lemma {:induction false} StripEachConcat(a: seq<string>, b: seq<string>)
    ensures StripEach(a + b) == StripEach(a) + StripEach(b)
  {
    if a == [] {
      assert a + b == b;
    } else {
      assert (a + b)[1..] == a[1..] + b;
      StripEachConcat(a[1..], b);
    }
  }

  lemma StrippedOne(s: string)
    ensures StripEach([s]) == [Stripped(s)]
  {
    assert [s][1..] == [];
  }

  predicate Literal(pieces: seq<Piece>) {
    forall p <- pieces :: p.Lit?
  }

  /** The last variable, and the characters after it. */
  predicate SplitAtLast(pieces: seq<Piece>, front: seq<Piece>, last: Piece, lits: seq<Piece>) {
    pieces == front + [last] + lits && last.Var? && Literal(lits)
  }

  lemma PrintSnoc(a: seq<Piece>, p: Piece)
    ensures Print(a + [p]) == Print(a) + PrintPiece(p)
  {
    assert (a + [p])[..|a|] == a;
  }

  lemma Associate(a: string, b: string, c: string)
    ensures a + b + c == a + (b + c)
  {
  }

  lemma PrintConcatStep(a: seq<Piece>, b: seq<Piece>, p: Piece)
    requires Print(a + b) == Print(a) + Print(b)
    ensures Print(a + (b + [p])) == Print(a) + Print(b + [p])
  {
    hide Print, PrintPiece;
    assert a + (b + [p]) == a + b + [p];
    PrintSnoc(a + b, p);
    PrintSnoc(b, p);
    Associate(Print(a), Print(b), PrintPiece(p));
  }

  lemma PrintNothing(a: seq<Piece>)
    ensures a + [] == a && Print([]) == "" && Print(a) + Print([]) == Print(a)
  {
  }

  lemma {:induction false} PrintConcat(a: seq<Piece>, b: seq<Piece>)
    ensures Print(a + b) == Print(a) + Print(b)
    decreases |b|
  {
    hide Print;
    if b == [] {
      PrintNothing(a);
    } else {
      var front, last := b[..|b| - 1], b[|b| - 1];
      PrintConcat(a, front);
      PrintConcatStep(a, front, last);
      assert front + [last] == b;
    }
  }

  lemma {:induction false} MeaningOfLiterals(env: Environment, front: seq<Piece>, lits: seq<Piece>)
    requires Literal(lits)
    ensures Meaning(env, front + lits) == AppendEach(Meaning(env, front), Stripped(Print(lits)))
    decreases |lits|
  {
    if lits == [] {
      assert front + lits == front;
      AppendNothing(Meaning(env, front));
    } else {
      var n := |lits| - 1;
      assert (front + lits)[..|front + lits| - 1] == front + lits[..n];
      MeaningOfLiterals(env, front, lits[..n]);
      ProductOne(Meaning(env, front + lits[..n]), Stripped(PrintPiece(lits[n])));
      AppendEachTwice(Meaning(env, front), Stripped(Print(lits[..n])), Stripped(PrintPiece(lits[n])));
      StrippedConcat(Print(lits[..n]), PrintPiece(lits[n]));
    }
  }

  lemma MeaningAtLast(env: Environment, front: seq<Piece>, last: Piece, lits: seq<Piece>, tail: string)
    requires Literal(lits)
    ensures AppendEach(Meaning(env, front + [last] + lits), Stripped(tail))
            == AppendEach(Product(Meaning(env, front), MeaningOfPiece(env, last)), Stripped(Print(lits) + tail))
  {
    MeaningOfLiterals(env, front + [last], lits);
    assert (front + [last])[..|front|] == front;
    AppendEachTwice(Meaning(env, front + [last]), Stripped(Print(lits)), Stripped(tail));
    StrippedConcat(Print(lits), tail);
  }

  // ---------------------------------------------------------------- finding the last variable

  predicate NoExpandChar(s: string) {
    forall c <- s :: !ExpandChar(c)
  }

  lemma NameHasNoExpandChar(loc: Locale, p: Piece)
    requires p.Var? && PieceSound(loc, p)
    ensures NoExpandChar(p.name)
  {
  }

  lemma StillLiteral(pieces: seq<Piece>, p: Piece)
    requires Literal(pieces) && NoExpandChar(Print(pieces)) && p.Lit? && !ExpandChar(p.c)
    ensures Literal(pieces + [p]) && NoExpandChar(Print(pieces + [p]))
  {
    hide ExpandChar, Print;
    PrintSnoc(pieces, p);
  }

  lemma OneMoreLiteral(loc: Locale, front: seq<Piece>, last: Piece, before: seq<Piece>, p: Piece, tail: string)
    requires last.Var? && Literal(before) && NoExpandChar(Print(before)) && p.Lit? && !ExpandChar(p.c)
    ensures SplitAtLast(front + [last] + before + [p], front, last, before + [p]) && NoExpandChar(Print(before + [p]))
    ensures Print(before + [p]) + tail == Print(before) + (PrintPiece(p) + tail)
  {
    StillLiteral(before, p);
    PrintSnoc(before, p);
    assert front + [last] + before + [p] == front + [last] + (before + [p]);
    Associate(Print(before), PrintPiece(p), tail);
  }

  /** The variable the scan from the right finds, if any, is the last one. */
  lemma {:induction false} LastVariable(loc: Locale, pieces: seq<Piece>, tail: string)
    returns (found: bool, front: seq<Piece>, last: Piece, lits: seq<Piece>)
    requires WellFormed(loc, pieces, tail)
    ensures !found ==> Literal(pieces) && NoExpandChar(Print(pieces))
    ensures found ==> SplitAtLast(pieces, front, last, lits) && NoExpandChar(Print(lits)) && PieceSound(loc, last)
    ensures found ==> EndsName(loc, Print(lits) + tail) && WellFormed(loc, front, PrintPiece(last) + (Print(lits) + tail))
    decreases |pieces|
  {
    hide EndsName, ExpandChar;
    if pieces == [] {
      return false, [], Lit(' '), [];
    }
    var n := |pieces| - 1;
    var p := pieces[n];
    assert pieces == pieces[..n] + [p];
    if p.Var? {
      assert pieces == pieces[..n] + [p] + [];
      assert "" + tail == tail;
      return true, pieces[..n], p, [];
    }
    var before;
    found, front, last, before := LastVariable(loc, pieces[..n], PrintPiece(p) + tail);
    lits := before + [p];
    assert !ExpandChar(p.c);
    hide WellFormed, Print, PieceSound, NoExpandChar, Literal;
    if found {
      OneMoreLiteral(loc, front, last, before, p, tail);
    } else {
      StillLiteral(pieces[..n], p);
    }
  }

  lemma PrintSplit(front: seq<Piece>, last: Piece, lits: seq<Piece>)
    ensures Print(front + [last] + lits) == Print(front) + (PrintPiece(last) + Print(lits))
  {
    PrintConcat(front + [last], lits);
    PrintSnoc(front, last);
    Associate(Print(front), PrintPiece(last), Print(lits));
  }

  /** Before a variable there is never another `$`. */
  lemma LastCharPlain(loc: Locale, pieces: seq<Piece>, tail: string)
    requires WellFormed(loc, pieces, tail) && pieces != []
    ensures Print(pieces) != "" && !ExpandChar(Print(pieces)[|Print(pieces)| - 1])
  {
    hide WellFormed, Print, PrintPiece, ExpandChar;
    var front, p := pieces[..|pieces| - 1], pieces[|pieces| - 1];
    LastPiecePlain(loc, pieces, tail);
    assert pieces == front + [p];
    PrintSnoc(front, p);
    var text, end := Print(front) + PrintPiece(p), PrintPiece(p);
    assert text[|text| - 1] == end[|end| - 1];
  }

  lemma LastPiecePlain(loc: Locale, pieces: seq<Piece>, tail: string)
    requires WellFormed(loc, pieces, tail) && pieces != []
    ensures var end := PrintPiece(pieces[|pieces| - 1]); end != "" && !ExpandChar(end[|end| - 1])
  {
    var p := pieces[|pieces| - 1];
    if p.Var? {
      assert p.name[|p.name| - 1] in p.name;
    }
  }

  /** What follows a text matters only next to it. */
  lemma OtherTail(loc: Locale, pieces: seq<Piece>, tail: string, tail': string)
    requires WellFormed(loc, pieces, tail) && EndsName(loc, tail')
    ensures WellFormed(loc, pieces, tail')
  {
    if pieces != [] {
      var n := |pieces| - 1;
      SameStart(loc, pieces[..n], PrintPiece(pieces[n]) + tail, PrintPiece(pieces[n]) + tail');
    }
  }

  lemma {:induction false} SameStart(loc: Locale, pieces: seq<Piece>, tail: string, tail': string)
    requires WellFormed(loc, pieces, tail) && tail != "" && tail' != "" && tail[0] == tail'[0]
    ensures WellFormed(loc, pieces, tail')
    decreases |pieces|
  {
    if pieces != [] {
      var n := |pieces| - 1;
      SameStart(loc, pieces[..n], PrintPiece(pieces[n]) + tail, PrintPiece(pieces[n]) + tail');
    }
  }

  // ---------------------------------------------------------------- the name

  /** How far the name of a variable goes. */
  function NameEnd(loc: Locale, s: string): (n: nat)
    ensures n <= |s|
  {
    if s == "" then 0
    else if s[0] == VARIABLE_EXPAND_EMPTY then 1
    else if !ValidVarNameChar(loc, s[0]) then 0
    else 1 + NameEnd(loc, s[1..])
  }

  lemma {:induction false} NameEndIs(loc: Locale, name: string, rest: string)
    requires (forall c <- name :: ValidVarNameChar(loc, c)) && EndsName(loc, rest)
    ensures NameEnd(loc, name + rest) == |name|
  {
    if name == "" {
      assert name + rest == rest;
    } else {
      assert (name + rest)[1..] == name[1..] + rest;
      assert name[0] in name;
      NameEndIs(loc, name[1..], rest);
    }
  }

  method NameStop(loc: Locale, instr: string, start: nat) returns (stop: nat)
    requires start <= |instr|
    ensures stop == start + NameEnd(loc, instr[start..])
  {
    stop := start;
    while stop < |instr|
      invariant start <= stop <= |instr|
      invariant start + NameEnd(loc, instr[start..]) == stop + NameEnd(loc, instr[stop..])
    {
      var nc := instr[stop];
      assert instr[stop..][1..] == instr[stop + 1..];
      if nc == VARIABLE_EXPAND_EMPTY {
        stop := stop + 1;
        return;
      }
      if !ValidVarNameChar(loc, nc) {
        return;
      }
      stop := stop + 1;
    }
  }

  method FindExpandChar(instr: string, lastIdx: nat) returns (idx: Option<nat>)
    requires lastIdx <= |instr|
    ensures idx.None? ==> NoExpandChar(instr[..lastIdx])
    ensures idx.Some? ==> idx.value < lastIdx && ExpandChar(instr[idx.value]) && NoExpandChar(instr[idx.value + 1..lastIdx])
  {
    var i := lastIdx;
    while i > 0
      invariant 0 <= i <= lastIdx && NoExpandChar(instr[i..lastIdx])
    {
      i := i - 1;
      if ExpandChar(instr[i]) {
        return Some(i);
      }
      assert instr[i..lastIdx] == [instr[i]] + instr[i + 1..lastIdx];
    }
    assert instr[0..lastIdx] == instr[..lastIdx];
    return None;
  }

  /** The last `$` in a text is the one of its last variable. */
  lemma LastExpandChar(text: string, a: string, e: char, b: string, idx: nat)
    requires text == a + ([e] + b) && ExpandChar(e) && NoExpandChar(b)
    requires idx < |text| && ExpandChar(text[idx]) && NoExpandChar(text[idx + 1..])
    ensures idx == |a|
  {
    assert text[|a|] == e;
    forall j | idx < j < |text| ensures !ExpandChar(text[j]) {
      assert text[j] == text[idx + 1..][j - idx - 1];
      assert text[j] in text[idx + 1..];
    }
    forall j | |a| < j < |text| ensures !ExpandChar(text[j]) {
      assert text[j] == b[j - |a| - 1];
      assert text[j] in b;
    }
  }

  // ---------------------------------------------------------------- which texts these are

  /** Every `$` is followed by a name, and that by neither a slice nor an empty mark. */
  predicate Simple(loc: Locale, text: string) {
    forall i :: 0 <= i < |text| && ExpandChar(text[i]) ==> SimpleAfter(loc, text[i + 1..])
  }

  predicate SimpleAfter(loc: Locale, s: string) {
    var n := NameEnd(loc, s);
    n > 0 && s[n - 1] != VARIABLE_EXPAND_EMPTY && s[..n] != "history" && (n < |s| ==> s[n] != '[')
  }

  lemma {:induction false} NameEndChars(loc: Locale, s: string)
    ensures var n := NameEnd(loc, s);
            && (forall i :: 0 <= i < n - 1 ==> ValidVarNameChar(loc, s[i]))
            && (n > 0 && s[n - 1] != VARIABLE_EXPAND_EMPTY ==>
                  ValidVarNameChar(loc, s[n - 1]) && (n < |s| ==> EndsName(loc, s[n..]) || s[n] == '['))
            && (n > 0 && s[n - 1] != VARIABLE_EXPAND_EMPTY && n < |s| ==> !ValidVarNameChar(loc, s[n]) && s[n] != VARIABLE_EXPAND_EMPTY)
  {
    hide ValidVarNameChar;
    if s != "" && s[0] != VARIABLE_EXPAND_EMPTY && ValidVarNameChar(loc, s[0]) {
      NameEndChars(loc, s[1..]);
      var n := NameEnd(loc, s);
      assert s[n..] == s[1..][n - 1..];
    }
  }

  lemma NameOf(loc: Locale, s: string)
    requires SimpleAfter(loc, s)
    ensures var n := NameEnd(loc, s);
            (forall c <- s[..n] :: ValidVarNameChar(loc, c)) && EndsName(loc, s[n..])
  {
    NameEndChars(loc, s);
  }

  /** A piece in front of well-formed pieces. */
  lemma {:induction false} InFront(loc: Locale, p: Piece, pieces: seq<Piece>, tail: string)
    requires WellFormed(loc, pieces, tail) && PieceSound(loc, p) && (p.Var? ==> EndsName(loc, Print(pieces) + tail))
    ensures WellFormed(loc, [p] + pieces, tail)
    decreases |pieces|
  {
    hide PieceSound, EndsName, PrintPiece;
    if pieces == [] {
      assert [p] + pieces == [p] && [p][..0] == [];
      assert "" + tail == tail;
    } else {
      var n := |pieces| - 1;
      Associate(Print(pieces[..n]), PrintPiece(pieces[n]), tail);
      InFront(loc, p, pieces[..n], PrintPiece(pieces[n]) + tail);
      assert ([p] + pieces)[..n + 1] == [p] + pieces[..n];
    }
  }

  lemma PrintInFront(p: Piece, pieces: seq<Piece>)
    ensures Print([p] + pieces) == PrintPiece(p) + Print(pieces)
  {
    PrintConcat([p], pieces);
    PrintSnoc([], p);
    assert [] + [p] == [p] && "" + PrintPiece(p) == PrintPiece(p);
  }

  /** Every simple text is written with pieces, so the expansion of each is the product of its parts. */
  lemma {:induction false} SimpleTextHasPieces(loc: Locale, text: string) returns (pieces: seq<Piece>)
    requires Simple(loc, text)
    ensures WellFormed(loc, pieces, "") && Print(pieces) == text
    decreases |text|
  {
    hide WellFormed, Print, NameEnd;
    if text == "" {
      NoPieces(loc);
      return [];
    }
    if ExpandChar(text[0]) {
      var rest := text[1..];
      var n := NameEnd(loc, rest);
      SimpleFrom(loc, text, n + 1);
      NameOf(loc, rest);
      assert text[n + 1..] == rest[n..];
      var p := Var(rest[..n], text[0] == VARIABLE_EXPAND_SINGLE);
      var others := SimpleTextHasPieces(loc, text[n + 1..]);
      assert Print(others) + "" == Print(others);
      InFront(loc, p, others, "");
      PrintInFront(p, others);
      pieces := [p] + others;
      assert text == [text[0]] + rest[..n] + rest[n..];
    } else {
      SimpleFrom(loc, text, 1);
      var others := SimpleTextHasPieces(loc, text[1..]);
      InFront(loc, Lit(text[0]), others, "");
      PrintInFront(Lit(text[0]), others);
      pieces := [Lit(text[0])] + others;
    }
  }

  lemma NoPieces(loc: Locale)
    ensures WellFormed(loc, [], "") && Print([]) == ""
  {
  }

  lemma SimpleFrom(loc: Locale, text: string, n: nat)
    requires Simple(loc, text) && n <= |text|
    ensures Simple(loc, text[n..])
  {
    forall i | 0 <= i < |text[n..]| && ExpandChar(text[n..][i]) ensures SimpleAfter(loc, text[n..][i + 1..]) {
      assert text[n..][i + 1..] == text[n + i + 1..];
      assert ExpandChar(text[n + i]);
    }
  }

  // ---------------------------------------------------------------- the expansion

  /** Results were added; without internal separators they are these. */
  predicate Extends(before: seq<string>, after: seq<string>, results: seq<string>) {
    && |before| <= |after| && after[..|before|] == before && StripEach(after[|before|..]) == results
  }

  lemma ExtendsThen(a: seq<string>, b: seq<string>, c: seq<string>, x: seq<string>, y: seq<string>)
    requires Extends(a, b, x) && Extends(b, c, y)
    ensures Extends(a, c, x + y)
  {
    assert c[|a|..] == b[|a|..] + c[|b|..];
    StripEachConcat(b[|a|..], c[|b|..]);
    assert c[..|a|] == c[..|b|][..|a|];
  }

  lemma ExtendsOne(a: seq<string>, s: string)
    ensures Extends(a, a + [s], [Stripped(s)])
  {
    assert (a + [s])[|a|..] == [s];
    StrippedOne(s);
  }

  /** The text where the last variable was found. */
  predicate At(instr: string, idx: nat, stop: nat, front: seq<Piece>, last: Piece, rest: string) {
    && idx < stop <= |instr| && instr[..idx] == Print(front) && last.Var?
    && instr[idx] == (if last.single then VARIABLE_EXPAND_SINGLE else VARIABLE_EXPAND)
    && instr[idx + 1..stop] == last.name && instr[stop..] == rest
  }

  lemma PrefixSame(instr: string, text: string, tail: string, idx: nat)
    requires instr == text + tail && idx < |text|
    ensures text[idx] == instr[idx] && text[idx + 1..] == instr[idx + 1..|text|]
  {
  }

  /** Finding the last variable, its name and what follows it. */
  lemma Located(loc: Locale, instr: string, lastIdx: nat, idx: nat, left: seq<Piece>, tail: string)
    returns (front: seq<Piece>, last: Piece, lits: seq<Piece>)
    requires WellFormed(loc, left, tail) && instr == Print(left) + tail && lastIdx == |Print(left)|
    requires idx < lastIdx && ExpandChar(instr[idx]) && NoExpandChar(instr[idx + 1..lastIdx])
    ensures left == front + [last] + lits && Literal(lits) && PieceSound(loc, last)
    ensures At(instr, idx, idx + 1 + NameEnd(loc, instr[idx + 1..]), front, last, Print(lits) + tail)
    ensures EndsName(loc, Print(lits) + tail) && WellFormed(loc, front, PrintPiece(last) + (Print(lits) + tail))
  {
    hide WellFormed, Print, EndsName, NoExpandChar, ExpandChar, NameEnd, ValidVarNameChar, PieceSound, Literal;
    PrefixSame(instr, Print(left), tail, idx);
    front, last, lits := LocatedIn(loc, left, tail, idx);
    var e := if last.single then VARIABLE_EXPAND_SINGLE else VARIABLE_EXPAND;
    Associate([e], last.name, Print(lits));
    Parts(instr, Print(front), e, last.name, Print(lits), tail);
    NameEndOf(loc, last, Print(lits) + tail);
  }

  lemma NameEndOf(loc: Locale, last: Piece, rest: string)
    requires last.Var? && PieceSound(loc, last) && EndsName(loc, rest)
    ensures NameEnd(loc, last.name + rest) == |last.name| && last.name != ""
  {
    NameEndIs(loc, last.name, rest);
  }

  lemma LocatedIn(loc: Locale, left: seq<Piece>, tail: string, idx: nat) returns (front: seq<Piece>, last: Piece, lits: seq<Piece>)
    requires WellFormed(loc, left, tail)
    requires idx < |Print(left)| && ExpandChar(Print(left)[idx]) && NoExpandChar(Print(left)[idx + 1..])
    ensures left == front + [last] + lits && Literal(lits) && PieceSound(loc, last) && last.Var?
    ensures Print(left) == Print(front) + (PrintPiece(last) + Print(lits)) && idx == |Print(front)|
    ensures EndsName(loc, Print(lits) + tail) && WellFormed(loc, front, PrintPiece(last) + (Print(lits) + tail))
  {
    hide WellFormed, Print, EndsName;
    var found;
    found, front, last, lits := LastVariable(loc, left, tail);
    var text := Print(left);
    assert found by {
      assert text[idx] in text;
    }
    PrintSplit(front, last, lits);
    NameHasNoExpandChar(loc, last);
    var e := if last.single then VARIABLE_EXPAND_SINGLE else VARIABLE_EXPAND;
    Associate([e], last.name, Print(lits));
    LastExpandChar(text, Print(front), e, last.name + Print(lits), idx);
  }

  lemma Parts(instr: string, a: string, e: char, name: string, lits: string, tail: string)
    requires instr == a + ([e] + (name + lits)) + tail
    ensures var i := |a|;
            && instr[..i] == a && instr[i] == e && instr[i + 1..] == name + (lits + tail)
            && instr[i + 1..i + 1 + |name|] == name && instr[i + 1 + |name|..] == lits + tail
  {
    assert instr == a + ([e] + (name + (lits + tail)));
  }

  lemma NoVariable(loc: Locale, env: Environment, left: seq<Piece>, tail: string)
    requires WellFormed(loc, left, tail) && NoExpandChar(Print(left))
    ensures AppendEach(Meaning(env, left), Stripped(tail)) == [Stripped(Print(left) + tail)]
  {
    var found, front, last, lits := LastVariable(loc, left, tail);
    if found {
      HasExpandChar(front, last, lits);
    }
    LiteralMeaning(env, left);
    OneAppended(Stripped(Print(left)), Stripped(tail));
    StrippedConcat(Print(left), tail);
  }

  lemma HasExpandChar(front: seq<Piece>, last: Piece, lits: seq<Piece>)
    requires last.Var?
    ensures !NoExpandChar(Print(front + [last] + lits))
  {
    PrintSplit(front, last, lits);
    var text := Print(front) + (PrintPiece(last) + Print(lits));
    assert text[|Print(front)|] == PrintPiece(last)[0];
    assert PrintPiece(last)[0] in text;
  }

  lemma LiteralMeaning(env: Environment, left: seq<Piece>)
    requires Literal(left)
    ensures Meaning(env, left) == [Stripped(Print(left))]
  {
    MeaningOfLiterals(env, [], left);
    assert [] + left == left;
    OneAppended("", Stripped(Print(left)));
    assert "" + Stripped(Print(left)) == Stripped(Print(left));
  }

  /** One value in place of the variable. */
  lemma OneValue(m: seq<string>, sep: string, item: string, rest: string)
    requires Stripped(sep) == ""
    ensures AppendEach(m, Stripped(sep + item + rest)) == AppendEach(Product(m, [Stripped(item)]), Stripped(rest))
  {
    StrippedConcat(sep + item, rest);
    StrippedConcat(sep, item);
    assert "" + Stripped(item) == Stripped(item);
    ProductOne(m, Stripped(item));
    AppendEachTwice(m, Stripped(item), Stripped(rest));
  }

  lemma SeparatorStripped()
    ensures Stripped([INTERNAL_SEPARATOR]) == "" && Stripped("") == ""
  {
    assert [INTERNAL_SEPARATOR][1..] == "";
  }

  /** What is before the place of a variable, and the separator that keeps the two sides apart. */
  method Before(instr: string, idx: nat, dollar: char, emptyFirst: bool) returns (res: string, ghost sep: string)
    requires 0 < idx <= |instr| ==> !ExpandChar(instr[idx - 1])
    requires idx <= |instr| && ExpandChar(dollar)
    ensures res == instr[..idx] + sep
    ensures sep == if idx == 0 then "" else [INTERNAL_SEPARATOR]
  {
    res := instr[..idx];
    sep := "";
    assert instr[..idx] + "" == instr[..idx];
    if res != "" {
      if res[|res| - 1] != dollar {
        res := res + [INTERNAL_SEPARATOR];
        sep := [INTERNAL_SEPARATOR];
      } else if emptyFirst {
        res := res + [VARIABLE_EXPAND_EMPTY];
      }
    }
  }

  predicate PlainBefore(instr: string, idx: nat) {
    0 < idx <= |instr| ==> !ExpandChar(instr[idx - 1])
  }

  lemma FrontIsPlain(loc: Locale, instr: string, idx: nat, front: seq<Piece>, tail: string)
    requires idx <= |instr| && instr[..idx] == Print(front) && WellFormed(loc, front, tail)
    ensures PlainBefore(instr, idx) && (idx == 0 <==> front == [])
  {
    if front != [] {
      LastCharPlain(loc, front, tail);
    }
  }

  /** The text with a value in place of the variable is the text before it, with another tail. */
  lemma Substituted(loc: Locale, instr: string, idx: nat, front: seq<Piece>, tail: string, sep: string, item: string, rest: string)
    requires idx <= |instr| && instr[..idx] == Print(front) && WellFormed(loc, front, tail)
    requires sep == if idx == 0 then "" else [INTERNAL_SEPARATOR]
    ensures instr[..idx] + sep + item + rest == Print(front) + (sep + item + rest) && idx == |Print(front)|
    ensures WellFormed(loc, front, sep + item + rest)
    ensures Stripped(sep) == ""
  {
    SeparatorStripped();
    FrontIsPlain(loc, instr, idx, front, tail);
    Associate(instr[..idx] + sep, item, rest);
    Associate(instr[..idx], sep, item + rest);
    Associate(sep, item, rest);
    if idx > 0 {
      assert (sep + item + rest)[0] == INTERNAL_SEPARATOR;
      OtherTail(loc, front, tail, sep + item + rest);
    }
  }

  /** expand_variables, on the text whose part up to `lastIdx` is still to be expanded. */
  method ExpandVariables(loc: Locale, instr: string, out: Receiver, lastIdx: nat, env: Environment,
                         ghost left: seq<Piece>, ghost tail: string)
    requires WellFormed(loc, left, tail) && instr == Print(left) + tail && lastIdx == |Print(left)|
    modifies out
    ensures Extends(old(out.items), out.items, AppendEach(Meaning(env, left), Stripped(tail)))
    decreases lastIdx, 0
  {
    hide WellFormed, Print, Meaning, Extends, AppendEach, Stripped, NoExpandChar, ExpandChar, NameEnd;
    var found := FindExpandChar(instr, lastIdx);
    assert instr[..lastIdx] == Print(left);
    if found.None? {
      NoVariable(loc, env, left, tail);
      ExtendsOne(out.items, instr);
      out.Add(instr);
      return;
    }
    var idx := found.value;
    ghost var front, last, lits := Located(loc, instr, lastIdx, idx, left, tail);
    var stop := NameStop(loc, instr, idx + 1);
    MeaningAtLast(env, front, last, lits, tail);
    ExpandAt(loc, instr, out, idx, stop, env, front, last, Print(lits) + tail);
  }

  /** The rest of expand_variables: the variable at `idx`, its name up to `stop`. */
  method ExpandAt(loc: Locale, instr: string, out: Receiver, idx: nat, stop: nat, env: Environment,
                  ghost front: seq<Piece>, ghost last: Piece, ghost rest: string)
    requires At(instr, idx, stop, front, last, rest) && PieceSound(loc, last) && EndsName(loc, rest)
    requires WellFormed(loc, front, PrintPiece(last) + rest)
    modifies out
    ensures Extends(old(out.items), out.items,
                    AppendEach(Product(Meaning(env, front), MeaningOfPiece(env, last)), Stripped(rest)))
    decreases idx, 3
  {
    hide WellFormed, Print, Meaning, Extends, AppendEach, Stripped, Product, PieceSound, EndsName;
    var name := instr[idx + 1..stop];
    var isSingle := instr[idx] == VARIABLE_EXPAND_SINGLE;
    if name !in env {
      if !isSingle {
        NoValues(out.items, Meaning(env, front), rest);
      } else {
        ExpandMissing(loc, instr, out, idx, stop, env, front, last, rest);
      }
    } else if isSingle {
      ExpandJoined(loc, instr, out, idx, stop, env, front, last, rest);
    } else {
      ExpandValues(loc, instr, out, idx, stop, env, front, last, rest);
    }
  }

  lemma NoValues(items: seq<string>, m: seq<string>, rest: string)
    ensures Extends(items, items, AppendEach(Product(m, []), Stripped(rest)))
  {
    assert items[|items|..] == [];
  }

  /** A missing variable in quotes is the empty text. */
  method ExpandMissing(loc: Locale, instr: string, out: Receiver, idx: nat, stop: nat, env: Environment,
                       ghost front: seq<Piece>, ghost last: Piece, ghost rest: string)
    requires At(instr, idx, stop, front, last, rest) && EndsName(loc, rest) && WellFormed(loc, front, PrintPiece(last) + rest)
    requires last.single && last.name !in env
    modifies out
    ensures Extends(old(out.items), out.items,
                    AppendEach(Product(Meaning(env, front), MeaningOfPiece(env, last)), Stripped(rest)))
    decreases idx, 2
  {
    hide WellFormed, Print, Meaning, Extends, AppendEach, Stripped, Product, EndsName;
    FrontIsPlain(loc, instr, idx, front, PrintPiece(last) + rest);
    var res := instr[..idx];
    if res != "" && res[|res| - 1] == VARIABLE_EXPAND_SINGLE {
      res := res + [VARIABLE_EXPAND_EMPTY];
    }
    res := res + instr[stop..];
    OtherTail(loc, front, PrintPiece(last) + rest, rest);
    ProductUnit(Meaning(env, front));
    ExpandVariables(loc, res, out, idx, env, front, rest);
  }

  /** A variable in quotes is its values joined. */
  method ExpandJoined(loc: Locale, instr: string, out: Receiver, idx: nat, stop: nat, env: Environment,
                      ghost front: seq<Piece>, ghost last: Piece, ghost rest: string)
    requires At(instr, idx, stop, front, last, rest) && WellFormed(loc, front, PrintPiece(last) + rest)
    requires last.single && last.name in env
    modifies out
    ensures Extends(old(out.items), out.items,
                    AppendEach(Product(Meaning(env, front), MeaningOfPiece(env, last)), Stripped(rest)))
    decreases idx, 2
  {
    hide WellFormed, Print, Meaning, Extends, AppendEach, Stripped, Product;
    var v := env[instr[idx + 1..stop]];
    FrontIsPlain(loc, instr, idx, front, PrintPiece(last) + rest);
    var res;
    ghost var sep;
    res, sep := Before(instr, idx, VARIABLE_EXPAND_SINGLE, v.values == [] || v.values[0] == "");
    var joined := JoinStrings(v.values, v.delimiter);
    Substituted(loc, instr, idx, front, PrintPiece(last) + rest, sep, joined, rest);
    OneValue(Meaning(env, front), sep, joined, rest);
    ExpandVariables(loc, res + joined + instr[stop..], out, idx, env, front, sep + joined + rest);
  }

  /** An unquoted variable gives a text for each of its values, to be expanded further to the left. */
  method ExpandValues(loc: Locale, instr: string, out: Receiver, idx: nat, stop: nat, env: Environment,
                      ghost front: seq<Piece>, ghost last: Piece, ghost rest: string)
    requires At(instr, idx, stop, front, last, rest) && WellFormed(loc, front, PrintPiece(last) + rest)
    requires !last.single && last.name in env
    modifies out
    ensures Extends(old(out.items), out.items,
                    AppendEach(Product(Meaning(env, front), MeaningOfPiece(env, last)), Stripped(rest)))
    decreases idx, 2
  {
    hide WellFormed, Print, Meaning, Extends, AppendEach, Stripped, Product;
    var values := env[instr[idx + 1..stop]].values;
    ghost var m := Meaning(env, front);
    NoValues(out.items, m, rest);
    assert values[..0] == [] && StripEach([]) == [];
    for k := 0 to |values|
      invariant Extends(old(out.items), out.items, AppendEach(Product(m, StripEach(values[..k])), Stripped(rest)))
    {
      ghost var before := out.items;
      ExpandValue(loc, instr, out, idx, stop, env, values[k], front, last, rest);
      OneMoreValue(old(out.items), before, out.items, m, values, k, rest);
    }
    assert values[..|values|] == values;
  }

  lemma OneMoreValue(a: seq<string>, b: seq<string>, c: seq<string>, m: seq<string>, values: seq<string>, k: nat, rest: string)
    requires k < |values| && Extends(a, b, AppendEach(Product(m, StripEach(values[..k])), Stripped(rest)))
    requires Extends(b, c, AppendEach(Product(m, [Stripped(values[k])]), Stripped(rest)))
    ensures Extends(a, c, AppendEach(Product(m, StripEach(values[..k + 1])), Stripped(rest)))
  {
    hide Extends, Product, AppendEach, Stripped, StripEach;
    assert values[..k + 1] == values[..k] + [values[k]];
    StripEachConcat(values[..k], [values[k]]);
    StrippedOne(values[k]);
    ProductConcat(m, StripEach(values[..k]), [Stripped(values[k])]);
    AppendEachConcat(Product(m, StripEach(values[..k])), Product(m, [Stripped(values[k])]), Stripped(rest));
    ExtendsThen(a, b, c, AppendEach(Product(m, StripEach(values[..k])), Stripped(rest)),
                AppendEach(Product(m, [Stripped(values[k])]), Stripped(rest)));
  }

  /** One value in place of the variable: the result if nothing else is left, or expanded further. */
  method ExpandValue(loc: Locale, instr: string, out: Receiver, idx: nat, stop: nat, env: Environment, item: string,
                     ghost front: seq<Piece>, ghost last: Piece, ghost rest: string)
    requires At(instr, idx, stop, front, last, rest) && WellFormed(loc, front, PrintPiece(last) + rest) && !last.single
    modifies out
    ensures Extends(old(out.items), out.items, AppendEach(Product(Meaning(env, front), [Stripped(item)]), Stripped(rest)))
    decreases idx, 1
  {
    hide WellFormed, Print, Meaning, Extends, AppendEach, Stripped, Product;
    FrontIsPlain(loc, instr, idx, front, PrintPiece(last) + rest);
    if idx == 0 && stop == |instr| {
      OnlyValue(env, item, rest);
      ExtendsOne(out.items, item);
      out.Add(item);
    } else {
      var newIn;
      ghost var sep;
      newIn, sep := Before(instr, idx, VARIABLE_EXPAND, item == "");
      Substituted(loc, instr, idx, front, PrintPiece(last) + rest, sep, item, rest);
      OneValue(Meaning(env, front), sep, item, rest);
      ExpandVariables(loc, newIn + item + instr[stop..], out, idx, env, front, sep + item + rest);
    }
  }

  lemma OnlyValue(env: Environment, item: string, rest: string)
    requires rest == ""
    ensures AppendEach(Product(Meaning(env, []), [Stripped(item)]), Stripped(rest)) == [Stripped(item)]
  {
    ProductUnit([Stripped(item)]);
    AppendNothing([Stripped(item)]);
  }

  /** Expanding a whole text: without internal separators, the results are the product of the values of its
      variables and its other characters. A value never becomes part of the name of a variable to its left. */
  method Expand(loc: Locale, text: string, env: Environment, ghost pieces: seq<Piece>) returns (results: seq<string>)
    requires WellFormed(loc, pieces, "") && text == Print(pieces)
    ensures StripEach(results) == Meaning(env, pieces)
  {
    var out := new Receiver();
    assert text + "" == text;
    ExpandVariables(loc, text, out, |text|, env, pieces, "");
    AppendNothing(Meaning(env, pieces));
    assert out.items[0..] == out.items;
    results := out.items;
  }
}
