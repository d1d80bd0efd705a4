module BraceWords {
  /**
   Words with alternations, as brace expansion (src/expand.rs:797-919) reads them: how they are written, and
   their meaning, which is defined on their structure.
   */

  import opened Common
  import opened Wide
  import opened Products

  /** A word: characters and alternations. */
  datatype Word =
    | Nil
    | Lit(c: char, rest: Word)
    | Alt(items: Items, rest: Word)

  datatype Items = Last(item: Word) | More(item: Word, others: Items)

  function Print(w: Word): string {
    match w
    case Nil => ""
    case Lit(c, rest) => [c] + Print(rest)
    case Alt(items, rest) => [BRACE_BEGIN] + PrintItems(items) + [BRACE_END] + Print(rest)
  }

  function PrintItems(items: Items): string {
    match items
    case Last(item) => Print(item)
    case More(item, others) => Print(item) + [BRACE_SEP] + PrintItems(others)
  }

  /** Separators are only characters outside of braces. */
  predicate WellFormed(w: Word, nested: bool) {
    match w
    case Nil => true
    case Lit(c, rest) => c != BRACE_BEGIN && c != BRACE_END && (nested ==> c != BRACE_SEP) && WellFormed(rest, nested)
    case Alt(items, rest) => WellFormedItems(items) && WellFormed(rest, nested)
  }

  predicate WellFormedItems(items: Items) {
    WellFormed(items.item, true) && (items.More? ==> WellFormedItems(items.others))
  }

  // ---------------------------------------------------------------- the meaning

  function Concat(a: Word, b: Word): Word {
    match a
    case Nil => b
    case Lit(c, rest) => Lit(c, Concat(rest, b))
    case Alt(items, rest) => Alt(items, Concat(rest, b))
  }

  predicate Blank(c: char) {
    c == BRACE_SPACE || c == '\0'
  }

  function Spaced(c: char): char {
    if c == BRACE_SPACE then ' ' else c
  }

  function TrimStartWord(w: Word): Word {
    if w.Lit? && Blank(w.c) then TrimStartWord(w.rest) else w
  }

  function TrimEndWord(w: Word): Word {
    match w
    case Nil => Nil
    case Lit(c, rest) => if TrimEndWord(rest).Nil? && Blank(c) then Nil else Lit(c, TrimEndWord(rest))
    case Alt(items, rest) => Alt(items, TrimEndWord(rest))
  }

  function SpacedWord(w: Word): Word {
    match w
    case Nil => Nil
    case Lit(c, rest) => Lit(Spaced(c), SpacedWord(rest))
    case Alt(items, rest) => Alt(SpacedItems(items), SpacedWord(rest))
  }

  function SpacedItems(items: Items): Items {
    match items
    case Last(item) => Last(SpacedWord(item))
    case More(item, others) => More(SpacedWord(item), SpacedItems(others))
  }

  /** An item as it is substituted: blanks at its ends are dropped, those inside are spaces. */
  function Clean(w: Word): Word {
    SpacedWord(TrimStartWord(TrimEndWord(w)))
  }

  function Size(w: Word): nat {
    match w
    case Nil => 0
    case Lit(_, rest) => 1 + Size(rest)
    case Alt(items, rest) => 1 + SizeItems(items) + Size(rest)
  }

  function SizeItems(items: Items): nat {
    match items
    case Last(item) => 1 + Size(item)
    case More(item, others) => 1 + Size(item) + SizeItems(others)
  }

  lemma {:induction false} CleanSize(w: Word)
    ensures Size(Clean(w)) <= Size(w)
  {
    TrimEndSize(w);
    TrimStartSize(TrimEndWord(w));
    SpacedSize(TrimStartWord(TrimEndWord(w)));
  }

  lemma {:induction false} TrimStartSize(w: Word)
    ensures Size(TrimStartWord(w)) <= Size(w)
  {
    if w.Lit? && Blank(w.c) {
      TrimStartSize(w.rest);
    }
  }

  lemma {:induction false} TrimEndSize(w: Word)
    ensures Size(TrimEndWord(w)) <= Size(w)
  {
    if !w.Nil? {
      TrimEndSize(w.rest);
    }
  }

  lemma {:induction false} SpacedSize(w: Word)
    ensures Size(SpacedWord(w)) == Size(w)
  {
    match w
    case Nil =>
    case Lit(_, rest) => SpacedSize(rest);
    case Alt(items, rest) => SpacedItemsSize(items); SpacedSize(rest);
  }

  lemma {:induction false} SpacedItemsSize(items: Items)
    ensures SizeItems(SpacedItems(items)) == SizeItems(items)
  {
    SpacedSize(items.item);
    if items.More? {
      SpacedItemsSize(items.others);
    }
  }

  /** What a word stands for: an alternation for the texts of its items one after the other, a
      concatenation for the product. */
  function Meaning(w: Word): seq<string>
    decreases Size(w), 1
  {
    match w
    case Nil => [""]
    case Lit(c, rest) => Product([[c]], Meaning(rest))
    case Alt(items, rest) => Product(MeaningOfItems(items), Meaning(rest))
  }

  function MeaningOfItems(items: Items): seq<string>
    decreases SizeItems(items), 0
  {
    CleanSize(items.item);
    match items
    case Last(item) => Meaning(Clean(item))
    case More(item, others) => Meaning(Clean(item)) + MeaningOfItems(others)
  }

  // ---------------------------------------------------------------- laws of the meaning

  /** The meaning is compositional. */
  lemma {:induction false} MeaningConcat(a: Word, b: Word)
    ensures Meaning(Concat(a, b)) == Product(Meaning(a), Meaning(b))
  {
    match a
    case Nil => ProductUnit(Meaning(b));
    case Lit(c, rest) =>
      MeaningConcat(rest, b);
      ProductAssoc([[c]], Meaning(rest), Meaning(b));
    case Alt(items, rest) =>
      MeaningConcat(rest, b);
      ProductAssoc(MeaningOfItems(items), Meaning(rest), Meaning(b));
  }

  predicate Literal(w: Word) {
    match w
    case Nil => true
    case Lit(_, rest) => Literal(rest)
    case Alt(_, _) => false
  }

  lemma {:induction false} LiteralMeaning(w: Word)
    requires Literal(w)
    ensures Meaning(w) == [Print(w)]
  {
    if w.Lit? {
      LiteralMeaning(w.rest);
      ProductOne([[w.c]], Print(w.rest));
      OneAppended([w.c], Print(w.rest));
    }
  }

  /** Expanding the items one after the other in place of the pair, on the last pair of a word. */
  lemma SubstituteFirst(u: Word, items: Items, v: Word)
    requires items.More? && Literal(v)
    ensures Meaning(Concat(u, Alt(items, v)))
            == Meaning(Concat(u, Concat(Clean(items.item), v))) + Meaning(Concat(u, Alt(items.others, v)))
  {
    var first, others := Meaning(Clean(items.item)), MeaningOfItems(items.others);
    var s := Print(v);
    LiteralMeaning(v);
    MeaningConcat(u, Alt(items, v));
    MeaningConcat(u, Alt(items.others, v));
    MeaningConcat(u, Concat(Clean(items.item), v));
    MeaningConcat(Clean(items.item), v);
    ProductOne(first + others, s);
    ProductOne(first, s);
    ProductOne(others, s);
    AppendEachConcat(first, others, s);
    ProductConcat(Meaning(u), AppendEach(first, s), AppendEach(others, s));
  }

  lemma SubstituteLast(u: Word, items: Items, v: Word)
    requires items.Last?
    ensures Meaning(Concat(u, Alt(items, v))) == Meaning(Concat(u, Concat(Clean(items.item), v)))
  {
    MeaningConcat(u, Alt(items, v));
    MeaningConcat(u, Concat(Clean(items.item), v));
    MeaningConcat(Clean(items.item), v);
  }

  // ---------------------------------------------------------------- texts

  function TrimEnd(s: string): string {
    if s != "" && Blank(s[|s| - 1]) then TrimEnd(s[..|s| - 1]) else s
  }

  function TrimStart(s: string): string {
    if s != "" && Blank(s[0]) then TrimStart(s[1..]) else s
  }

  function SpacedString(s: string): string {
    if s == "" then "" else [Spaced(s[0])] + SpacedString(s[1..])
  }

  function CleanString(s: string): string {
    SpacedString(TrimStart(TrimEnd(s)))
  }

  function Depth(s: string): int {
    if s == "" then 0
    else Depth(s[..|s| - 1]) + (if s[|s| - 1] == BRACE_BEGIN then 1 else if s[|s| - 1] == BRACE_END then -1 else 0)
  }

  /** No prefix closes more than was opened, and nothing is left open. */
  ghost predicate Balanced(s: string) {
    Depth(s) == 0 && forall i :: 0 <= i <= |s| ==> Depth(s[..i]) >= 0
  }

  /** Inside an item no separator and no closing brace is at depth 0. */
  ghost predicate Sealed(s: string, nested: bool) {
    && Balanced(s)
    && forall i :: 0 <= i < |s| && Depth(s[..i]) == 0 ==> s[i] != BRACE_END && (nested ==> s[i] != BRACE_SEP)
  }

  function Begins(s: string): nat {
    if s == "" then 0 else (if s[0] == BRACE_BEGIN then 1 else 0) + Begins(s[1..])
  }
}
