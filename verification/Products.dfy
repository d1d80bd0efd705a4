module Products {
  /** Products of lists of texts: what expansions that multiply results amount to; and the receiver of results. */

  function AppendEach(texts: seq<string>, s: string): (r: seq<string>)
    ensures |r| == |texts|
  {
    if texts == [] then [] else [texts[0] + s] + AppendEach(texts[1..], s)
  }

  /** All texts of the left, each followed by a text of the right, the right one varying slowest. */
  function Product(left: seq<string>, right: seq<string>): seq<string> {
    if right == [] then [] else AppendEach(left, right[0]) + Product(left, right[1..])
  }

  lemma {:induction false} AppendEachConcat(a: seq<string>, b: seq<string>, s: string)
    ensures AppendEach(a + b, s) == AppendEach(a, s) + AppendEach(b, s)
  {
    if a == [] {
      assert a + b == b;
    } else {
      assert (a + b)[1..] == a[1..] + b;
      AppendEachConcat(a[1..], b, s);
    }
  }

  lemma {:induction false} AppendEachTwice(a: seq<string>, s: string, t: string)
    ensures AppendEach(AppendEach(a, s), t) == AppendEach(a, s + t)
  {
    if a != [] {
      AppendEachTwice(a[1..], s, t);
      assert (a[0] + s) + t == a[0] + (s + t);
      assert AppendEach(a, s)[1..] == AppendEach(a[1..], s);
    }
  }

  lemma {:induction false} ProductConcat(a: seq<string>, b: seq<string>, c: seq<string>)
    ensures Product(a, b + c) == Product(a, b) + Product(a, c)
  {
    if b == [] {
      assert b + c == c;
    } else {
      assert (b + c)[1..] == b[1..] + c;
      ProductConcat(a, b[1..], c);
    }
  }

  lemma {:induction false} ProductOfAppended(a: seq<string>, b: seq<string>, s: string)
    ensures Product(a, AppendEach(b, s)) == AppendEach(Product(a, b), s)
  {
    if b != [] {
      AppendEachTwice(a, b[0], s);
      AppendEachConcat(AppendEach(a, b[0]), Product(a, b[1..]), s);
      assert AppendEach(b, s)[1..] == AppendEach(b[1..], s);
      ProductOfAppended(a, b[1..], s);
    }
  }

  lemma {:induction false} ProductAssoc(a: seq<string>, b: seq<string>, c: seq<string>)
    ensures Product(Product(a, b), c) == Product(a, Product(b, c))
  {
    if c != [] {
      ProductAssoc(a, b, c[1..]);
      ProductConcat(a, AppendEach(b, c[0]), Product(b, c[1..]));
      ProductOfAppended(a, b, c[0]);
    }
  }

  lemma {:induction false} ProductUnit(a: seq<string>)
    ensures Product([""], a) == a
    ensures Product(a, [""]) == a
  {
    AppendNothing(a);
    assert [""][1..] == [];
    if a != [] {
      ProductUnit(a[1..]);
      AppendNothing([""]);
      OneAppended("", a[0]);
      assert "" + a[0] == a[0] && [a[0]] + a[1..] == a;
    }
  }

  lemma OneAppended(a: string, s: string)
    ensures AppendEach([a], s) == [a + s]
  {
    assert [a][1..] == [];
  }

  lemma {:induction false} AppendNothing(a: seq<string>)
    ensures AppendEach(a, "") == a
  {
    if a != [] {
      AppendNothing(a[1..]);
      assert a[0] + "" == a[0];
    }
  }

  lemma ProductOne(a: seq<string>, s: string)
    ensures Product(a, [s]) == AppendEach(a, s)
  {
    assert [s][1..] == [];
  }

  /** CompletionReceiver, without its limit. */
  class Receiver {
    var items: seq<string>

    constructor ()
      ensures items == []
    {
      items := [];
    }

    method Add(s: string)
      modifies this
      ensures items == old(items) + [s]
    {
      items := items + [s];
    }
  }
}
