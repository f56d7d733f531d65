/** The lexicographic order on texts, character by character. */
module TextOrder {
  import opened Sequences

  predicate TextLess(a: string, b: string) {
    b != [] && (a == [] || a[0] < b[0] || (a[0] == b[0] && TextLess(a[1..], b[1..])))
  }

  lemma {:induction false} TextTotal(a: string, b: string)
    ensures TextLess(a, b) || TextLess(b, a) || a == b
    ensures !(TextLess(a, b) && TextLess(b, a))
    ensures TextLess(a, b) ==> a != b
    decreases |a|
  {
    if a != [] && b != [] && a[0] == b[0] {
      TextTotal(a[1..], b[1..]);
      assert a == [a[0]] + a[1..] && b == [b[0]] + b[1..];
    }
  }

  lemma {:induction false} TextTransitive(a: string, b: string, c: string)
    requires TextLess(a, b) && TextLess(b, c)
    ensures TextLess(a, c)
    decreases |a|
  {
    if a != [] && a[0] == b[0] == c[0] {
      TextTransitive(a[1..], b[1..], c[1..]);
    }
  }

  predicate TextAtMost(a: string, b: string) {
    a == b || TextLess(a, b)
  }

  lemma TextOrderIsTotal()
    ensures TotalOrder(TextAtMost)
  {
    forall x, y ensures TextAtMost(x, y) || TextAtMost(y, x) { TextTotal(x, y); }
    forall x, y | TextAtMost(x, y) && TextAtMost(y, x) ensures x == y { TextTotal(x, y); }
    forall x, y, z | TextAtMost(x, y) && TextAtMost(y, z) ensures TextAtMost(x, z) {
      if x != y && y != z { TextTransitive(x, y, z); }
    }
  }

  /** What sorting texts yields. */
  function SortTexts(s: seq<string>): seq<string> {
    Sort(TextAtMost, s)
  }

  lemma SortTextsIsSorted(s: seq<string>)
    ensures Ascending(TextAtMost, SortTexts(s)) && multiset(SortTexts(s)) == multiset(s)
  {
    TextOrderIsTotal();
    SortIsSorted(TextAtMost, s);
  }

  /** Sorted texts agree exactly when the texts agree as multisets. */
  lemma SortTextsForgetsOrder(a: seq<string>, b: seq<string>)
    ensures SortTexts(a) == SortTexts(b) <==> multiset(a) == multiset(b)
  {
    TextOrderIsTotal();
    SortForgetsOrder(TextAtMost, a, b);
  }
}
