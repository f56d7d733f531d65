/** Facts about sequences that several components share, and sorting by any total order. */
module Sequences {
  lemma Associative<T>(a: seq<T>, b: seq<T>, c: seq<T>)
    ensures a + b + c == a + (b + c)
  {
  }

  lemma Whole<T>(s: seq<T>)
    ensures s[..0] == [] && s[..|s|] == s
  {
  }

  lemma HeadAndTail<T>(s: seq<T>)
    requires s != []
    ensures s == [s[0]] + s[1..]
  {
  }

  lemma TakeMore<T>(s: seq<T>, k: nat)
    requires k < |s|
    ensures s[..k + 1] == s[..k] + [s[k]]
  {
  }

  /** Cutting behind the head is cutting the tail. */
  lemma CutTail<T>(s: seq<T>, k: nat)
    requires 0 < k <= |s|
    ensures s[..k] == [s[0]] + s[1..][..k - 1] && s[k..] == s[1..][k - 1..]
  {
  }

  lemma CutAt<T>(s: seq<T>, i: nat)
    requires i <= |s|
    ensures s == s[..i] + s[i..]
  {
  }

  lemma CutOut<T>(s: seq<T>, i: nat, j: nat)
    requires i <= j < |s|
    ensures s[..j + 1] == s[..i] + (s[i..j] + [s[j]])
  {
    var r := s[..i] + (s[i..j] + [s[j]]);
    assert |r| == j + 1;
    forall k | 0 <= k < j + 1 ensures r[k] == s[k] {
    }
  }

  function Concat<T>(chunks: seq<seq<T>>): seq<T> {
    if chunks == [] then [] else Concat(chunks[..|chunks| - 1]) + chunks[|chunks| - 1]
  }

  // ---- sorting ----

  ghost predicate TotalOrder<T(!new)>(atMost: (T, T) -> bool) {
    && (forall x :: atMost(x, x))
    && (forall x, y :: atMost(x, y) && atMost(y, x) ==> x == y)
    && (forall x, y, z :: atMost(x, y) && atMost(y, z) ==> atMost(x, z))
    && (forall x, y :: atMost(x, y) || atMost(y, x))
  }

  ghost predicate Ascending<T>(atMost: (T, T) -> bool, s: seq<T>) {
    forall i, j :: 0 <= i < j < |s| ==> atMost(s[i], s[j])
  }

  /** Puts an element before the first one that it is at most. */
  function Place<T>(atMost: (T, T) -> bool, s: seq<T>, x: T): seq<T> {
    if s == [] then [x] else if atMost(x, s[0]) then [x] + s else [s[0]] + Place(atMost, s[1..], x)
  }

  function Sort<T>(atMost: (T, T) -> bool, s: seq<T>): seq<T> {
    if s == [] then [] else Place(atMost, Sort(atMost, s[1..]), s[0])
  }

  lemma {:induction false} PlaceMultiset<T>(atMost: (T, T) -> bool, s: seq<T>, x: T)
    ensures multiset(Place(atMost, s, x)) == multiset(s) + multiset{x}
  {
    if s != [] {
      HeadAndTail(s);
      if !atMost(x, s[0]) { PlaceMultiset(atMost, s[1..], x); }
    }
  }

  lemma AscendingCons<T>(atMost: (T, T) -> bool, x: T, s: seq<T>)
    requires Ascending(atMost, s) && forall y :: y in multiset(s) ==> atMost(x, y)
    ensures Ascending(atMost, [x] + s)
  {
    var r := [x] + s;
    forall i, j | 0 <= i < j < |r| ensures atMost(r[i], r[j]) {
      assert r[j] == s[j - 1];
      if i > 0 { assert r[i] == s[i - 1]; }
    }
  }

  lemma AscendingHead<T(!new)>(atMost: (T, T) -> bool, s: seq<T>)
    requires TotalOrder(atMost) && Ascending(atMost, s) && s != []
    ensures Ascending(atMost, s[1..]) && forall y :: y in multiset(s) ==> atMost(s[0], y)
  {
    forall y | y in multiset(s) ensures atMost(s[0], y) {
      var i :| 0 <= i < |s| && s[i] == y;
    }
  }

  lemma {:induction false} PlaceAscending<T(!new)>(atMost: (T, T) -> bool, s: seq<T>, x: T)
    requires TotalOrder(atMost) && Ascending(atMost, s)
    ensures Ascending(atMost, Place(atMost, s, x))
  {
    if s != [] {
      AscendingHead(atMost, s);
      if atMost(x, s[0]) {
        AscendingCons(atMost, x, s);
      } else {
        PlaceAscending(atMost, s[1..], x);
        PlaceMultiset(atMost, s[1..], x);
        HeadAndTail(s);
        AscendingCons(atMost, s[0], Place(atMost, s[1..], x));
      }
    }
  }

  lemma {:induction false} SortIsSorted<T(!new)>(atMost: (T, T) -> bool, s: seq<T>)
    requires TotalOrder(atMost)
    ensures Ascending(atMost, Sort(atMost, s)) && multiset(Sort(atMost, s)) == multiset(s)
  {
    if s != [] {
      SortIsSorted(atMost, s[1..]);
      PlaceAscending(atMost, Sort(atMost, s[1..]), s[0]);
      PlaceMultiset(atMost, Sort(atMost, s[1..]), s[0]);
      HeadAndTail(s);
    }
  }

  lemma SameHead<T(!new)>(atMost: (T, T) -> bool, a: seq<T>, b: seq<T>)
    requires TotalOrder(atMost) && Ascending(atMost, a) && Ascending(atMost, b)
    requires multiset(a) == multiset(b) && a != [] && b != []
    ensures a[0] == b[0]
  {
    AscendingHead(atMost, a);
    AscendingHead(atMost, b);
    assert a[0] in multiset(a) && b[0] in multiset(b);
  }

  /** A multiset has one ascending arrangement, whatever the algorithm that finds it. */
  lemma {:induction false} AscendingUnique<T(!new)>(atMost: (T, T) -> bool, a: seq<T>, b: seq<T>)
    requires TotalOrder(atMost) && Ascending(atMost, a) && Ascending(atMost, b) && multiset(a) == multiset(b)
    ensures a == b
  {
    if a == [] {
      assert |multiset(b)| == 0;
    } else {
      assert |multiset(b)| == |a|;
      SameHead(atMost, a, b);
      HeadAndTail(a);
      HeadAndTail(b);
      assert multiset(a[1..]) == multiset(a) - multiset{a[0]};
      assert multiset(b[1..]) == multiset(b) - multiset{b[0]};
      AscendingHead(atMost, a);
      AscendingHead(atMost, b);
      AscendingUnique(atMost, a[1..], b[1..]);
    }
  }

  /** Sorting forgets the order and nothing else. */
  lemma SortForgetsOrder<T(!new)>(atMost: (T, T) -> bool, a: seq<T>, b: seq<T>)
    requires TotalOrder(atMost)
    ensures Sort(atMost, a) == Sort(atMost, b) <==> multiset(a) == multiset(b)
  {
    SortIsSorted(atMost, a);
    SortIsSorted(atMost, b);
    if multiset(a) == multiset(b) { AscendingUnique(atMost, Sort(atMost, a), Sort(atMost, b)); }
  }
}
