/** Kahn's topological sort with a min-heap on the node index. */
module Kahn {
  import opened Digraph

  /** v can be emitted next: it is new and all its predecessors are out already. */
  ghost predicate Available(succ: Adjacency, emitted: seq<nat>, v: nat) {
    && v < |succ|
    && v !in emitted
    && forall u: nat :: Edge(succ, u, v) ==> u in emitted
  }

  ghost predicate LeastAvailable(succ: Adjacency, emitted: seq<nat>, v: nat) {
    && Available(succ, emitted, v)
    && forall w: nat :: Available(succ, emitted, w) ==> v <= w
  }

  /** Each emitted node was the least one available at its turn. */
  ghost predicate Greedy(succ: Adjacency, order: seq<nat>) {
    forall k :: 0 <= k < |order| ==> LeastAvailable(succ, order[..k], order[k])
  }

  /** The complete deterministic order. */
  ghost predicate KahnOrder(succ: Adjacency, order: seq<nat>) {
    Greedy(succ, order) && |order| == |succ|
  }

  predicate Distinct<T(==)>(s: seq<T>) {
    forall i, j :: 0 <= i < j < |s| ==> s[i] != s[j]
  }

  lemma GreedyIsDistinct(succ: Adjacency, order: seq<nat>)
    requires Greedy(succ, order)
    ensures Distinct(order)
    ensures forall k :: 0 <= k < |order| ==> order[k] < |succ|
  {
    forall i, j | 0 <= i < j < |order| ensures order[i] != order[j] {
      assert LeastAvailable(succ, order[..j], order[j]);
      assert order[..j][i] == order[i];
    }
  }

  function Prefix(n: nat): (r: set<nat>)
    ensures |r| == n
    ensures forall v: nat :: v in r <==> v < n
  {
    if n == 0 then {} else Prefix(n - 1) + {n - 1}
  }

  lemma {:induction false} DistinctCard<T>(s: seq<T>)
    requires Distinct(s)
    ensures |set x | x in s| == |s|
    decreases |s|
  {
    var elems := set x | x in s;
    if s == [] {
      assert elems == {};
    } else {
      var front, last := s[..|s| - 1], s[|s| - 1];
      DistinctCard(front);
      assert elems == (set x | x in front) + {last};
      assert last !in front;
    }
  }

  lemma {:induction false} DistinctMultiplicity<T>(s: seq<T>, w: T)
    requires Distinct(s)
    ensures multiset(s)[w] == if w in s then 1 else 0
  {
    if s != [] {
      var n := |s| - 1;
      assert s == s[..n] + [s[n]];
      DistinctMultiplicity(s[..n], w);
    }
  }

  lemma SubsetOfEqualSize(a: set<nat>, b: set<nat>)
    requires a <= b && |a| == |b|
    ensures a == b
  {
    assert b == a + (b - a);
    assert |b - a| == 0;
    assert b - a == {};
  }

  /** A complete greedy order lists every node. */
  lemma KahnOrderCovers(succ: Adjacency, order: seq<nat>)
    requires KahnOrder(succ, order)
    ensures Distinct(order)
    ensures forall v: nat :: v in order <==> v < |succ|
  {
    GreedyIsDistinct(succ, order);
    DistinctCard(order);
    SubsetOfEqualSize((set x: nat | x in order), Prefix(|succ|));
    forall v: nat ensures v in order <==> v < |succ| {
      assert v in (set x: nat | x in order) <==> v in Prefix(|succ|);
    }
  }

  function PositionOf(order: seq<nat>, v: nat): (k: nat)
    requires v in order
    ensures k < |order| && order[k] == v
  {
    if order[0] == v then 0 else 1 + PositionOf(order[1..], v)
  }

  /** Positions in the order grow along edges: the order respects every dependency. */
  lemma KahnOrderRanks(succ: Adjacency, order: seq<nat>) returns (rank: seq<nat>)
    requires InRange(succ) && KahnOrder(succ, order)
    ensures Ranking(succ, rank)
    ensures forall v: nat :: v < |succ| ==> rank[v] < |order| && order[rank[v]] == v
  {
    KahnOrderCovers(succ, order);
    rank := seq(|succ|, v requires 0 <= v < |succ| => PositionOf(order, v));
    forall u: nat, v: nat | Edge(succ, u, v) ensures v < |succ| && rank[u] < rank[v] {
      var k := rank[v];
      assert LeastAvailable(succ, order[..k], order[k]);
      assert u in order[..k];
      var j :| 0 <= j < k && order[j] == u;
      assert rank[u] == j;
    }
  }

  lemma KahnOrderAcyclic(succ: Adjacency, order: seq<nat>)
    requires InRange(succ) && KahnOrder(succ, order)
    ensures Acyclic(succ)
  {
    var rank := KahnOrderRanks(succ, order);
    RankingIsAcyclic(succ, rank);
  }

  ghost predicate SameEdges(a: Adjacency, b: Adjacency) {
    |a| == |b| && forall u: nat, v: nat :: Edge(a, u, v) <==> Edge(b, u, v)
  }

  lemma {:induction false} GreedyPrefixUnique(a: Adjacency, b: Adjacency, s: seq<nat>, t: seq<nat>, k: nat)
    requires SameEdges(a, b) && Greedy(a, s) && Greedy(b, t)
    requires k <= |s| && k <= |t|
    ensures s[..k] == t[..k]
    decreases k
  {
    if k > 0 {
      GreedyPrefixUnique(a, b, s, t, k - 1);
      var done := s[..k - 1];
      assert LeastAvailable(a, done, s[k - 1]) && LeastAvailable(b, done, t[k - 1]);
      assert Available(b, done, s[k - 1]) && Available(a, done, t[k - 1]);
      assert s[..k] == done + [s[k - 1]] && t[..k] == done + [t[k - 1]];
    }
  }

  /** The order depends on the node list and the edge set only, not on how the edges were listed. */
  lemma KahnOrderUnique(a: Adjacency, b: Adjacency, s: seq<nat>, t: seq<nat>)
    requires SameEdges(a, b) && KahnOrder(a, s) && KahnOrder(b, t)
    ensures s == t
  {
    GreedyPrefixUnique(a, b, s, t, |s|);
  }

  /** pred is succ read backwards, without repeated entries. */
  ghost predicate Mirrored(succ: Adjacency, pred: Adjacency) {
    && |succ| == |pred|
    && (forall u: nat, v: nat :: Edge(succ, u, v) <==> Edge(pred, v, u))
    && (forall u: nat :: u < |succ| ==> Distinct(succ[u]))
    && (forall v: nat :: v < |pred| ==> Distinct(pred[v]))
  }

  lemma MirroredInRange(succ: Adjacency, pred: Adjacency)
    requires Mirrored(succ, pred)
    ensures InRange(succ)
  {
    forall u: nat, v: nat | Edge(succ, u, v) ensures v < |succ| {
      assert Edge(pred, v, u);
    }
  }

  /** Predecessors of v that are still to be emitted. */
  ghost function Waiting(pred: Adjacency, emitted: seq<nat>, v: nat): set<nat>
    requires v < |pred|
  {
    set u: nat | u in pred[v] && u !in emitted
  }

  lemma WaitingAfterEmit(pred: Adjacency, emitted: seq<nat>, node: nat, v: nat)
    requires v < |pred| && node !in emitted
    ensures Waiting(pred, emitted + [node], v) == Waiting(pred, emitted, v) - {node}
    ensures |Waiting(pred, emitted + [node], v)|
         == |Waiting(pred, emitted, v)| - (if node in pred[v] then 1 else 0)
  {
    assert Waiting(pred, emitted + [node], v) == Waiting(pred, emitted, v) - {node};
    if node !in pred[v] {
      assert Waiting(pred, emitted, v) - {node} == Waiting(pred, emitted, v);
    }
  }

  lemma WaitingAtStart(pred: Adjacency, v: nat)
    requires v < |pred| && Distinct(pred[v])
    ensures |Waiting(pred, [], v)| == |pred[v]|
  {
    DistinctCard(pred[v]);
    assert Waiting(pred, [], v) == set u: nat | u in pred[v];
  }

  lemma {:induction false} LeastElement(s: set<nat>) returns (m: nat)
    requires s != {}
    ensures m in s && forall x :: x in s ==> m <= x
    decreases |s|
  {
    var x :| x in s;
    if s == {x} {
      m := x;
    } else {
      var rest := s - {x};
      assert |rest| < |s|;
      assert s == {x} + rest;
      var m' := LeastElement(rest);
      m := if m' < x then m' else x;
      assert forall y :: y in s ==> y == x || y in rest;
    }
  }

  lemma {:induction false} LeastRanked(s: set<nat>, rank: seq<nat>) returns (m: nat)
    requires s != {} && forall x :: x in s ==> x < |rank|
    ensures m in s && forall x :: x in s ==> rank[m] <= rank[x]
    decreases |s|
  {
    var x :| x in s;
    if s == {x} {
      m := x;
    } else {
      var rest := s - {x};
      assert |rest| < |s|;
      assert s == {x} + rest;
      var m' := LeastRanked(rest, rank);
      m := if rank[m'] < rank[x] then m' else x;
      assert forall y :: y in s ==> y == x || y in rest;
    }
  }

  /** The heap holds exactly the available nodes. */
  ghost predicate HeapInv(succ: Adjacency, pred: Adjacency, emitted: seq<nat>, heap: set<nat>, remaining: seq<nat>) {
    && |remaining| == |pred|
    && (forall v: nat :: v < |pred| ==> remaining[v] == |Waiting(pred, emitted, v)|)
    && (forall v: nat :: v in heap <==> v < |pred| && v !in emitted && remaining[v] == 0)
  }

  lemma HeapIsAvailable(succ: Adjacency, pred: Adjacency, emitted: seq<nat>, heap: set<nat>, remaining: seq<nat>, v: nat)
    requires Mirrored(succ, pred) && HeapInv(succ, pred, emitted, heap, remaining)
    ensures v in heap <==> Available(succ, emitted, v)
  {
    if v < |pred| && v !in emitted {
      if remaining[v] == 0 {
        assert Waiting(pred, emitted, v) == {};
        forall u: nat | Edge(succ, u, v) ensures u in emitted {
          assert Edge(pred, v, u);
          assert u !in Waiting(pred, emitted, v);
        }
      } else {
        assert Waiting(pred, emitted, v) != {};
        var u :| u in Waiting(pred, emitted, v);
        assert Edge(pred, v, u) && Edge(succ, u, v);
      }
    }
  }

  /** In an acyclic graph the heap runs dry only when everything is out. */
  lemma DryHeapIsComplete(succ: Adjacency, pred: Adjacency, emitted: seq<nat>, remaining: seq<nat>, rank: seq<nat>)
    requires Mirrored(succ, pred) && Ranking(succ, rank)
    requires Greedy(succ, emitted) && HeapInv(succ, pred, emitted, {}, remaining)
    ensures KahnOrder(succ, emitted)
  {
    var left := set v: nat | v < |succ| && v !in emitted;
    if left != {} {
      var v := LeastRanked(left, rank);
      HeapIsAvailable(succ, pred, emitted, {}, remaining, v);
      assert false;
    }
    GreedyIsDistinct(succ, emitted);
    DistinctCard(emitted);
    forall v: nat | v < |succ| ensures v in emitted { assert v !in left; }
    assert (set x: nat | x in emitted) == Prefix(|succ|);
  }

  lemma GreedySnoc(succ: Adjacency, emitted: seq<nat>, node: nat)
    requires Greedy(succ, emitted) && LeastAvailable(succ, emitted, node)
    ensures Greedy(succ, emitted + [node])
  {
    var order := emitted + [node];
    forall k | 0 <= k < |order| ensures LeastAvailable(succ, order[..k], order[k]) {
      assert order[..k] == emitted[..k];
      if k == |emitted| { assert emitted[..k] == emitted; }
    }
  }

  /** One outgoing-edge scan: lowers each successor's counter and heaps those that reach zero. */
  method Relax(succ: Adjacency, pred: Adjacency, ghost emitted: seq<nat>, node: nat,
               heap0: set<nat>, remaining0: seq<nat>) returns (heap: set<nat>, remaining: seq<nat>)
    requires Mirrored(succ, pred) && node < |succ| && node !in emitted && node !in succ[node]
    requires |remaining0| == |pred|
    requires forall v: nat :: v < |pred| ==> remaining0[v] == |Waiting(pred, emitted, v)|
    requires remaining0[node] == 0
    requires forall v: nat :: v in heap0 <==> v < |pred| && v !in emitted + [node] && remaining0[v] == 0
    requires forall v: nat :: v in succ[node] ==> v < |pred| && v !in emitted
    ensures HeapInv(succ, pred, emitted + [node], heap, remaining)
  {
    heap, remaining := heap0, remaining0;
    var out := succ[node];
    forall v: nat | v < |pred|
      ensures remaining0[v] == |Waiting(pred, emitted + [node], v)| + (if v in out then 1 else 0)
    {
      WaitingAfterEmit(pred, emitted, node, v);
      assert Edge(succ, node, v) <==> Edge(pred, v, node);
    }
    assert out[0..] == out;
    for k := 0 to |out|
      invariant |remaining| == |pred|
      invariant forall v: nat :: v < |pred| ==>
                  remaining[v] == |Waiting(pred, emitted + [node], v)| + (if v in out[k..] then 1 else 0)
      invariant forall v: nat :: v in heap <==> v < |pred| && v !in emitted + [node] && remaining[v] == 0
    {
      var next := out[k];
      assert next in out;
      assert next !in out[k + 1..] by { assert Distinct(out); }
      assert out[k..] == [next] + out[k + 1..];
      remaining := remaining[next := remaining[next] - 1];
      if remaining[next] == 0 {
        heap := heap + {next};
      }
    }
  }

  lemma EmittedFacts(succ: Adjacency, pred: Adjacency, rank: seq<nat>, emitted: seq<nat>, node: nat)
    requires Mirrored(succ, pred) && Ranking(succ, rank)
    requires Greedy(succ, emitted) && Available(succ, emitted, node)
    ensures node !in succ[node]
    ensures forall v: nat :: v in succ[node] ==> v < |pred| && v !in emitted
  {
    assert node in succ[node] ==> Edge(succ, node, node);
    forall v: nat | v in succ[node] ensures v < |pred| && v !in emitted {
      assert Edge(succ, node, v);
    }
  }

  lemma TopOfHeap(succ: Adjacency, pred: Adjacency, emitted: seq<nat>, heap: set<nat>, remaining: seq<nat>, node: nat)
    requires Mirrored(succ, pred) && HeapInv(succ, pred, emitted, heap, remaining)
    requires node in heap && forall x :: x in heap ==> node <= x
    ensures LeastAvailable(succ, emitted, node)
  {
    HeapIsAvailable(succ, pred, emitted, heap, remaining, node);
    forall w: nat | Available(succ, emitted, w) ensures node <= w {
      HeapIsAvailable(succ, pred, emitted, heap, remaining, w);
    }
  }

  lemma HeapAtStart(succ: Adjacency, pred: Adjacency, heap: set<nat>, remaining: seq<nat>)
    requires Mirrored(succ, pred) && |remaining| == |pred|
    requires forall v: nat :: v < |pred| ==> remaining[v] == |pred[v]|
    requires heap == set v: nat | v < |pred| && remaining[v] == 0
    ensures HeapInv(succ, pred, [], heap, remaining)
  {
    forall v: nat | v < |pred| ensures remaining[v] == |Waiting(pred, [], v)| { WaitingAtStart(pred, v); }
  }

  /** Repeatedly emits the least node whose counter is zero. */
  method TopologicalOrder(succ: Adjacency, pred: Adjacency, ghost rank: seq<nat>) returns (order: seq<nat>)
    requires Mirrored(succ, pred) && Ranking(succ, rank)
    ensures KahnOrder(succ, order)
  {
    var remaining: seq<nat> := seq(|pred|, v requires 0 <= v < |pred| => |pred[v]|);
    var heap := set v: nat | v < |pred| && remaining[v] == 0;
    order := [];
    HeapAtStart(succ, pred, heap, remaining);
    ghost var left := Prefix(|succ|);
    while heap != {}
      invariant Greedy(succ, order)
      invariant HeapInv(succ, pred, order, heap, remaining)
      invariant forall v: nat :: v in left <==> v < |succ| && v !in order
      decreases left
    {
      ghost var m := LeastElement(heap);
      var node: nat :| node in heap && forall x :: x in heap ==> node <= x;
      TopOfHeap(succ, pred, order, heap, remaining, node);
      EmittedFacts(succ, pred, rank, order, node);
      GreedySnoc(succ, order, node);
      heap, remaining := Relax(succ, pred, order, node, heap - {node}, remaining);
      order := order + [node];
      left := left - {node};
    }
    DryHeapIsComplete(succ, pred, order, remaining, rank);
  }
}
