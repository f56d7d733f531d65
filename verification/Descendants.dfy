/** Breadth-first search for everything that depends on a node. */
module Descendants {
  import opened Sequences
  import opened Digraph
  import opened Kahn
  import opened DagBuilder
  import opened Domain

  ghost predicate StrictlyAscending(s: seq<nat>) {
    forall i, j :: 0 <= i < j < |s| ==> s[i] < s[j]
  }

  predicate NodeAtMost(a: nat, b: nat) {
    a <= b
  }

  lemma SortNodes(s: seq<nat>)
    requires Distinct(s)
    ensures StrictlyAscending(Sort(NodeAtMost, s))
    ensures forall v: nat :: v in Sort(NodeAtMost, s) <==> v in s
  {
    var r := Sort(NodeAtMost, s);
    SortIsSorted(NodeAtMost, s);
    forall v: nat ensures v in r <==> v in s {
      assert v in multiset(r) <==> v in multiset(s);
    }
    forall i, j | 0 <= i < j < |r| ensures r[i] < r[j] {
      DistinctMultiplicity(s, r[i]);
      TwiceInMultiset(r, i, j);
    }
  }

  lemma TwiceInMultiset(s: seq<nat>, i: nat, j: nat)
    requires i < j < |s|
    ensures s[i] == s[j] ==> multiset(s)[s[i]] >= 2
  {
    assert s == s[..i] + [s[i]] + s[i + 1..j] + [s[j]] + s[j + 1..];
  }

  // ---- The search ----

  /** Nodes found so far are descendants, and everything but the frontier has been followed. */
  ghost predicate Searching(succ: Adjacency, start: nat, seen: set<nat>, hits: seq<nat>, frontier: seq<nat>) {
    && start in seen && seen <= Prefix(|succ|) && Distinct(hits)
    && (forall v: nat :: v in hits ==> v in seen && Reaches(succ, start, v))
    && (forall v: nat :: v in seen ==> v == start || v in hits)
    && (forall v: nat :: v in frontier ==> v in seen)
    && (forall u: nat, v: nat :: u in seen && u !in frontier && Edge(succ, u, v) ==> v in seen)
  }

  /** The unseen successors of a node, each once, in the order in which they are listed. */
  method Unseen(succ: Adjacency, seen: set<nat>, node: nat) returns (found: seq<nat>)
    requires node < |succ|
    ensures Distinct(found)
    ensures forall v: nat :: v in found <==> v !in seen && Edge(succ, node, v)
  {
    found := [];
    for i := 0 to |succ[node]|
      invariant Distinct(found)
      invariant forall v: nat :: v in found <==> v !in seen && v in succ[node][..i]
    {
      var next := succ[node][i];
      assert succ[node][..i + 1] == succ[node][..i] + [next];
      if next !in seen && next !in found {
        found := found + [next];
      }
    }
    assert succ[node][..|succ[node]|] == succ[node];
  }

  lemma DistinctAppend(a: seq<nat>, b: seq<nat>)
    requires Distinct(a) && Distinct(b) && forall v :: v in a ==> v !in b
    ensures Distinct(a + b)
  {
    var s := a + b;
    forall i, j | 0 <= i < j < |s| ensures s[i] != s[j] {
      assert i < |a| <= j ==> a[i] in a && b[j - |a|] in b;
    }
  }

  lemma SearchMore(succ: Adjacency, start: nat, seen: set<nat>, hits: seq<nat>, frontier: seq<nat>, found: seq<nat>, seen': set<nat>)
    requires InRange(succ) && Searching(succ, start, seen, hits, frontier) && frontier != [] && Distinct(found)
    requires forall v: nat :: v in found <==> v !in seen && Edge(succ, frontier[0], v)
    requires seen' == seen + set v | v in found
    ensures Searching(succ, start, seen', hits + found, frontier[1..] + found)
  {
    var node := frontier[0];
    assert frontier == [node] + frontier[1..];
    DistinctAppend(hits, found);
    forall v: nat | v in found ensures Reaches(succ, start, v) {
      if node == start { EdgeReaches(succ, start, v); } else { ReachesStep(succ, start, node, v); }
    }
    forall u: nat, v: nat | u in seen' && u !in frontier[1..] + found && Edge(succ, u, v) ensures v in seen' {
      assert u in seen && (u == node || u !in frontier);
      assert v in found || v in seen;
    }
  }

  lemma SearchComplete(succ: Adjacency, start: nat, seen: set<nat>, hits: seq<nat>)
    requires InRange(succ) && Acyclic(succ) && start < |succ| && Searching(succ, start, seen, hits, [])
    ensures forall v: nat :: v in hits <==> Reaches(succ, start, v)
  {
    forall v: nat | Reaches(succ, start, v) ensures v in hits {
      ClosedHoldsDescendants(succ, start, v, seen);
    }
  }

  method Search(succ: Adjacency, start: nat) returns (hits: seq<nat>)
    requires InRange(succ) && Acyclic(succ) && start < |succ|
    ensures Distinct(hits) && forall v: nat :: v in hits <==> Reaches(succ, start, v)
    ensures forall v :: v in hits ==> v < |succ|
  {
    var seen, frontier := {start}, [start];
    hits := [];
    while frontier != []
      invariant Searching(succ, start, seen, hits, frontier)
      decreases Prefix(|succ|) - seen, |frontier|
    {
      var node := frontier[0];
      assert node in seen;
      var found := Unseen(succ, seen, node);
      ghost var before := seen;
      seen := seen + set v | v in found;
      SearchMore(succ, start, before, hits, frontier, found, seen);
      assert found != [] ==> found[0] in found;
      frontier := frontier[1..] + found;
      hits := hits + found;
    }
    SearchComplete(succ, start, seen, hits);
  }

  /** All strict descendants of a task, in the order of the node list; none for an unknown id. */
  method TransitiveDependents(g: Graph, id: string) returns (names: seq<string>, ghost hits: seq<nat>)
    requires ValidGraph(g)
    ensures StrictlyAscending(hits) && Known(g.dag.nodes, hits) && names == Names(g.dag.nodes, hits)
    ensures forall name :: name in names <==>
              id in g.index && name in g.index && Reaches(g.dag.succ, g.index[id], g.index[name])
  {
    if id !in g.index {
      return [], [];
    }
    var start := g.index[id];
    MirroredInRange(g.dag.succ, g.dag.pred);
    KahnOrderAcyclic(g.dag.succ, g.dag.topo);
    var found := Search(g.dag.succ, start);
    SortNodes(found);
    var sorted := Sort(NodeAtMost, found);
    hits, names := sorted, Names(g.dag.nodes, sorted);
    forall name ensures name in names <==> name in g.index && Reaches(g.dag.succ, start, g.index[name]) {
      NamesStay(g.dag.nodes, sorted, name);
      if name in g.index { NamesAt(g.dag.nodes, sorted, g.index[name]); }
    }
  }
}
