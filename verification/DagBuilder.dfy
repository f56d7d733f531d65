/** Dag::build: from task ids and named edges to a frozen, ordered graph. */
module DagBuilder {
  import opened Domain
  import opened Digraph
  import opened CycleFinder
  import opened Kahn

  type NamedEdge = (string, string)

  datatype DagError =
    | DuplicateNode(id: string)
    | UnknownEdgeEndpoint(id: string)
    | SelfDependency(id: string)
    | CycleFound(cycle: seq<string>)

  datatype Dag = Dag(nodes: seq<string>, succ: Adjacency, pred: Adjacency, roots: seq<nat>, topo: seq<nat>)

  /** A built graph with what its accessors hand out: the lookup by id, and the adjacency by id. */
  datatype Graph = Graph(dag: Dag, index: map<string, nat>, leaves: seq<string>,
                         predIds: seq<seq<string>>, succIds: seq<seq<string>>)

  function RootsUpTo(pred: Adjacency, k: nat): (r: seq<nat>)
    requires k <= |pred|
    ensures forall v: nat :: v in r <==> v < k && pred[v] == []
    ensures forall i, j :: 0 <= i < j < |r| ==> r[i] < r[j]
  {
    if k == 0 then []
    else
      var front := RootsUpTo(pred, k - 1);
      assert forall i :: 0 <= i < |front| ==> front[i] in front;
      front + if pred[k - 1] == [] then [k - 1] else []
  }

  /** What every successfully built graph satisfies. */
  ghost predicate ValidDag(dag: Dag) {
    && Distinct(dag.nodes)
    && |dag.succ| == |dag.nodes|
    && Mirrored(dag.succ, dag.pred)
    && KahnOrder(dag.succ, dag.topo)
    && dag.roots == RootsUpTo(dag.pred, |dag.pred|)
  }

  /** Unique ids, known endpoints, no self-dependency. */
  ghost predicate WellPosed(nodes: seq<string>, edges: seq<NamedEdge>) {
    && Distinct(nodes)
    && forall e :: e in edges ==> e.0 in nodes && e.1 in nodes && e.0 != e.1
  }

  ghost predicate NamedCycle(edges: seq<NamedEdge>, cycle: seq<string>) {
    && |cycle| >= 2
    && cycle[0] == cycle[|cycle| - 1]
    && forall i, j :: 0 <= i && j == i + 1 < |cycle| ==> (cycle[i], cycle[j]) in edges
  }

  /** A cycle that meets no id twice but the one it starts and ends with. */
  ghost predicate SimpleNamedCycle(edges: seq<NamedEdge>, cycle: seq<string>) {
    NamedCycle(edges, cycle) && forall i, j :: 0 <= i < j < |cycle| - 1 ==> cycle[i] != cycle[j]
  }

  /** The graph's edges are the named edges, read through the node list. */
  ghost predicate Represents(nodes: seq<string>, edges: seq<NamedEdge>, succ: Adjacency) {
    && |succ| == |nodes|
    && forall u: nat, v: nat :: Edge(succ, u, v) <==>
         u < |nodes| && v < |nodes| && nodes[u] != nodes[v] && (nodes[u], nodes[v]) in edges
  }

  // ---- unique ids ----

  function DuplicateErrors(nodes: seq<string>): seq<DagError> {
    if nodes == [] then []
    else
      var front, last := nodes[..|nodes| - 1], nodes[|nodes| - 1];
      DuplicateErrors(front) + if last in front then [DuplicateNode(last)] else []
  }

  lemma {:induction false} NoDuplicateErrors(nodes: seq<string>)
    ensures DuplicateErrors(nodes) == [] <==> Distinct(nodes)
    decreases |nodes|
  {
    if nodes != [] {
      var front, last := nodes[..|nodes| - 1], nodes[|nodes| - 1];
      NoDuplicateErrors(front);
      assert nodes == front + [last];
      if last in front {
        var i :| 0 <= i < |front| && front[i] == last;
        assert nodes[i] == nodes[|nodes| - 1];
      }
    }
  }

  ghost predicate Indexes(index: map<string, nat>, nodes: seq<string>) {
    && (forall id :: id in index <==> id in nodes)
    && (forall id :: id in index ==> index[id] < |nodes| && nodes[index[id]] == id)
  }

  method IndexNodes(nodes: seq<string>) returns (index: map<string, nat>, errors: seq<DagError>)
    ensures errors == DuplicateErrors(nodes)
    ensures Indexes(index, nodes)
  {
    index, errors := map[], [];
    for i := 0 to |nodes|
      invariant errors == DuplicateErrors(nodes[..i])
      invariant Indexes(index, nodes[..i])
    {
      assert nodes[..i + 1] == nodes[..i] + [nodes[i]];
      assert nodes[..i + 1][..i] == nodes[..i];
      if nodes[i] in index {
        errors := errors + [DuplicateNode(nodes[i])];
      } else {
        index := index[nodes[i] := i];
      }
    }
    assert nodes[..|nodes|] == nodes;
  }

  // ---- edges ----

  function EdgeErrors(nodes: seq<string>, edges: seq<NamedEdge>): seq<DagError> {
    if edges == [] then []
    else
      var front, e := edges[..|edges| - 1], edges[|edges| - 1];
      EdgeErrors(nodes, front) +
      if e.0 !in nodes then [UnknownEdgeEndpoint(e.0)]
      else if e.1 !in nodes then [UnknownEdgeEndpoint(e.1)]
      else if e.0 == e.1 then [SelfDependency(e.0)]
      else []
  }

  lemma {:induction false} NoEdgeErrors(nodes: seq<string>, edges: seq<NamedEdge>)
    ensures EdgeErrors(nodes, edges) == [] <==>
            forall e :: e in edges ==> e.0 in nodes && e.1 in nodes && e.0 != e.1
    decreases |edges|
  {
    if edges != [] {
      var front, e := edges[..|edges| - 1], edges[|edges| - 1];
      NoEdgeErrors(nodes, front);
      assert edges == front + [e];
    }
  }

  lemma LinkKeepsMirror(succ: Adjacency, pred: Adjacency, f: nat, t: nat)
    requires Mirrored(succ, pred) && f < |succ| && t < |succ| && !Edge(succ, f, t)
    ensures Mirrored(succ[f := succ[f] + [t]], pred[t := pred[t] + [f]])
    ensures forall u: nat, v: nat :: Edge(succ[f := succ[f] + [t]], u, v) <==> Edge(succ, u, v) || (u == f && v == t)
  {
    var succ', pred' := succ[f := succ[f] + [t]], pred[t := pred[t] + [f]];
    assert !Edge(pred, t, f);
    forall u: nat, v: nat
      ensures Edge(succ', u, v) <==> Edge(succ, u, v) || (u == f && v == t)
    {
    }
    forall u: nat, v: nat
      ensures Edge(pred', v, u) <==> Edge(pred, v, u) || (u == f && v == t)
    {
    }
  }

  lemma RepresentsSnoc(nodes: seq<string>, edges: seq<NamedEdge>, e: NamedEdge, succ: Adjacency, succ': Adjacency)
    requires Distinct(nodes) && Represents(nodes, edges, succ) && |succ'| == |succ|
    requires forall u: nat, v: nat :: Edge(succ', u, v) <==>
               Edge(succ, u, v) || (u < |nodes| && v < |nodes| && nodes[u] == e.0 && nodes[v] == e.1 && e.0 != e.1)
    ensures Represents(nodes, edges + [e], succ')
  {
    forall u: nat, v: nat ensures Edge(succ', u, v) <==>
         u < |nodes| && v < |nodes| && nodes[u] != nodes[v] && (nodes[u], nodes[v]) in edges + [e]
    {
      assert u < |nodes| && v < |nodes| ==>
          ((nodes[u], nodes[v]) in edges + [e] <==> (nodes[u], nodes[v]) in edges || (nodes[u], nodes[v]) == e);
    }
  }

  /** One named edge: rejected, a repeat, or linked in both directions. */
  method AddEdge(nodes: seq<string>, index: map<string, nat>, ghost edges: seq<NamedEdge>, e: NamedEdge,
                 succ0: Adjacency, pred0: Adjacency, seen0: set<(nat, nat)>)
    returns (succ: Adjacency, pred: Adjacency, seen: set<(nat, nat)>, errors: seq<DagError>)
    requires Distinct(nodes) && Indexes(index, nodes)
    requires Represents(nodes, edges, succ0) && Mirrored(succ0, pred0)
    requires forall u: nat, v: nat :: (u, v) in seen0 <==> Edge(succ0, u, v)
    ensures Represents(nodes, edges + [e], succ) && Mirrored(succ, pred)
    ensures forall u: nat, v: nat :: (u, v) in seen <==> Edge(succ, u, v)
    ensures EdgeErrors(nodes, edges + [e]) == EdgeErrors(nodes, edges) + errors
  {
    succ, pred, seen, errors := succ0, pred0, seen0, [];
    assert (edges + [e])[..|edges|] == edges;
    if e.0 !in index {
      errors := [UnknownEdgeEndpoint(e.0)];
    } else if e.1 !in index {
      errors := [UnknownEdgeEndpoint(e.1)];
    } else if index[e.0] == index[e.1] {
      errors := [SelfDependency(e.0)];
    } else {
      var f, t := index[e.0], index[e.1];
      if (f, t) !in seen {
        LinkKeepsMirror(succ, pred, f, t);
        succ, pred := succ[f := succ[f] + [t]], pred[t := pred[t] + [f]];
        seen := seen + {(f, t)};
      }
    }
    RepresentsSnoc(nodes, edges, e, succ0, succ);
  }

  method AddEdges(nodes: seq<string>, index: map<string, nat>, edges: seq<NamedEdge>)
    returns (succ: Adjacency, pred: Adjacency, errors: seq<DagError>)
    requires Distinct(nodes) && Indexes(index, nodes)
    ensures Represents(nodes, edges, succ) && Mirrored(succ, pred)
    ensures errors == EdgeErrors(nodes, edges)
  {
    succ, pred, errors := seq(|nodes|, _ => []), seq(|nodes|, _ => []), [];
    var seen: set<(nat, nat)> := {};
    for i := 0 to |edges|
      invariant Represents(nodes, edges[..i], succ) && Mirrored(succ, pred)
      invariant forall u: nat, v: nat :: (u, v) in seen <==> Edge(succ, u, v)
      invariant errors == EdgeErrors(nodes, edges[..i])
    {
      var more;
      succ, pred, seen, more := AddEdge(nodes, index, edges[..i], edges[i], succ, pred, seen);
      errors := errors + more;
      assert edges[..i + 1] == edges[..i] + [edges[i]];
    }
    assert edges[..|edges|] == edges;
  }

  // ---- cycles, by index and by name ----

  lemma CycleByName(nodes: seq<string>, edges: seq<NamedEdge>, succ: Adjacency, cycle: seq<nat>, names: seq<string>)
    requires Distinct(nodes) && Represents(nodes, edges, succ) && SimpleCycle(succ, cycle)
    requires |names| == |cycle|
    requires forall i :: 0 <= i < |cycle| ==> cycle[i] < |nodes| && names[i] == nodes[cycle[i]]
    ensures SimpleNamedCycle(edges, names)
  {
    forall i, j | 0 <= i && j == i + 1 < |names| ensures (names[i], names[j]) in edges {
      assert Edge(succ, cycle[i], cycle[j]);
    }
  }

  lemma CycleNamesKnown(nodes: seq<string>, edges: seq<NamedEdge>, names: seq<string>, i: nat)
    requires WellPosed(nodes, edges) && NamedCycle(edges, names) && i < |names|
    ensures names[i] in nodes
  {
    if i + 1 < |names| {
      assert (names[i], names[i + 1]) in edges;
    } else {
      assert (names[i - 1], names[i]) in edges;
    }
  }

  lemma NamedCycleRefutesAcyclic(nodes: seq<string>, index: map<string, nat>, edges: seq<NamedEdge>,
                                 succ: Adjacency, names: seq<string>)
    requires Indexes(index, nodes) && WellPosed(nodes, edges) && Represents(nodes, edges, succ)
    requires NamedCycle(edges, names)
    ensures !Acyclic(succ)
  {
    forall i | 0 <= i < |names| ensures names[i] in index { CycleNamesKnown(nodes, edges, names, i); }
    var walk := seq(|names|, i requires 0 <= i < |names| => index[names[i]]);
    forall i, j | 0 <= i && j == i + 1 < |walk| ensures Edge(succ, walk[i], walk[j]) {
      assert (names[i], names[j]) in edges;
    }
    WalkReaches(succ, walk);
  }

  lemma CycleInRange(succ: Adjacency, cycle: seq<nat>)
    requires InRange(succ) && SimpleCycle(succ, cycle)
    ensures forall i :: 0 <= i < |cycle| ==> cycle[i] < |succ|
  {
    forall i | 0 <= i < |cycle| ensures cycle[i] < |succ| {
      if i + 1 < |cycle| { assert Edge(succ, cycle[i], cycle[i + 1]); }
      else { assert Edge(succ, cycle[0], cycle[1]); }
    }
  }

  method CollectRoots(pred: Adjacency) returns (roots: seq<nat>)
    ensures roots == RootsUpTo(pred, |pred|)
  {
    roots := [];
    for i := 0 to |pred|
      invariant roots == RootsUpTo(pred, i)
    {
      if pred[i] == [] { roots := roots + [i]; }
    }
  }

  // ---- the graph by id ----

  predicate Known(nodes: seq<string>, vs: seq<nat>) {
    forall v :: v in vs ==> v < |nodes|
  }

  function Names(nodes: seq<string>, vs: seq<nat>): seq<string>
    requires Known(nodes, vs)
  {
    seq(|vs|, i requires 0 <= i < |vs| => assert vs[i] in vs; nodes[vs[i]])
  }

  lemma NamesAt(nodes: seq<string>, vs: seq<nat>, v: nat)
    requires Distinct(nodes) && Known(nodes, vs) && v < |nodes|
    ensures nodes[v] in Names(nodes, vs) <==> v in vs
  {
    var names := Names(nodes, vs);
    forall i: nat | i < |vs| ensures names[i] == nodes[v] <==> vs[i] == v { assert vs[i] in vs; }
    if v in vs {
      var i :| 0 <= i < |vs| && vs[i] == v;
      assert names[i] == nodes[v];
    }
  }

  lemma NamesDistinct(nodes: seq<string>, vs: seq<nat>)
    requires Distinct(nodes) && Known(nodes, vs) && Distinct(vs)
    ensures Distinct(Names(nodes, vs))
  {
    var names := Names(nodes, vs);
    forall i, j | 0 <= i < j < |names| ensures names[i] != names[j] {
      assert vs[i] in vs && vs[j] in vs;
    }
  }

  ghost predicate NamesEach(nodes: seq<string>, adjacency: Adjacency, ids: seq<seq<string>>) {
    |ids| == |adjacency| && forall u: nat :: u < |ids| ==> Known(nodes, adjacency[u]) && ids[u] == Names(nodes, adjacency[u])
  }

  /** What every built graph satisfies, its accessors included. */
  ghost predicate ValidGraph(g: Graph) {
    && ValidDag(g.dag) && Indexes(g.index, g.dag.nodes)
    && NamesEach(g.dag.nodes, g.dag.pred, g.predIds) && NamesEach(g.dag.nodes, g.dag.succ, g.succIds)
    && Known(g.dag.nodes, RootsUpTo(g.dag.succ, |g.dag.succ|))
    && g.leaves == Names(g.dag.nodes, RootsUpTo(g.dag.succ, |g.dag.succ|))
  }

  /** The direct dependencies of a task; none for an unknown id. */
  function Dependencies(g: Graph, id: string): seq<string>
    requires ValidGraph(g)
  {
    if id in g.index then g.predIds[g.index[id]] else []
  }

  /** The direct dependents of a task; none for an unknown id. */
  function Dependents(g: Graph, id: string): seq<string>
    requires ValidGraph(g)
  {
    if id in g.index then g.succIds[g.index[id]] else []
  }

  lemma NamesStay(nodes: seq<string>, vs: seq<nat>, id: string)
    requires Known(nodes, vs)
    ensures id in Names(nodes, vs) ==> id in nodes
  {
    if i: nat :| i < |vs| && Names(nodes, vs)[i] == id { assert vs[i] in vs && nodes[vs[i]] == id; }
  }

  /** Through the accessors the graph shows exactly the edges it was built from, each of them once. */
  lemma AccessorsShowEdges(g: Graph, edges: seq<NamedEdge>, a: string, b: string)
    requires ValidGraph(g) && WellPosed(g.dag.nodes, edges) && Represents(g.dag.nodes, edges, g.dag.succ)
    ensures b in Dependents(g, a) <==> (a, b) in edges
    ensures a in Dependencies(g, b) <==> (a, b) in edges
    ensures Distinct(Dependents(g, a)) && Distinct(Dependencies(g, b))
  {
    var nodes := g.dag.nodes;
    if a in g.index {
      NamesDistinct(nodes, g.dag.succ[g.index[a]]);
      NamesStay(nodes, g.dag.succ[g.index[a]], b);
    }
    if b in g.index {
      NamesDistinct(nodes, g.dag.pred[g.index[b]]);
      NamesStay(nodes, g.dag.pred[g.index[b]], a);
    }
    if a in g.index && b in g.index {
      NamesAt(nodes, g.dag.succ[g.index[a]], g.index[b]);
      NamesAt(nodes, g.dag.pred[g.index[b]], g.index[a]);
      assert Edge(g.dag.succ, g.index[a], g.index[b]) <==> Edge(g.dag.pred, g.index[b], g.index[a]);
    }
  }

  /** The leaves are exactly the tasks that nothing depends on. */
  lemma LeavesExactly(g: Graph, edges: seq<NamedEdge>, id: string)
    requires ValidGraph(g) && WellPosed(g.dag.nodes, edges) && Represents(g.dag.nodes, edges, g.dag.succ)
    ensures id in g.leaves <==> id in g.dag.nodes && forall e :: e in edges ==> e.0 != id
  {
    var nodes, bare := g.dag.nodes, RootsUpTo(g.dag.succ, |g.dag.succ|);
    NamesStay(nodes, bare, id);
    MirroredInRange(g.dag.succ, g.dag.pred);
    if id in nodes {
      NamesAt(nodes, bare, g.index[id]);
      assert id in g.leaves <==> g.dag.succ[g.index[id]] == [];
      if g.dag.succ[g.index[id]] != [] {
        var w := g.dag.succ[g.index[id]][0];
        assert Edge(g.dag.succ, g.index[id], w);
        var e := (id, nodes[w]);
        assert e in edges && e.0 == id;
      } else {
        forall e | e in edges ensures e.0 != id {
          assert !Edge(g.dag.succ, g.index[id], g.index[e.1]);
          assert e == (e.0, e.1) && nodes[g.index[e.1]] == e.1;
        }
      }
    }
  }

  /** One side of the adjacency by id. */
  method NameAdjacency(nodes: seq<string>, adjacency: Adjacency) returns (ids: seq<seq<string>>)
    requires |nodes| == |adjacency| && InRange(adjacency)
    ensures NamesEach(nodes, adjacency, ids)
  {
    ids := [];
    for u := 0 to |adjacency|
      invariant |ids| == u
      invariant forall k: nat :: k < u ==> Known(nodes, adjacency[k]) && ids[k] == Names(nodes, adjacency[k])
    {
      forall w | w in adjacency[u] ensures w < |nodes| { assert Edge(adjacency, u, w); }
      ids := ids + [Names(nodes, adjacency[u])];
    }
  }

  /** The derived structure: roots and leaves, Kahn's order, adjacency by id. */
  method Freeze(nodes: seq<string>, index: map<string, nat>, succ: Adjacency, pred: Adjacency, ghost rank: seq<nat>)
    returns (graph: Graph)
    requires Distinct(nodes) && |succ| == |nodes| && Mirrored(succ, pred) && Ranking(succ, rank) && Indexes(index, nodes)
    ensures ValidGraph(graph) && graph.dag.nodes == nodes && graph.dag.succ == succ
  {
    MirroredInRange(succ, pred);
    var roots := CollectRoots(pred);
    var bare := CollectRoots(succ);
    var topo := TopologicalOrder(succ, pred, rank);
    var predIds := NameAdjacency(nodes, pred);
    var succIds := NameAdjacency(nodes, succ);
    graph := Graph(Dag(nodes, succ, pred, roots, topo), index, Names(nodes, bare), predIds, succIds);
  }

  /** Succeeds exactly on well-posed, acyclic input; then the graph's edges are the named ones and its
      order is Kahn's. Otherwise it reports every duplicate, or every bad edge, or one named cycle. */
  method Build(nodes: seq<string>, edges: seq<NamedEdge>) returns (graph: Option<Graph>, errors: seq<DagError>)
    ensures graph.Some? <==> WellPosed(nodes, edges) && forall c :: !NamedCycle(edges, c)
    ensures graph.Some? <==> errors == []
    ensures graph.Some? ==> ValidGraph(graph.value) && graph.value.dag.nodes == nodes
    ensures graph.Some? ==> Represents(nodes, edges, graph.value.dag.succ)
    ensures !Distinct(nodes) ==> errors == DuplicateErrors(nodes)
    ensures Distinct(nodes) && !WellPosed(nodes, edges) ==> errors == EdgeErrors(nodes, edges)
    ensures WellPosed(nodes, edges) && graph.None? ==>
              |errors| == 1 && errors[0].CycleFound? && SimpleNamedCycle(edges, errors[0].cycle)
  {
    graph := None;
    var index;
    index, errors := IndexNodes(nodes);
    NoDuplicateErrors(nodes);
    if errors != [] { return; }
    var succ, pred;
    succ, pred, errors := AddEdges(nodes, index, edges);
    NoEdgeErrors(nodes, edges);
    if errors != [] { return; }
    MirroredInRange(succ, pred);
    var cycle; ghost var rank;
    cycle, rank := FindCycle(succ);
    if cycle != [] {
      CycleInRange(succ, cycle);
      var names := seq(|cycle|, i requires 0 <= i < |cycle| => nodes[cycle[i]]);
      CycleByName(nodes, edges, succ, cycle, names);
      errors := [CycleFound(names)];
      return;
    }
    var frozen := Freeze(nodes, index, succ, pred, rank);
    graph := Some(frozen);
    forall c ensures !NamedCycle(edges, c) {
      if NamedCycle(edges, c) { NamedCycleRefutesAcyclic(nodes, index, edges, succ, c); }
    }
  }

  /** Two graphs built from the same ids and the same edge set order their tasks identically,
      however the edges were listed or repeated. */
  lemma OrderIgnoresEdgeListing(nodes: seq<string>, edges: seq<NamedEdge>, edges': seq<NamedEdge>, a: Dag, b: Dag)
    requires ValidDag(a) && ValidDag(b) && a.nodes == b.nodes == nodes
    requires Represents(nodes, edges, a.succ) && Represents(nodes, edges', b.succ)
    requires forall e :: e in edges <==> e in edges'
    ensures a.topo == b.topo
  {
    forall u: nat, v: nat ensures Edge(a.succ, u, v) <==> Edge(b.succ, u, v) {}
    KahnOrderUnique(a.succ, b.succ, a.topo, b.topo);
  }
}
