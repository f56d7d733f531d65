/** Directed graphs given by successor lists, and strict reachability in them. */
module Digraph {
  type Adjacency = seq<seq<nat>>

  /** Every listed successor is a node. */
  ghost predicate InRange(succ: Adjacency) {
    forall u: nat, v: nat :: Edge(succ, u, v) ==> v < |succ|
  }

  predicate Edge(succ: Adjacency, u: nat, v: nat) {
    u < |succ| && v in succ[u]
  }

  /** A path of at least one edge from u to v, listing the nodes strictly between them. */
  ghost predicate Path(succ: Adjacency, u: nat, via: seq<nat>, v: nat)
    decreases |via|
  {
    if via == [] then Edge(succ, u, v)
    else Edge(succ, u, via[0]) && Path(succ, via[0], via[1..], v)
  }

  /** v is a strict descendant of u. */
  ghost predicate Reaches(succ: Adjacency, u: nat, v: nat) {
    exists via :: Path(succ, u, via, v)
  }

  ghost predicate Acyclic(succ: Adjacency) {
    forall v: nat :: !Reaches(succ, v, v)
  }

  /** A numbering that grows along every edge. */
  ghost predicate Ranking(succ: Adjacency, rank: seq<nat>) {
    && |rank| == |succ|
    && forall u: nat, v: nat :: Edge(succ, u, v) ==> v < |succ| && rank[u] < rank[v]
  }

  lemma EdgeReaches(succ: Adjacency, u: nat, v: nat)
    requires Edge(succ, u, v)
    ensures Reaches(succ, u, v)
  {
    assert Path(succ, u, [], v);
  }

  lemma StepReaches(succ: Adjacency, u: nat, w: nat, v: nat)
    requires Edge(succ, u, w) && Reaches(succ, w, v)
    ensures Reaches(succ, u, v)
  {
    var via :| Path(succ, w, via, v);
    assert ([w] + via)[1..] == via;
    assert Path(succ, u, [w] + via, v);
  }

  lemma {:induction false} PathSnoc(succ: Adjacency, u: nat, via: seq<nat>, w: nat, v: nat)
    requires Path(succ, u, via, w) && Edge(succ, w, v)
    ensures Path(succ, u, via + [w], v)
    decreases |via|
  {
    if via == [] {
      assert Path(succ, w, [], v);
      assert ([] + [w])[1..] == [];
    } else {
      PathSnoc(succ, via[0], via[1..], w, v);
      assert (via + [w])[1..] == via[1..] + [w];
    }
  }

  lemma ReachesStep(succ: Adjacency, u: nat, w: nat, v: nat)
    requires Reaches(succ, u, w) && Edge(succ, w, v)
    ensures Reaches(succ, u, v)
  {
    var via :| Path(succ, u, via, w);
    PathSnoc(succ, u, via, w, v);
  }

  lemma {:induction false} PathLast(succ: Adjacency, u: nat, via: seq<nat>, v: nat) returns (w: nat)
    requires Path(succ, u, via, v)
    ensures Edge(succ, w, v)
    ensures w == u || Reaches(succ, u, w)
    decreases |via|
  {
    if via == [] {
      w := u;
    } else {
      w := PathLast(succ, via[0], via[1..], v);
      if w == via[0] { EdgeReaches(succ, u, w); } else { StepReaches(succ, u, via[0], w); }
    }
  }

  /** The last edge of some path from u to v. */
  lemma LastStep(succ: Adjacency, u: nat, v: nat) returns (w: nat)
    requires Reaches(succ, u, v)
    ensures Edge(succ, w, v)
    ensures w == u || Reaches(succ, u, w)
  {
    var via :| Path(succ, u, via, v);
    w := PathLast(succ, u, via, v);
  }

  lemma {:induction false} PathClosed(succ: Adjacency, u: nat, via: seq<nat>, v: nat, inside: set<nat>)
    requires Path(succ, u, via, v)
    requires forall w :: Edge(succ, u, w) ==> w in inside
    requires forall a, b :: a in inside && Edge(succ, a, b) ==> b in inside
    ensures v in inside
    decreases |via|
  {
    if via != [] {
      PathClosed(succ, via[0], via[1..], v, inside);
    }
  }

  /** A set that holds u's successors and is closed under edges holds all of u's descendants. */
  lemma ClosedHoldsDescendants(succ: Adjacency, u: nat, v: nat, inside: set<nat>)
    requires Reaches(succ, u, v)
    requires forall w :: Edge(succ, u, w) ==> w in inside
    requires forall a, b :: a in inside && Edge(succ, a, b) ==> b in inside
    ensures v in inside
  {
    var via :| Path(succ, u, via, v);
    PathClosed(succ, u, via, v, inside);
  }

  lemma {:induction false} PathRaisesRank(succ: Adjacency, rank: seq<nat>, u: nat, via: seq<nat>, v: nat)
    requires Ranking(succ, rank) && Path(succ, u, via, v)
    ensures u < |succ| && v < |succ| && rank[u] < rank[v]
    decreases |via|
  {
    if via != [] {
      PathRaisesRank(succ, rank, via[0], via[1..], v);
    }
  }

  lemma ReachesRaisesRank(succ: Adjacency, rank: seq<nat>, u: nat, v: nat)
    requires Ranking(succ, rank) && Reaches(succ, u, v)
    ensures u < |succ| && v < |succ| && rank[u] < rank[v]
  {
    var via :| Path(succ, u, via, v);
    PathRaisesRank(succ, rank, u, via, v);
  }

  /** A ranked graph has no cycle. */
  lemma RankingIsAcyclic(succ: Adjacency, rank: seq<nat>)
    requires Ranking(succ, rank)
    ensures Acyclic(succ)
  {
    forall v: nat ensures !Reaches(succ, v, v) {
      if Reaches(succ, v, v) {
        ReachesRaisesRank(succ, rank, v, v);
      }
    }
  }
}
