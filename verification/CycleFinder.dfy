/** The iterative colour depth-first search that looks for a dependency cycle. */
module CycleFinder {
  import opened Digraph

  datatype Colour = White | Grey | Black

  /** One entry of the explicit stack: a node and the cursor into its successor list. */
  datatype Frame = Frame(node: nat, cursor: nat)

  /** A closed walk along real edges that visits no node twice, apart from its endpoint. */
  ghost predicate SimpleCycle(succ: Adjacency, cycle: seq<nat>) {
    && |cycle| >= 2
    && cycle[0] == cycle[|cycle| - 1]
    && (forall i, j :: 0 <= i && j == i + 1 < |cycle| ==> Edge(succ, cycle[i], cycle[j]))
    && (forall i, j :: 0 <= i < j < |cycle| - 1 ==> cycle[i] != cycle[j])
  }

  lemma {:induction false} WalkReaches(succ: Adjacency, walk: seq<nat>)
    requires |walk| >= 2
    requires forall i, j :: 0 <= i && j == i + 1 < |walk| ==> Edge(succ, walk[i], walk[j])
    ensures Reaches(succ, walk[0], walk[|walk| - 1])
    decreases |walk|
  {
    if |walk| == 2 {
      assert Edge(succ, walk[0], walk[1]);
      EdgeReaches(succ, walk[0], walk[1]);
    } else {
      var last := |walk| - 1;
      WalkReaches(succ, walk[..last]);
      assert walk[..last][last - 1] == walk[last - 1];
      ReachesStep(succ, walk[0], walk[last - 1], walk[last]);
    }
  }

  /** A reported cycle refutes acyclicity. */
  lemma CycleRefutesAcyclic(succ: Adjacency, cycle: seq<nat>)
    requires SimpleCycle(succ, cycle)
    ensures !Acyclic(succ)
  {
    WalkReaches(succ, cycle);
  }

  /** Grey nodes are exactly the stack, in order, and `parent` points one entry down. */
  ghost predicate StackShape(succ: Adjacency, colour: seq<Colour>, parent: seq<int>, stack: seq<Frame>) {
    && |colour| == |succ| == |parent|
    && (forall i :: 0 <= i < |stack| ==>
          stack[i].node < |succ| && stack[i].cursor <= |succ[stack[i].node]| && colour[stack[i].node].Grey?)
    && (forall i, j :: 0 <= i < j < |stack| ==> stack[i].node != stack[j].node)
    && (forall v: nat :: v < |succ| && colour[v].Grey? ==> exists i :: 0 <= i < |stack| && stack[i].node == v)
    && (forall i, j :: 0 <= i && j == i + 1 < |stack| ==>
          parent[stack[j].node] == stack[i].node && Edge(succ, stack[i].node, stack[j].node))
  }

  /** Black nodes are finished: every edge out of one leads to a node finished earlier. */
  ghost predicate Finished(succ: Adjacency, colour: seq<Colour>, finish: seq<nat>, clock: nat) {
    && |finish| == |colour| == |succ|
    && (forall v: nat :: v < |succ| && colour[v].Black? ==> finish[v] < clock)
    && (forall u: nat, v: nat :: Edge(succ, u, v) && colour[u].Black? ==>
          v < |succ| && colour[v].Black? && finish[v] < finish[u])
  }

  /** w is the node of the stack entry just above entry i. */
  ghost predicate Above(stack: seq<Frame>, i: nat, w: nat) {
    i + 1 < |stack| && w == stack[i + 1].node
  }

  /** Everything before a cursor is finished, except the child that is still on the stack. */
  ghost predicate Scanned(succ: Adjacency, colour: seq<Colour>, stack: seq<Frame>)
    requires |colour| == |succ|
    requires forall i :: 0 <= i < |stack| ==>
               stack[i].node < |succ| && stack[i].cursor <= |succ[stack[i].node]|
  {
    forall i, k :: 0 <= i < |stack| && 0 <= k < stack[i].cursor ==>
      var w := succ[stack[i].node][k];
      w < |succ| && (colour[w].Black? || Above(stack, i, w))
  }

  ghost predicate SearchInv(succ: Adjacency, colour: seq<Colour>, parent: seq<int>, stack: seq<Frame>,
                            finish: seq<nat>, clock: nat) {
    && StackShape(succ, colour, parent, stack)
    && Finished(succ, colour, finish, clock)
    && Scanned(succ, colour, stack)
  }

  ghost predicate TopEdge(succ: Adjacency, stack: seq<Frame>, next: nat) {
    && |stack| > 0
    && var top := stack[|stack| - 1];
       top.node < |succ| && top.cursor < |succ[top.node]| && next == succ[top.node][top.cursor] && next < |succ|
  }

  /** The stack after its top cursor moved past one successor. */
  function Advance(stack: seq<Frame>): (r: seq<Frame>)
    requires stack != []
    ensures |r| == |stack|
    ensures forall i :: 0 <= i < |stack| ==> r[i].node == stack[i].node
    ensures forall i :: 0 <= i < |stack| - 1 ==> r[i] == stack[i]
    ensures r[|r| - 1].cursor == stack[|stack| - 1].cursor + 1
  {
    var top := |stack| - 1;
    stack[top := Frame(stack[top].node, stack[top].cursor + 1)]
  }

  lemma PushKeepsShape(succ: Adjacency, colour: seq<Colour>, parent: seq<int>, stack: seq<Frame>, next: nat)
    requires StackShape(succ, colour, parent, stack) && TopEdge(succ, stack, next) && colour[next].White?
    ensures StackShape(succ, colour[next := Grey], parent[next := stack[|stack| - 1].node],
                       Advance(stack) + [Frame(next, 0)])
  {
    var top := |stack| - 1;
    var stack' := Advance(stack) + [Frame(next, 0)];
    var colour' := colour[next := Grey];
    assert Edge(succ, stack[top].node, next);
    assert stack'[top + 1] == Frame(next, 0);
    forall v: nat | v < |succ| && colour'[v].Grey?
      ensures exists i :: 0 <= i < |stack'| && stack'[i].node == v
    {
      if v != next {
        var i :| 0 <= i < |stack| && stack[i].node == v;
        assert stack'[i].node == v;
      }
    }
  }

  lemma PushKeepsScanned(succ: Adjacency, colour: seq<Colour>, parent: seq<int>, stack: seq<Frame>, next: nat)
    requires StackShape(succ, colour, parent, stack) && Scanned(succ, colour, stack)
    requires TopEdge(succ, stack, next) && colour[next].White?
    ensures Scanned(succ, colour[next := Grey], Advance(stack) + [Frame(next, 0)])
  {
    var top := |stack| - 1;
    var stack' := Advance(stack) + [Frame(next, 0)];
    var colour' := colour[next := Grey];
    forall i, k | 0 <= i < |stack'| && 0 <= k < stack'[i].cursor
      ensures var w := succ[stack'[i].node][k];
              w < |succ| && (colour'[w].Black? || Above(stack', i, w))
    {
      if i < top {
        assert Above(stack, i, succ[stack[i].node][k]) ==> Above(stack', i, succ[stack[i].node][k]);
      } else {
        assert i == top;
        assert stack'[top + 1] == Frame(next, 0);
        if k < stack[top].cursor { assert !Above(stack, i, succ[stack[i].node][k]); }
      }
    }
  }

  lemma PushKeepsInv(succ: Adjacency, colour: seq<Colour>, parent: seq<int>, stack: seq<Frame>,
                     finish: seq<nat>, clock: nat, next: nat)
    requires SearchInv(succ, colour, parent, stack, finish, clock)
    requires TopEdge(succ, stack, next) && colour[next].White?
    ensures SearchInv(succ, colour[next := Grey], parent[next := stack[|stack| - 1].node],
                      Advance(stack) + [Frame(next, 0)], finish, clock)
  {
    PushKeepsShape(succ, colour, parent, stack, next);
    PushKeepsScanned(succ, colour, parent, stack, next);
  }

  lemma SkipKeepsShape(succ: Adjacency, colour: seq<Colour>, parent: seq<int>, stack: seq<Frame>, next: nat)
    requires StackShape(succ, colour, parent, stack) && TopEdge(succ, stack, next)
    ensures StackShape(succ, colour, parent, Advance(stack))
  {
    var stack' := Advance(stack);
    forall v: nat | v < |succ| && colour[v].Grey?
      ensures exists i :: 0 <= i < |stack'| && stack'[i].node == v
    {
      var i :| 0 <= i < |stack| && stack[i].node == v;
      assert stack'[i].node == v;
    }
  }

  lemma SkipKeepsScanned(succ: Adjacency, colour: seq<Colour>, parent: seq<int>, stack: seq<Frame>, next: nat)
    requires StackShape(succ, colour, parent, stack) && Scanned(succ, colour, stack)
    requires TopEdge(succ, stack, next) && colour[next].Black?
    ensures Scanned(succ, colour, Advance(stack))
  {
    var stack' := Advance(stack);
    forall i, k | 0 <= i < |stack'| && 0 <= k < stack'[i].cursor
      ensures var w := succ[stack'[i].node][k];
              w < |succ| && (colour[w].Black? || Above(stack', i, w))
    {
      if i < |stack| - 1 {
        assert Above(stack, i, succ[stack[i].node][k]) ==> Above(stack', i, succ[stack[i].node][k]);
      } else if k < stack[i].cursor {
        assert !Above(stack, i, succ[stack[i].node][k]);
      }
    }
  }

  lemma SkipKeepsInv(succ: Adjacency, colour: seq<Colour>, parent: seq<int>, stack: seq<Frame>,
                     finish: seq<nat>, clock: nat, next: nat)
    requires SearchInv(succ, colour, parent, stack, finish, clock)
    requires TopEdge(succ, stack, next) && colour[next].Black?
    ensures SearchInv(succ, colour, parent, Advance(stack), finish, clock)
  {
    SkipKeepsShape(succ, colour, parent, stack, next);
    SkipKeepsScanned(succ, colour, parent, stack, next);
  }

  lemma PopKeepsShape(succ: Adjacency, colour: seq<Colour>, parent: seq<int>, stack: seq<Frame>)
    requires StackShape(succ, colour, parent, stack) && |stack| > 0
    ensures StackShape(succ, colour[stack[|stack| - 1].node := Black], parent, stack[..|stack| - 1])
  {
    var top := |stack| - 1;
    var colour', stack' := colour[stack[top].node := Black], stack[..top];
    forall v: nat | v < |succ| && colour'[v].Grey?
      ensures exists i :: 0 <= i < |stack'| && stack'[i].node == v
    {
      var i :| 0 <= i < |stack| && stack[i].node == v;
      assert stack'[i].node == v;
    }
  }

  lemma PopKeepsFinished(succ: Adjacency, colour: seq<Colour>, parent: seq<int>, stack: seq<Frame>,
                         finish: seq<nat>, clock: nat)
    requires SearchInv(succ, colour, parent, stack, finish, clock) && |stack| > 0
    requires stack[|stack| - 1].cursor == |succ[stack[|stack| - 1].node]|
    ensures var node := stack[|stack| - 1].node;
            Finished(succ, colour[node := Black], finish[node := clock], clock + 1)
  {
    var top := |stack| - 1;
    var node := stack[top].node;
    var colour', finish' := colour[node := Black], finish[node := clock];
    forall u: nat, v: nat | Edge(succ, u, v) && colour'[u].Black?
      ensures v < |succ| && colour'[v].Black? && finish'[v] < finish'[u]
    {
      if u == node {
        var k :| 0 <= k < |succ[u]| && succ[u][k] == v;
        assert !Above(stack, top, v);
        assert v < |succ| && colour[v].Black?;
      } else {
        assert colour[u].Black?;
      }
    }
  }

  lemma PopKeepsScanned(succ: Adjacency, colour: seq<Colour>, parent: seq<int>, stack: seq<Frame>)
    requires StackShape(succ, colour, parent, stack) && Scanned(succ, colour, stack) && |stack| > 0
    ensures Scanned(succ, colour[stack[|stack| - 1].node := Black], stack[..|stack| - 1])
  {
    var top := |stack| - 1;
    var colour', stack' := colour[stack[top].node := Black], stack[..top];
    forall i, k | 0 <= i < |stack'| && 0 <= k < stack'[i].cursor
      ensures var w := succ[stack'[i].node][k];
              w < |succ| && (colour'[w].Black? || Above(stack', i, w))
    {
      assert stack'[i] == stack[i];
      var w := succ[stack[i].node][k];
      if Above(stack, i, w) && i + 1 < top { assert Above(stack', i, w); }
    }
  }

  lemma PopKeepsInv(succ: Adjacency, colour: seq<Colour>, parent: seq<int>, stack: seq<Frame>,
                    finish: seq<nat>, clock: nat)
    requires SearchInv(succ, colour, parent, stack, finish, clock) && |stack| > 0
    requires stack[|stack| - 1].cursor == |succ[stack[|stack| - 1].node]|
    ensures var node := stack[|stack| - 1].node;
            SearchInv(succ, colour[node := Black], parent, stack[..|stack| - 1], finish[node := clock], clock + 1)
  {
    PopKeepsShape(succ, colour, parent, stack);
    PopKeepsFinished(succ, colour, parent, stack, finish, clock);
    PopKeepsScanned(succ, colour, parent, stack);
  }

  /** What the parent-chain walk builds: the nodes above position k, topmost first. */
  function Climb(stack: seq<Frame>, k: nat): (r: seq<nat>)
    requires k < |stack|
    ensures |r| == |stack| - 1 - k
    ensures forall i :: 0 <= i < |r| ==> r[i] == stack[|stack| - 1 - i].node
    decreases |stack| - k
  {
    if k + 1 == |stack| then [] else Climb(stack, k + 1) + [stack[k + 1].node]
  }

  function Reverse(s: seq<nat>): (r: seq<nat>)
    ensures |r| == |s|
    ensures forall i :: 0 <= i < |s| ==> r[i] == s[|s| - 1 - i]
  {
    if s == [] then [] else Reverse(s[1..]) + [s[0]]
  }

  lemma SegmentNodes(stack: seq<Frame>, at: nat, cycle: seq<nat>)
    requires at < |stack|
    requires cycle == Reverse(Climb(stack, at) + [stack[at].node]) + [stack[at].node]
    ensures |cycle| == |stack| - at + 1
    ensures forall i :: 0 <= i < |stack| - at ==> cycle[i] == stack[at + i].node
    ensures cycle[|stack| - at] == stack[at].node
  {
  }

  /** The stack from entry `at` upwards, closed by an edge back to it. */
  lemma StackSegmentIsCycle(succ: Adjacency, colour: seq<Colour>, parent: seq<int>, stack: seq<Frame>,
                            at: nat, cycle: seq<nat>)
    requires StackShape(succ, colour, parent, stack) && at < |stack|
    requires Edge(succ, stack[|stack| - 1].node, stack[at].node)
    requires |cycle| == |stack| - at + 1
    requires forall i :: 0 <= i < |stack| - at ==> cycle[i] == stack[at + i].node
    requires cycle[|stack| - at] == stack[at].node
    ensures SimpleCycle(succ, cycle)
  {
    forall i, j | 0 <= i && j == i + 1 < |cycle| ensures Edge(succ, cycle[i], cycle[j]) {
      if j < |stack| - at {
        assert Edge(succ, stack[at + i].node, stack[at + j].node);
      }
    }
  }

  lemma ParentIsBelow(succ: Adjacency, colour: seq<Colour>, parent: seq<int>, stack: seq<Frame>, k: nat)
    requires StackShape(succ, colour, parent, stack) && 0 < k < |stack|
    ensures stack[k].node < |parent| && parent[stack[k].node] == stack[k - 1].node
  {
  }

  /** Walks `parent` from the top of the stack down to `next`; it ends because `next` is grey,
      hence on the stack, and every parent lies one entry below. */
  method Reconstruct(succ: Adjacency, colour: seq<Colour>, parent: seq<int>, stack: seq<Frame>, next: nat)
    returns (cycle: seq<nat>)
    requires StackShape(succ, colour, parent, stack) && |stack| > 0
    requires next < |succ| && colour[next].Grey?
    requires Edge(succ, stack[|stack| - 1].node, next)
    ensures SimpleCycle(succ, cycle)
  {
    ghost var at :| 0 <= at < |stack| && stack[at].node == next;
    ghost var k := |stack| - 1;
    var cur := stack[|stack| - 1].node;
    cycle := [];
    while cur != next
      invariant at <= k < |stack| && cur == stack[k].node
      invariant cycle == Climb(stack, k)
      decreases k
    {
      ParentIsBelow(succ, colour, parent, stack, k);
      cycle := cycle + [cur];
      cur := parent[cur];
      k := k - 1;
    }
    cycle := Reverse(cycle + [next]) + [next];
    SegmentNodes(stack, at, cycle);
    StackSegmentIsCycle(succ, colour, parent, stack, at, cycle);
  }

  ghost function WhiteNodes(colour: seq<Colour>): set<nat> {
    set v: nat | v < |colour| && colour[v].White?
  }

  /** Nodes never become white again. */
  ghost predicate Darker(before: seq<Colour>, after: seq<Colour>) {
    |before| == |after| && forall v: nat :: v < |before| && !before[v].White? ==> !after[v].White?
  }

  lemma Greyed(colour: seq<Colour>, v: nat)
    requires v < |colour| && colour[v].White?
    ensures WhiteNodes(colour[v := Grey]) == WhiteNodes(colour) - {v} && v in WhiteNodes(colour)
    ensures Darker(colour, colour[v := Grey])
  {
  }

  lemma Blackened(colour: seq<Colour>, v: nat)
    requires v < |colour| && colour[v].Grey?
    ensures WhiteNodes(colour[v := Black]) == WhiteNodes(colour)
    ensures Darker(colour, colour[v := Black])
  {
  }

  /** Successors of the top node that are still to be looked at. */
  ghost function Unscanned(succ: Adjacency, stack: seq<Frame>): int {
    if stack != [] && stack[|stack| - 1].node < |succ|
    then |succ[stack[|stack| - 1].node]| - stack[|stack| - 1].cursor else 0
  }

  /** Explores everything reachable from one white node; either a cycle, or all of it black. */
  method Explore(succ: Adjacency, start: nat, colour0: seq<Colour>, parent0: seq<int>,
                 ghost finish0: seq<nat>, ghost clock0: nat)
    returns (cycle: seq<nat>, colour: seq<Colour>, parent: seq<int>, ghost finish: seq<nat>, ghost clock: nat)
    requires InRange(succ) && start < |succ|
    requires SearchInv(succ, colour0, parent0, [], finish0, clock0) && colour0[start].White?
    ensures cycle != [] ==> SimpleCycle(succ, cycle)
    ensures cycle == [] ==> SearchInv(succ, colour, parent, [], finish, clock)
    ensures cycle == [] ==> Darker(colour0, colour) && !colour[start].White?
  {
    cycle, colour, parent, finish, clock := [], colour0[start := Grey], parent0, finish0, clock0;
    var stack := [Frame(start, 0)];
    assert stack[0].node == start;
    ghost var white := WhiteNodes(colour);
    while stack != []
      invariant SearchInv(succ, colour, parent, stack, finish, clock)
      invariant white == WhiteNodes(colour)
      invariant Darker(colour0, colour) && !colour[start].White?
      decreases white, |stack|, Unscanned(succ, stack)
    {
      var top := |stack| - 1;
      var node, cursor := stack[top].node, stack[top].cursor;
      if cursor < |succ[node]| {
        var next := succ[node][cursor];
        assert Edge(succ, node, next);
        assert TopEdge(succ, stack, next);
        if colour[next].White? {
          PushKeepsInv(succ, colour, parent, stack, finish, clock, next);
          stack := Advance(stack) + [Frame(next, 0)];
          Greyed(colour, next);
          colour, parent := colour[next := Grey], parent[next := node];
          white := white - {next};
        } else if colour[next].Grey? {
          cycle := Reconstruct(succ, colour, parent, stack, next);
          return;
        } else {
          SkipKeepsInv(succ, colour, parent, stack, finish, clock, next);
          stack := Advance(stack);
        }
      } else {
        PopKeepsInv(succ, colour, parent, stack, finish, clock);
        Blackened(colour, node);
        colour, stack := colour[node := Black], stack[..top];
        finish, clock := finish[node := clock], clock + 1;
      }
    }
  }

  lemma FinishedIsRanked(succ: Adjacency, colour: seq<Colour>, finish: seq<nat>, clock: nat) returns (rank: seq<nat>)
    requires Finished(succ, colour, finish, clock)
    requires forall v: nat :: v < |succ| ==> colour[v].Black?
    ensures Ranking(succ, rank)
  {
    rank := seq(|succ|, v requires 0 <= v < |succ| => clock - finish[v]);
  }

  /** Sound and complete: a non-empty answer is a real simple cycle, an empty one a certificate
      (the ghost ranking) that there is none. */
  method FindCycle(succ: Adjacency) returns (cycle: seq<nat>, ghost rank: seq<nat>)
    requires InRange(succ)
    ensures cycle != [] ==> SimpleCycle(succ, cycle)
    ensures cycle == [] ==> Ranking(succ, rank)
    ensures cycle == [] <==> Acyclic(succ)
  {
    var n := |succ|;
    var colour, parent := seq(n, _ => White), seq(n, _ => -1);
    ghost var finish, clock := seq(n, _ => 0), 0;
    cycle, rank := [], [];
    for start := 0 to n
      invariant cycle == []
      invariant SearchInv(succ, colour, parent, [], finish, clock)
      invariant forall v: nat :: v < start ==> !colour[v].White?
    {
      if colour[start].White? {
        cycle, colour, parent, finish, clock := Explore(succ, start, colour, parent, finish, clock);
        if cycle != [] {
          CycleRefutesAcyclic(succ, cycle);
          return;
        }
      }
    }
    rank := FinishedIsRanked(succ, colour, finish, clock);
    RankingIsAcyclic(succ, rank);
  }
}
