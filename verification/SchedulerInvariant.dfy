/** The scheduler's central invariant and the proof that every step keeps it. */
module SchedulerInvariant {
  import opened Domain
  import opened Digraph
  import opened Kahn
  import opened DagBuilder
  import opened ReadyQueues
  import opened ResourcePools
  import opened SchedulerModel

  // ---- the invariant ----

  predicate RetryableFailure(a: Attempt) {
    a.finalState.Failed? && IsRetryable(a.kind)
  }

  predicate AllRetryable(attempts: seq<Attempt>) {
    forall k :: 0 <= k < |attempts| ==> RetryableFailure(attempts[k])
  }

  predicate NumberedUpTo(attempts: seq<Attempt>, n: nat) {
    forall k :: 0 <= k < |attempts| && k < n ==> attempts[k].number == k + 1
  }

  function LastNumber(node: Node): int {
    if node.attempts < 1 then 1 else node.attempts
  }

  /** The record that closes a task's history. */
  predicate Closes(a: Attempt, node: Node, finalState: TaskState) {
    a.finalState == finalState && a.number == LastNumber(node)
  }

  /** Attempts are numbered 1..k, all but the last are retryable failures, and one more record than
      launches exists only for a task that was resolved without launching it again. */
  predicate HistoryOk(node: Node, attempts: seq<Attempt>) {
    && NumberedUpTo(attempts, node.attempts)
    && match node.state
       case Pending => attempts == [] && node.attempts == 0
       case Skipped => attempts == [] && node.attempts == 0
       case Ready => |attempts| == node.attempts && AllRetryable(attempts)
       case Running => |attempts| + 1 == node.attempts && AllRetryable(attempts)
       case Cancelled => |attempts| == node.attempts && (attempts != [] ==> AllRetryable(attempts[..|attempts| - 1]))
       case Succeeded =>
         && |attempts| == node.attempts >= 1 && AllRetryable(attempts[..|attempts| - 1])
         && Closes(attempts[|attempts| - 1], node, Succeeded)
       case Cached =>
         && |attempts| == node.attempts + 1 && AllRetryable(attempts[..|attempts| - 1])
         && Closes(attempts[|attempts| - 1], node, Cached)
       case Failed =>
         && attempts != [] && AllRetryable(attempts[..|attempts| - 1])
         && Closes(attempts[|attempts| - 1], node, Failed)
         && (|attempts| == node.attempts ||
             (|attempts| == node.attempts + 1 &&
              (attempts[|attempts| - 1].kind.MissingInput? || attempts[|attempts| - 1].kind.StartFailure?)))
  }

  /** What is true of each task by itself. */
  predicate NodeOk(task: Task, node: Node, run: TaskRun, cancelling: bool) {
    && run.state == node.state
    && HistoryOk(node, run.attempts)
    && node.attempts <= MaxAttempts(task.retry) && |run.attempts| <= MaxAttempts(task.retry)
    && (node.state.Ready? ==> node.attempts < MaxAttempts(task.retry))
    && (node.waiting ==> node.state.Ready? && node.attempts >= 1)
    && (node.hasReservation <==> node.state.Running?)
    && (node.hasReservation ==> node.reserved == task.resources)
    && (node.remaining > 0 ==> node.state.Pending? || node.state.Skipped? || node.state.Cancelled?)
    && (cancelling ==> !node.state.Pending? && !node.state.Ready?)
    && (!cancelling && (node.state.Pending? || node.state.Cancelled?) ==> (node.remaining > 0 <==> node.state.Pending?))
  }

  ghost predicate OkAt(c: Config, s: State, v: nat)
    requires v < |c.tasks| && v < |s.nodes| && v < |s.runs|
  {
    NodeOk(c.tasks[v], s.nodes[v], s.runs[v], s.cancelling)
  }

  ghost predicate NodesOk(c: Config, s: State)
    requires Shape(c, s)
  {
    forall v: nat :: v < |s.nodes| ==> OkAt(c, s, v)
  }

  /** Direct predecessors that are not success-like. */
  ghost function Unmet(c: Config, nodes: seq<Node>, w: nat): set<nat>
    requires w < |c.dag.pred|
  {
    set u: nat | u in c.dag.pred[w] && u < |nodes| && !IsSuccessLike(nodes[u].state)
  }

  ghost predicate Counters(c: Config, nodes: seq<Node>) {
    |nodes| == |c.dag.pred| && forall w: nat :: w < |nodes| ==> nodes[w].remaining == |Unmet(c, nodes, w)|
  }

  predicate Broken(state: TaskState) {
    state.Failed? || state.Skipped?
  }

  /** Skipping is complete and never gratuitous. */
  ghost predicate SkipOk(succ: Adjacency, nodes: seq<Node>) {
    && |nodes| == |succ|
    && (forall u: nat, w: nat :: Edge(succ, u, w) && w < |nodes| && Broken(nodes[u].state) ==> nodes[w].state.Skipped?)
    && (forall w: nat :: w < |nodes| && nodes[w].state.Skipped? ==> HasBrokenPred(succ, nodes, w))
  }

  ghost predicate HasBrokenPred(succ: Adjacency, nodes: seq<Node>, w: nat) {
    exists u: nat :: Edge(succ, u, w) && u < |nodes| && Broken(nodes[u].state)
  }

  predicate Queueable(node: Node) {
    node.state.Ready? && !node.waiting
  }

  ghost predicate Queued(q: seq<ReadyEntry>, v: nat) {
    exists e :: e in q && e.node == v
  }

  /** READY and not behind a timer means: in the queue, once, at its place. */
  ghost predicate QueueOk(c: Config, nodes: seq<Node>, q: seq<ReadyEntry>) {
    && |nodes| == |c.tasks| == |c.dag.nodes|
    && (forall e :: e in q ==> e.node < |nodes| && e == EntryFor(c, e.node, e.readySince) && Queueable(nodes[e.node]))
    && (forall v: nat :: v < |nodes| && Queueable(nodes[v]) ==> Queued(q, v))
    && DistinctIds(q) && Sorted(q)
  }

  function RunningNodes(nodes: seq<Node>): set<nat> {
    set v: nat | v < |nodes| && nodes[v].state.Running?
  }

  function Load(task: Task, node: Node): Resources {
    if node.state.Running? then task.resources else NO_RESOURCES
  }

  function Loads(c: Config, nodes: seq<Node>): seq<Resources>
    requires |nodes| == |c.tasks|
  {
    seq(|nodes|, v requires 0 <= v < |nodes| => Load(c.tasks[v], nodes[v]))
  }

  function Sum(loads: seq<Resources>): Resources {
    if loads == [] then NO_RESOURCES else Plus(Sum(loads[..|loads| - 1]), loads[|loads| - 1])
  }

  /** Slots and reservations in use are exactly those of the RUNNING tasks. */
  ghost predicate Accounted(c: Config, s: State)
    requires Shape(c, s)
  {
    && s.running == |RunningNodes(s.nodes)|
    && s.running <= c.maxConcurrency
    && (NonNegativeTasks(c) ==> s.used == Sum(Loads(c, s.nodes)))
    && (NonNegativeTasks(c) && s.running > 0 ==> FitsWithin(s.used, c.capacity))
  }

  ghost predicate Inv(c: Config, s: State) {
    && Shape(c, s)
    && NodesOk(c, s)
    && Counters(c, s.nodes)
    && SkipOk(c.dag.succ, s.nodes)
    && QueueOk(c, s.nodes, s.queue)
    && Accounted(c, s)
  }

  // ---- accounting ----

  lemma {:induction false} SumUpdate(loads: seq<Resources>, v: nat, r: Resources)
    requires v < |loads|
    ensures Plus(Sum(loads[v := r]), loads[v]) == Plus(Sum(loads), r)
    decreases |loads|
  {
    var last := |loads| - 1;
    if v == last {
      assert loads[v := r][..last] == loads[..last];
    } else {
      SumUpdate(loads[..last], v, r);
      assert loads[v := r][..last] == loads[..last][v := r];
    }
  }

  lemma {:induction false} SumNonNegative(loads: seq<Resources>)
    requires forall k :: 0 <= k < |loads| ==> NonNegative(loads[k])
    ensures NonNegative(Sum(loads))
    decreases |loads|
  {
    if loads != [] { SumNonNegative(loads[..|loads| - 1]); }
  }

  lemma {:induction false} SumZero(n: nat, loads: seq<Resources>)
    requires |loads| == n && forall k :: 0 <= k < n ==> loads[k] == NO_RESOURCES
    ensures Sum(loads) == NO_RESOURCES
    decreases n
  {
    if n > 0 { SumZero(n - 1, loads[..n - 1]); }
  }

  ghost predicate SameRunning(nodes: seq<Node>, nodes': seq<Node>) {
    |nodes| == |nodes'| && forall v: nat :: v < |nodes| ==> (nodes[v].state.Running? <==> nodes'[v].state.Running?)
  }

  lemma AccountedFrame(c: Config, s: State, t: State)
    requires Shape(c, s) && Shape(c, t) && Accounted(c, s)
    requires SameRunning(s.nodes, t.nodes) && t.running == s.running && t.used == s.used
    ensures Accounted(c, t)
  {
    assert RunningNodes(t.nodes) == RunningNodes(s.nodes);
    assert Loads(c, t.nodes) == Loads(c, s.nodes);
  }

  /** Starting v adds exactly its requirement. */
  lemma AccountedStart(c: Config, s: State, t: State, v: nat)
    requires Shape(c, s) && Shape(c, t) && Accounted(c, s)
    requires v < |s.nodes| && !s.nodes[v].state.Running? && t.nodes[v].state.Running?
    requires forall w: nat :: w < |s.nodes| && w != v ==> (s.nodes[w].state.Running? <==> t.nodes[w].state.Running?)
    requires t.running == s.running + 1 <= c.maxConcurrency && t.used == Plus(s.used, Request(c, v))
    requires Fits(s.used, Request(c, v), c.capacity)
    ensures Accounted(c, t)
  {
    assert RunningNodes(t.nodes) == RunningNodes(s.nodes) + {v};
    var loads := Loads(c, s.nodes);
    assert Loads(c, t.nodes) == loads[v := Request(c, v)];
    SumUpdate(loads, v, Request(c, v));
  }

  /** Stopping v gives exactly its requirement back; the clamp in release changes nothing. */
  lemma AccountedStop(c: Config, s: State, t: State, v: nat)
    requires Shape(c, s) && Shape(c, t) && Accounted(c, s)
    requires v < |s.nodes| && s.nodes[v].state.Running? && !t.nodes[v].state.Running?
    requires forall w: nat :: w < |s.nodes| && w != v ==> (s.nodes[w].state.Running? <==> t.nodes[w].state.Running?)
    requires t.running == (if s.running > 0 then s.running - 1 else 0) && t.used == Released(s.used, Request(c, v))
    ensures Accounted(c, t)
    ensures t.running == s.running - 1
    ensures NonNegativeTasks(c) ==> Plus(t.used, Request(c, v)) == s.used
  {
    assert RunningNodes(s.nodes) == RunningNodes(t.nodes) + {v};
    if NonNegativeTasks(c) { ReleasedLoad(c, s.nodes, t.nodes, v); }
  }

  lemma ReleasedLoad(c: Config, nodes: seq<Node>, nodes': seq<Node>, v: nat)
    requires |nodes| == |nodes'| == |c.tasks| && NonNegativeTasks(c)
    requires v < |nodes| && nodes[v].state.Running? && !nodes'[v].state.Running?
    requires forall w: nat :: w < |nodes| && w != v ==> (nodes[w].state.Running? <==> nodes'[w].state.Running?)
    ensures Plus(Sum(Loads(c, nodes')), Request(c, v)) == Sum(Loads(c, nodes))
    ensures Released(Sum(Loads(c, nodes)), Request(c, v)) == Sum(Loads(c, nodes'))
    ensures NonNegative(Sum(Loads(c, nodes')))
  {
    var loads, loads' := Loads(c, nodes), Loads(c, nodes');
    assert loads' == loads[v := NO_RESOURCES];
    SumUpdate(loads, v, NO_RESOURCES);
    SumNonNegative(loads');
    ReleaseUndoesReserve(Sum(loads'), Request(c, v));
  }

  // ---- counters ----

  ghost predicate SameSuccess(nodes: seq<Node>, nodes': seq<Node>) {
    && |nodes| == |nodes'|
    && forall v: nat :: v < |nodes| ==>
         && nodes'[v].remaining == nodes[v].remaining
         && (IsSuccessLike(nodes'[v].state) <==> IsSuccessLike(nodes[v].state))
  }

  lemma CountersFrame(c: Config, nodes: seq<Node>, nodes': seq<Node>)
    requires Counters(c, nodes) && SameSuccess(nodes, nodes')
    ensures Counters(c, nodes')
  {
    forall w: nat | w < |nodes'| ensures nodes'[w].remaining == |Unmet(c, nodes', w)| {
      assert Unmet(c, nodes', w) == Unmet(c, nodes, w);
    }
  }

  lemma NoSelfEdge(c: Config, v: nat)
    requires ValidConfig(c)
    ensures !Edge(c.dag.succ, v, v)
  {
    MirroredInRange(c.dag.succ, c.dag.pred);
    KahnOrderAcyclic(c.dag.succ, c.dag.topo);
    if Edge(c.dag.succ, v, v) { EdgeReaches(c.dag.succ, v, v); }
  }

  lemma CounterDrops(c: Config, nodes: seq<Node>, v: nat, nodes': seq<Node>, w: nat)
    requires ValidConfig(c) && Counters(c, nodes) && v < |nodes| == |nodes'| && w < |nodes|
    requires !IsSuccessLike(nodes[v].state) && IsSuccessLike(nodes'[v].state)
    requires forall u: nat :: u < |nodes| && u != v ==>
               (IsSuccessLike(nodes'[u].state) <==> IsSuccessLike(nodes[u].state))
    ensures |Unmet(c, nodes', w)| == nodes[w].remaining - (if w in c.dag.succ[v] then 1 else 0)
  {
    assert Edge(c.dag.succ, v, w) <==> Edge(c.dag.pred, w, v);
    assert Unmet(c, nodes', w) == Unmet(c, nodes, w) - {v};
    assert v in Unmet(c, nodes, w) <==> w in c.dag.succ[v];
  }

  /** When v becomes success-like, each dependent's counter drops by exactly one. */
  lemma CountersPropagate(c: Config, nodes: seq<Node>, v: nat, done: Node, cancelling: bool)
    requires ValidConfig(c) && Counters(c, nodes) && v < |nodes|
    requires !IsSuccessLike(nodes[v].state) && IsSuccessLike(done.state) && done.remaining == nodes[v].remaining
    ensures Counters(c, Propagated(nodes[v := done], cancelling, c.dag.succ[v]))
  {
    var nodes' := Propagated(nodes[v := done], cancelling, c.dag.succ[v]);
    NoSelfEdge(c, v);
    forall w: nat | w < |nodes'| ensures nodes'[w].remaining == |Unmet(c, nodes', w)| {
      CounterDrops(c, nodes, v, nodes', w);
    }
  }

  /** A positive counter is an unmet predecessor, and conversely. */
  lemma UnmetPredecessor(c: Config, nodes: seq<Node>, u: nat, w: nat)
    requires ValidConfig(c) && Counters(c, nodes)
    requires Edge(c.dag.succ, u, w) && !IsSuccessLike(nodes[u].state)
    ensures w < |nodes| && nodes[w].remaining > 0
  {
    assert Edge(c.dag.pred, w, u);
    assert u in Unmet(c, nodes, w);
  }

  // ---- what lies downstream of an unfinished task ----

  lemma {:induction false} PathBlocked(c: Config, s: State, u: nat, via: seq<nat>, w: nat)
    requires Inv(c, s) && u < |s.nodes| && !IsSuccessLike(s.nodes[u].state)
    requires Path(c.dag.succ, u, via, w)
    ensures w < |s.nodes| && s.nodes[w].remaining > 0
    decreases |via|
  {
    if via == [] {
      UnmetPredecessor(c, s.nodes, u, w);
    } else {
      UnmetPredecessor(c, s.nodes, u, via[0]);
      assert OkAt(c, s, via[0]);
      PathBlocked(c, s, via[0], via[1..], w);
    }
  }

  /** Nothing downstream of a task that is not success-like has started. */
  lemma DescendantBlocked(c: Config, s: State, u: nat, w: nat)
    requires Inv(c, s) && u < |s.nodes| && !IsSuccessLike(s.nodes[u].state) && Reaches(c.dag.succ, u, w)
    ensures w < |s.nodes| && s.nodes[w].remaining > 0
    ensures s.nodes[w].state.Pending? || s.nodes[w].state.Skipped? || s.nodes[w].state.Cancelled?
    ensures !s.cancelling ==> s.nodes[w].state.Pending? || s.nodes[w].state.Skipped?
    ensures !s.nodes[w].waiting
  {
    var via :| Path(c.dag.succ, u, via, w);
    PathBlocked(c, s, u, via, w);
    assert OkAt(c, s, w);
  }

  // ---- the queue ----

  lemma QueueFrame(c: Config, nodes: seq<Node>, nodes': seq<Node>, q: seq<ReadyEntry>)
    requires QueueOk(c, nodes, q) && |nodes'| == |nodes|
    requires forall v: nat :: v < |nodes| ==> (Queueable(nodes'[v]) <==> Queueable(nodes[v]))
    ensures QueueOk(c, nodes', q)
  {
  }

  lemma QueueRemove(c: Config, nodes: seq<Node>, nodes': seq<Node>, q: seq<ReadyEntry>, v: nat)
    requires ValidConfig(c) && QueueOk(c, nodes, q) && |nodes'| == |nodes| && v < |nodes|
    requires !Queueable(nodes'[v])
    requires forall w: nat :: w < |nodes| && w != v ==> (Queueable(nodes'[w]) <==> Queueable(nodes[w]))
    ensures QueueOk(c, nodes', RemoveId(q, c.dag.nodes[v]))
  {
    var id := c.dag.nodes[v];
    var q' := RemoveId(q, id);
    RemoveIdMembers(q, id);
    RemoveIdKeepsOrder(q, id);
    forall w: nat | w < |nodes'| && Queueable(nodes'[w]) ensures Queued(q', w) {
      var e :| e in q && e.node == w;
      assert e.taskId == c.dag.nodes[w] != id;
      assert e in q';
    }
    forall e | e in q'
      ensures e.node < |nodes'| && e == EntryFor(c, e.node, e.readySince) && Queueable(nodes'[e.node])
    {
      assert e in q && e.taskId != id;
    }
  }

  lemma EntriesDistinct(c: Config, es: seq<ReadyEntry>, added: seq<nat>)
    requires ValidConfig(c) && EntriesFor(c, es, added) && Distinct(added)
    ensures DistinctIds(es)
  {
  }

  /** Entries of tasks that are not queued yet clash with no queued id. */
  lemma EntriesFresh(c: Config, nodes: seq<Node>, q: seq<ReadyEntry>, es: seq<ReadyEntry>, added: seq<nat>, x: ReadyEntry)
    requires ValidConfig(c) && QueueOk(c, nodes, q) && EntriesFor(c, es, added) && x in es
    requires forall w :: w in added ==> w < |nodes| && !Queueable(nodes[w])
    ensures x.node in added && x.node < |nodes| && x == EntryFor(c, x.node, x.readySince) && !HasId(q, x.taskId)
  {
    var k :| 0 <= k < |es| && es[k] == x;
    assert added[k] in added;
    forall e | e in q ensures e.taskId != x.taskId {
      assert Queueable(nodes[e.node]);
    }
  }

  lemma AddedAreQueued(c: Config, q: seq<ReadyEntry>, es: seq<ReadyEntry>, added: seq<nat>, w: nat)
    requires EntriesFor(c, es, added) && w in added
    ensures Queued(InsertAll(q, es), w)
  {
    var k :| 0 <= k < |added| && added[k] == w;
    assert es[k] in es && es[k].node == w;
    assert es[k] in InsertAll(q, es);
  }

  lemma QueueAdd(c: Config, nodes: seq<Node>, nodes': seq<Node>, q: seq<ReadyEntry>, es: seq<ReadyEntry>, added: seq<nat>)
    requires ValidConfig(c) && QueueOk(c, nodes, q) && |nodes'| == |nodes|
    requires EntriesFor(c, es, added) && Distinct(added)
    requires forall w :: w in added ==> w < |nodes| && !Queueable(nodes[w])
    requires forall w: nat :: w < |nodes| ==> (Queueable(nodes'[w]) <==> Queueable(nodes[w]) || w in added)
    ensures QueueOk(c, nodes', InsertAll(q, es))
  {
    var q' := InsertAll(q, es);
    EntriesDistinct(c, es, added);
    forall x | x in es
      ensures x.node in added && x.node < |nodes| && x == EntryFor(c, x.node, x.readySince) && !HasId(q, x.taskId)
    {
      EntriesFresh(c, nodes, q, es, added, x);
    }
    InsertAllKeepsOrder(q, es);
    forall w: nat | w < |nodes'| && Queueable(nodes'[w]) ensures Queued(q', w) {
      if w in added {
        AddedAreQueued(c, q, es, added, w);
      } else {
        var e :| e in q && e.node == w;
        assert e in q';
      }
    }
  }

  lemma QueuedIsOk(c: Config, s: State, i: nat)
    requires Inv(c, s) && i < |s.queue|
    ensures s.queue[i].node < |s.nodes| && Queueable(s.nodes[s.queue[i].node]) && OkAt(c, s, s.queue[i].node)
  {
    assert s.queue[i] in s.queue;
  }

  lemma EntryIsItsNode(c: Config, s: State, i: nat)
    requires Inv(c, s) && i < |s.queue|
    ensures s.queue[i].node < |s.nodes| && Queueable(s.nodes[s.queue[i].node])
    ensures s.queue[i].taskId == c.dag.nodes[s.queue[i].node]
  {
    assert s.queue[i] in s.queue;
  }
}
