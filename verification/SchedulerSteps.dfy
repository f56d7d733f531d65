/** Every step of the scheduler keeps the invariant. */
module SchedulerSteps {
  import opened Domain
  import opened Digraph
  import opened Kahn
  import opened DagBuilder
  import opened ReadyQueues
  import opened ResourcePools
  import opened SchedulerModel
  import opened SchedulerInvariant

  lemma SkipFrame(succ: Adjacency, nodes: seq<Node>, nodes': seq<Node>)
    requires SkipOk(succ, nodes) && |nodes'| == |nodes|
    requires forall v: nat :: v < |nodes| ==> (Broken(nodes'[v].state) <==> Broken(nodes[v].state))
    requires forall v: nat :: v < |nodes| ==> (nodes'[v].state.Skipped? <==> nodes[v].state.Skipped?)
    ensures SkipOk(succ, nodes')
  {
    forall w: nat | w < |nodes'| && nodes'[w].state.Skipped? ensures HasBrokenPred(succ, nodes', w) {
      assert HasBrokenPred(succ, nodes, w);
    }
  }

  // ---- one task at a time ----

  function WithAttempt(node: Node, run: TaskRun, finalState: TaskState, kind: ResultKind, state: TaskState): TaskRun {
    TaskRun(state, run.attempts + [Attempt(LastNumber(node), finalState, kind)])
  }

  lemma LaunchOk(task: Task, node: Node, run: TaskRun)
    requires NodeOk(task, node, run, false) && Queueable(node)
    ensures NodeOk(task, node.(state := Running, attempts := node.attempts + 1,
                               reserved := task.resources, hasReservation := true),
                   run.(state := Running), false)
  {
  }

  lemma CachedOk(task: Task, node: Node, run: TaskRun)
    requires NodeOk(task, node, run, false) && Queueable(node)
    ensures NodeOk(task, node.(state := Cached), WithAttempt(node, run, Cached, SucceededResult, Cached), false)
  {
    var attempts := WithAttempt(node, run, Cached, SucceededResult, Cached).attempts;
    assert attempts[..|attempts| - 1] == run.attempts;
  }

  lemma FailedInlineOk(task: Task, node: Node, run: TaskRun, kind: ResultKind)
    requires NodeOk(task, node, run, false) && Queueable(node) && (kind.MissingInput? || kind.StartFailure?)
    ensures NodeOk(task, node.(state := Failed), WithAttempt(node, run, Failed, kind, Failed), false)
  {
    var attempts := WithAttempt(node, run, Failed, kind, Failed).attempts;
    assert attempts[..|attempts| - 1] == run.attempts;
  }

  lemma SucceededOk(task: Task, node: Node, run: TaskRun, cancelling: bool)
    requires NodeOk(task, node, run, cancelling) && node.state.Running?
    ensures NodeOk(task, node.(hasReservation := false, state := Succeeded),
                   WithAttempt(node, run, Succeeded, SucceededResult, Succeeded), cancelling)
  {
    var attempts := WithAttempt(node, run, Succeeded, SucceededResult, Succeeded).attempts;
    assert attempts[..|attempts| - 1] == run.attempts;
  }

  lemma FailedOk(task: Task, node: Node, run: TaskRun, kind: ResultKind)
    requires NodeOk(task, node, run, false) && node.state.Running?
    ensures NodeOk(task, node.(hasReservation := false, state := Failed),
                   WithAttempt(node, run, Failed, kind, Failed), false)
  {
    var attempts := WithAttempt(node, run, Failed, kind, Failed).attempts;
    assert attempts[..|attempts| - 1] == run.attempts;
  }

  lemma CancelledOk(task: Task, node: Node, run: TaskRun, kind: ResultKind, cancelling: bool)
    requires NodeOk(task, node, run, cancelling) && node.state.Running?
    ensures NodeOk(task, node.(hasReservation := false, state := Cancelled),
                   WithAttempt(node, run, Failed, kind, Cancelled), cancelling)
  {
    var attempts := WithAttempt(node, run, Failed, kind, Cancelled).attempts;
    assert attempts[..|attempts| - 1] == run.attempts;
  }

  lemma RetriedOk(task: Task, node: Node, run: TaskRun, kind: ResultKind, notBefore: int)
    requires NodeOk(task, node, run, false) && node.state.Running?
    requires IsRetryable(kind) && ShouldRetry(task.retry, node.attempts)
    ensures NodeOk(task, node.(hasReservation := false, state := Ready, waiting := true, notBefore := notBefore),
                   WithAttempt(node, run, Failed, kind, Ready), false)
  {
  }

  lemma CancelNodeOk(task: Task, node: Node, run: TaskRun)
    requires NodeOk(task, node, run, false)
    ensures NodeOk(task, CancelNode(node), run.(state := CancelNode(node).state), true)
  {
  }

  /** A dependent keeps its own invariant when its counter drops. */
  lemma DecrementedOk(task: Task, node: Node, run: TaskRun, cancelling: bool)
    requires NodeOk(task, node, run, cancelling) && node.remaining > 0
    ensures NodeOk(task, Decremented(node, cancelling), run.(state := Decremented(node, cancelling).state), cancelling)
  {
  }

  lemma PromotedOk(task: Task, node: Node, run: TaskRun)
    requires NodeOk(task, node, run, false) && node.waiting
    ensures NodeOk(task, node.(waiting := false), run, false)
  {
  }

  /** The history of a task that no step touched. */
  lemma SyncedSame(c: Config, s: State, runs: seq<TaskRun>, nodes: seq<Node>, w: nat)
    requires Shape(c, s) && NodesOk(c, s) && |runs| == |s.runs| == |nodes| && w < |nodes|
    requires nodes[w] == s.nodes[w] && runs[w] == s.runs[w]
    ensures OkAt(c, s, w) && Synced(runs, nodes)[w] == s.runs[w]
  {
    assert OkAt(c, s, w);
  }

  // ---- launch ----

  lemma LaunchNodes(c: Config, s: State, i: nat)
    requires Inv(c, s) && Enabled(c, s, Launch(i))
    ensures Shape(c, Launched(c, s, i)) && NodesOk(c, Launched(c, s, i))
  {
    var t := Launched(c, s, i);
    var v := s.queue[i].node;
    EntryIsItsNode(c, s, i);
    assert OkAt(c, s, v);
    LaunchOk(c.tasks[v], s.nodes[v], s.runs[v]);
    forall w: nat | w < |t.nodes| && w != v ensures OkAt(c, t, w) {
      SyncedSame(c, s, s.runs, t.nodes, w);
    }
  }

  lemma LaunchKeepsInv(c: Config, s: State, i: nat)
    requires Inv(c, s) && Enabled(c, s, Launch(i))
    ensures Inv(c, Launched(c, s, i))
  {
    var t := Launched(c, s, i);
    var v := s.queue[i].node;
    EntryIsItsNode(c, s, i);
    LaunchNodes(c, s, i);
    CountersFrame(c, s.nodes, t.nodes);
    SkipFrame(c.dag.succ, s.nodes, t.nodes);
    QueueRemove(c, s.nodes, t.nodes, s.queue, v);
    AccountedStart(c, s, t, v);
  }

  // ---- a task becomes success-like ----

  /** Facts about the dependents of a task that has not succeeded yet. */
  lemma DependentFacts(c: Config, s: State, v: nat)
    requires Inv(c, s) && v < |s.nodes| && !IsSuccessLike(s.nodes[v].state)
    ensures v !in c.dag.succ[v] && Distinct(c.dag.succ[v])
    ensures AllBelow(c.dag.succ[v], |s.nodes|)
    ensures forall w :: w in c.dag.succ[v] ==> s.nodes[w].remaining > 0
  {
    NoSelfEdge(c, v);
    assert v in c.dag.succ[v] ==> Edge(c.dag.succ, v, v);
    forall w | w in c.dag.succ[v] ensures w < |s.nodes| && s.nodes[w].remaining > 0 {
      assert Edge(c.dag.succ, v, w);
      UnmetPredecessor(c, s.nodes, v, w);
    }
  }

  /** Everyone but v, when v becomes success-like. */
  lemma PropagatedNodes(c: Config, s: State, v: nat, done: Node, runs: seq<TaskRun>, w: nat)
    requires Inv(c, s) && v < |s.nodes| && !IsSuccessLike(s.nodes[v].state)
    requires |runs| == |s.runs| && w < |s.nodes| && w != v && runs[w] == s.runs[w]
    ensures var nodes := Propagated(s.nodes[v := done], s.cancelling, c.dag.succ[v]);
            NodeOk(c.tasks[w], nodes[w], Synced(runs, nodes)[w], s.cancelling)
  {
    DependentFacts(c, s, v);
    assert OkAt(c, s, w);
    if w in c.dag.succ[v] { DecrementedOk(c.tasks[w], s.nodes[w], s.runs[w], s.cancelling); }
  }

  /** Which tasks a success makes queueable. */
  lemma PropagatedQueueable(c: Config, s: State, v: nat, done: Node, w: nat)
    requires Inv(c, s) && v < |s.nodes| && !IsSuccessLike(s.nodes[v].state) && w < |s.nodes| && w != v
    requires AllBelow(c.dag.succ[v], |s.nodes|)
    ensures var nodes := Propagated(s.nodes[v := done], s.cancelling, c.dag.succ[v]);
            var added := UnlockedNodes(s.nodes, s.cancelling, c.dag.succ[v]);
            && (Queueable(nodes[w]) <==> Queueable(s.nodes[w]) || w in added)
            && (w in added ==> !Queueable(s.nodes[w]))
            && (Broken(nodes[w].state) <==> Broken(s.nodes[w].state))
            && (nodes[w].state.Skipped? <==> s.nodes[w].state.Skipped?)
            && (nodes[w].state.Running? <==> s.nodes[w].state.Running?)
  {
    DependentFacts(c, s, v);
    assert OkAt(c, s, w);
  }

  /** Everyone is in order after a success, once the task itself is. */
  lemma PropagatedAllOk(c: Config, s: State, v: nat, done: Node, runs: seq<TaskRun>, t: State)
    requires Inv(c, s) && v < |s.nodes| && !IsSuccessLike(s.nodes[v].state)
    requires |runs| == |s.runs| && forall w: nat :: w < |s.runs| && w != v ==> runs[w] == s.runs[w]
    requires t.nodes == Propagated(s.nodes[v := done], s.cancelling, c.dag.succ[v])
    requires t.runs == Synced(runs, t.nodes) && t.cancelling == s.cancelling && OkAt(c, t, v)
    ensures forall w: nat :: w < |t.nodes| ==> OkAt(c, t, w)
  {
    forall w: nat | w < |t.nodes| && w != v ensures OkAt(c, t, w) {
      PropagatedNodes(c, s, v, done, runs, w);
    }
  }

  /** v becomes success-like and records its attempt; everyone is in order if v is. */
  lemma SuccessNodes(c: Config, s: State, v: nat, done: Node, t: State)
    requires Inv(c, s) && v < |s.nodes| && !IsSuccessLike(s.nodes[v].state)
    requires t.nodes == Propagated(s.nodes[v := done], s.cancelling, c.dag.succ[v]) && t.cancelling == s.cancelling
    requires t.runs == Synced(Recorded(s.nodes, s.runs, v, done.state, SucceededResult), t.nodes)
    requires forall w: nat :: w == v ==> OkAt(c, t, w)
    ensures forall w: nat :: w < |t.nodes| ==> OkAt(c, t, w)
  {
    assert OkAt(c, t, v);
    PropagatedAllOk(c, s, v, done, Recorded(s.nodes, s.runs, v, done.state, SucceededResult), t);
  }

  lemma HitState(c: Config, s: State, i: nat, unlocked: seq<ReadyEntry>)
    requires Inv(c, s) && Enabled(c, s, CacheHit(i, unlocked))
    ensures var v := s.queue[i].node; var t := HitCache(c, s, i, unlocked);
      && t.nodes == Propagated(s.nodes[v := s.nodes[v].(state := Cached)], s.cancelling, c.dag.succ[v])
      && t.runs == Synced(Recorded(s.nodes, s.runs, v, Cached, SucceededResult), t.nodes)
      && t.cancelling == s.cancelling
  {
  }

  lemma HitNodes(c: Config, s: State, i: nat, unlocked: seq<ReadyEntry>)
    requires Inv(c, s) && Enabled(c, s, CacheHit(i, unlocked))
    ensures var t := HitCache(c, s, i, unlocked); forall w: nat :: w < |t.nodes| ==> OkAt(c, t, w)
  {
    var v := s.queue[i].node;
    EntryIsItsNode(c, s, i);
    HitState(c, s, i, unlocked);
    var t := HitCache(c, s, i, unlocked);
    forall w: nat | w == v ensures OkAt(c, t, w) { HitSelf(c, s, i, unlocked); }
    SuccessNodes(c, s, v, s.nodes[v].(state := Cached), t);
  }

  lemma HitSelf(c: Config, s: State, i: nat, unlocked: seq<ReadyEntry>)
    requires Inv(c, s) && Enabled(c, s, CacheHit(i, unlocked))
    ensures OkAt(c, HitCache(c, s, i, unlocked), s.queue[i].node)
  {
    var v := s.queue[i].node;
    EntryIsItsNode(c, s, i);
    DependentFacts(c, s, v);
    assert OkAt(c, s, v);
    CachedOk(c.tasks[v], s.nodes[v], s.runs[v]);
  }

  /** The queue once the dependents of v are in it, v itself being looked at as it was. */
  lemma PropagatedQueue(c: Config, s: State, v: nat, done: Node, unlocked: seq<ReadyEntry>)
    requires Inv(c, s) && v < |s.nodes| && !IsSuccessLike(s.nodes[v].state)
    requires AllBelow(c.dag.succ[v], |s.nodes|)
    requires EntriesFor(c, unlocked, UnlockedNodes(s.nodes, s.cancelling, c.dag.succ[v]))
    ensures var nodes := Propagated(s.nodes[v := done], s.cancelling, c.dag.succ[v]);
            QueueOk(c, nodes[v := s.nodes[v]], InsertAll(s.queue, unlocked))
  {
    var nodes := Propagated(s.nodes[v := done], s.cancelling, c.dag.succ[v]);
    var mid := nodes[v := s.nodes[v]];
    var added := UnlockedNodes(s.nodes, s.cancelling, c.dag.succ[v]);
    DependentFacts(c, s, v);
    forall w: nat | w < |s.nodes|
      ensures (Queueable(mid[w]) <==> Queueable(s.nodes[w]) || w in added) && (w in added ==> !Queueable(s.nodes[w]))
    {
      if w != v { PropagatedQueueable(c, s, v, done, w); }
    }
    QueueAdd(c, s.nodes, mid, s.queue, unlocked, added);
  }

  lemma HitQueue(c: Config, s: State, i: nat, unlocked: seq<ReadyEntry>)
    requires Inv(c, s) && Enabled(c, s, CacheHit(i, unlocked))
    ensures QueueOk(c, HitCache(c, s, i, unlocked).nodes, HitCache(c, s, i, unlocked).queue)
  {
    var v := s.queue[i].node;
    var t := HitCache(c, s, i, unlocked);
    EntryIsItsNode(c, s, i);
    DependentFacts(c, s, v);
    PropagatedQueue(c, s, v, s.nodes[v].(state := Cached), unlocked);
    QueueRemove(c, t.nodes[v := s.nodes[v]], t.nodes, InsertAll(s.queue, unlocked), v);
  }

  lemma PropagatedFrames(c: Config, s: State, v: nat, done: Node)
    requires Inv(c, s) && v < |s.nodes| && !IsSuccessLike(s.nodes[v].state)
    requires !Broken(s.nodes[v].state) && IsSuccessLike(done.state) && done.remaining == s.nodes[v].remaining
    ensures var nodes := Propagated(s.nodes[v := done], s.cancelling, c.dag.succ[v]);
            && Counters(c, nodes) && SkipOk(c.dag.succ, nodes)
            && forall w: nat :: w < |nodes| && w != v ==> (s.nodes[w].state.Running? <==> nodes[w].state.Running?)
  {
    var nodes := Propagated(s.nodes[v := done], s.cancelling, c.dag.succ[v]);
    DependentFacts(c, s, v);
    CountersPropagate(c, s.nodes, v, done, s.cancelling);
    forall w: nat | w < |nodes| && w != v
      ensures Broken(nodes[w].state) <==> Broken(s.nodes[w].state)
      ensures nodes[w].state.Skipped? <==> s.nodes[w].state.Skipped?
      ensures s.nodes[w].state.Running? <==> nodes[w].state.Running?
    {
      PropagatedQueueable(c, s, v, done, w);
    }
    SkipFrame(c.dag.succ, s.nodes, nodes);
  }

  lemma HitKeepsInv(c: Config, s: State, i: nat, unlocked: seq<ReadyEntry>)
    requires Inv(c, s) && Enabled(c, s, CacheHit(i, unlocked))
    ensures Inv(c, HitCache(c, s, i, unlocked))
  {
    var t := HitCache(c, s, i, unlocked);
    HitNodes(c, s, i, unlocked);
    HitQueue(c, s, i, unlocked);
    assert Shape(c, t);
    HitFrames(c, s, i, unlocked);
  }

  lemma HitFrames(c: Config, s: State, i: nat, unlocked: seq<ReadyEntry>)
    requires Inv(c, s) && Enabled(c, s, CacheHit(i, unlocked)) && Shape(c, HitCache(c, s, i, unlocked))
    ensures var t := HitCache(c, s, i, unlocked);
            Counters(c, t.nodes) && SkipOk(c.dag.succ, t.nodes) && Accounted(c, t)
  {
    var v := s.queue[i].node;
    var t := HitCache(c, s, i, unlocked);
    EntryIsItsNode(c, s, i);
    DependentFacts(c, s, v);
    PropagatedFrames(c, s, v, s.nodes[v].(state := Cached));
    AccountedFrame(c, s, t);
  }

  // ---- a task fails ----

  /** nodes0 may differ from s.nodes at v only (its reservation may be gone). */
  lemma FailingFacts(c: Config, s: State, nodes0: seq<Node>, v: nat, w: nat)
    requires Inv(c, s) && !s.cancelling && v < |s.nodes| && !IsSuccessLike(s.nodes[v].state)
    requires s.nodes[v].state.Ready? || s.nodes[v].state.Running?
    requires |nodes0| == |s.nodes| && nodes0 == s.nodes[v := nodes0[v]] && w < |s.nodes| && w != v
    ensures var nodes := Failing(c.dag.succ, nodes0, v);
            && !Reaches(c.dag.succ, v, v)
            && (Reaches(c.dag.succ, v, w) ==>
                  (s.nodes[w].state.Pending? || s.nodes[w].state.Skipped?) && nodes[w] == s.nodes[w].(state := Skipped))
            && (!Reaches(c.dag.succ, v, w) ==> nodes[w] == s.nodes[w])
  {
    MirroredInRange(c.dag.succ, c.dag.pred);
    KahnOrderAcyclic(c.dag.succ, c.dag.topo);
    if Reaches(c.dag.succ, v, w) { DescendantBlocked(c, s, v, w); }
  }

  lemma FailingOthers(c: Config, s: State, nodes0: seq<Node>, v: nat, runs: seq<TaskRun>, w: nat)
    requires Inv(c, s) && !s.cancelling && v < |s.nodes| && !IsSuccessLike(s.nodes[v].state)
    requires s.nodes[v].state.Ready? || s.nodes[v].state.Running?
    requires |nodes0| == |s.nodes| && nodes0 == s.nodes[v := nodes0[v]] && w < |s.nodes| && w != v
    requires |runs| == |s.runs| && runs[w] == s.runs[w]
    ensures var nodes := Failing(c.dag.succ, nodes0, v);
            NodeOk(c.tasks[w], nodes[w], Synced(runs, nodes)[w], s.cancelling)
  {
    FailingFacts(c, s, nodes0, v, w);
    assert OkAt(c, s, w);
  }

  lemma FailingSkips(c: Config, s: State, nodes0: seq<Node>, v: nat)
    requires Inv(c, s) && !s.cancelling && v < |s.nodes| && !IsSuccessLike(s.nodes[v].state)
    requires s.nodes[v].state.Ready? || s.nodes[v].state.Running?
    requires |nodes0| == |s.nodes| && nodes0 == s.nodes[v := nodes0[v]]
    ensures SkipOk(c.dag.succ, Failing(c.dag.succ, nodes0, v))
  {
    var succ := c.dag.succ;
    var nodes := Failing(succ, nodes0, v);
    MirroredInRange(succ, c.dag.pred);
    KahnOrderAcyclic(succ, c.dag.topo);
    forall u: nat, w: nat | Edge(succ, u, w) && w < |nodes| && Broken(nodes[u].state)
      ensures nodes[w].state.Skipped?
    {
      if u == v { EdgeReaches(succ, v, w); }
      else if Reaches(succ, v, u) { ReachesStep(succ, v, u, w); }
      else { FailingFacts(c, s, nodes0, v, u); }
    }
    forall w: nat | w < |nodes| && nodes[w].state.Skipped? ensures HasBrokenPred(succ, nodes, w) {
      if Reaches(succ, v, w) {
        var u := LastStep(succ, v, w);
        assert Edge(succ, u, w) && Broken(nodes[u].state);
      } else {
        assert HasBrokenPred(succ, s.nodes, w);
        var u: nat :| Edge(succ, u, w) && u < |s.nodes| && Broken(s.nodes[u].state);
        assert Broken(nodes[u].state);
      }
    }
  }

  lemma FailingFrames(c: Config, s: State, nodes0: seq<Node>, v: nat)
    requires Inv(c, s) && !s.cancelling && v < |s.nodes| && !IsSuccessLike(s.nodes[v].state)
    requires s.nodes[v].state.Ready? || s.nodes[v].state.Running?
    requires |nodes0| == |s.nodes| && nodes0 == s.nodes[v := nodes0[v]] && nodes0[v].remaining == s.nodes[v].remaining
    ensures var nodes := Failing(c.dag.succ, nodes0, v);
            && Counters(c, nodes)
            && nodes[v] == nodes0[v].(state := Failed)
            && (forall w: nat :: w < |nodes| && w != v ==> (Queueable(nodes[w]) <==> Queueable(s.nodes[w])))
            && (forall w: nat :: w < |nodes| && w != v ==> (s.nodes[w].state.Running? <==> nodes[w].state.Running?))
  {
    var nodes := Failing(c.dag.succ, nodes0, v);
    MirroredInRange(c.dag.succ, c.dag.pred);
    KahnOrderAcyclic(c.dag.succ, c.dag.topo);
    forall w: nat | w < |nodes| && w != v
      ensures Queueable(nodes[w]) <==> Queueable(s.nodes[w])
      ensures s.nodes[w].state.Running? <==> nodes[w].state.Running?
      ensures nodes[w].remaining == s.nodes[w].remaining
      ensures IsSuccessLike(nodes[w].state) <==> IsSuccessLike(s.nodes[w].state)
    {
      FailingFacts(c, s, nodes0, v, w);
    }
    CountersFrame(c, s.nodes, nodes);
  }

  lemma FailInlineSelf(c: Config, s: State, i: nat, kind: ResultKind)
    requires Inv(c, s) && Enabled(c, s, FailInline(i, kind))
    ensures OkAt(c, FailedInline(c, s, i, kind), s.queue[i].node)
  {
    var v := s.queue[i].node;
    EntryIsItsNode(c, s, i);
    FailingFrames(c, s, s.nodes, v);
    assert OkAt(c, s, v);
    FailedInlineOk(c.tasks[v], s.nodes[v], s.runs[v], kind);
  }

  lemma FailInlineNodes(c: Config, s: State, i: nat, kind: ResultKind)
    requires Inv(c, s) && Enabled(c, s, FailInline(i, kind))
    ensures Shape(c, FailedInline(c, s, i, kind)) && NodesOk(c, FailedInline(c, s, i, kind))
  {
    var t := FailedInline(c, s, i, kind);
    var v := s.queue[i].node;
    EntryIsItsNode(c, s, i);
    FailInlineSelf(c, s, i, kind);
    FailedOthersOk(c, s, s.nodes, Recorded(s.nodes, s.runs, v, Failed, kind), v, t);
  }

  lemma FailInlineKeepsInv(c: Config, s: State, i: nat, kind: ResultKind)
    requires Inv(c, s) && Enabled(c, s, FailInline(i, kind))
    ensures Inv(c, FailedInline(c, s, i, kind))
  {
    var t := FailedInline(c, s, i, kind);
    var v := s.queue[i].node;
    EntryIsItsNode(c, s, i);
    FailInlineNodes(c, s, i, kind);
    FailingFrames(c, s, s.nodes, v);
    FailingSkips(c, s, s.nodes, v);
    QueueRemove(c, s.nodes, t.nodes, s.queue, v);
    AccountedFrame(c, s, t);
  }

  // ---- a process reports ----

  lemma FinishOkKeepsInv(c: Config, s: State, v: nat, notBefore: int, unlocked: seq<ReadyEntry>)
    requires Inv(c, s) && Enabled(c, s, Finish(v, SucceededResult, notBefore, unlocked))
    ensures Inv(c, Finished(c, s, v, SucceededResult, notBefore, unlocked))
  {
    var t := Finished(c, s, v, SucceededResult, notBefore, unlocked);
    FinishOkNodes(c, s, v, notBefore, unlocked);
    FinishOkQueue(c, s, v, notBefore, unlocked);
    assert Shape(c, t);
    FinishOkFrames(c, s, v, notBefore, unlocked);
  }

  lemma FinishOkFrames(c: Config, s: State, v: nat, notBefore: int, unlocked: seq<ReadyEntry>)
    requires Inv(c, s) && Enabled(c, s, Finish(v, SucceededResult, notBefore, unlocked))
    requires Shape(c, Finished(c, s, v, SucceededResult, notBefore, unlocked))
    ensures var t := Finished(c, s, v, SucceededResult, notBefore, unlocked);
            Counters(c, t.nodes) && SkipOk(c.dag.succ, t.nodes) && Accounted(c, t)
  {
    var t := Finished(c, s, v, SucceededResult, notBefore, unlocked);
    var done := s.nodes[v].(hasReservation := false, state := Succeeded);
    assert OkAt(c, s, v);
    DependentFacts(c, s, v);
    assert t.nodes == Propagated(s.nodes[v := done], s.cancelling, c.dag.succ[v]);
    PropagatedFrames(c, s, v, done);
    AccountedStop(c, s, t, v);
  }

  lemma FinishOkSelf(c: Config, s: State, v: nat, notBefore: int, unlocked: seq<ReadyEntry>)
    requires Inv(c, s) && Enabled(c, s, Finish(v, SucceededResult, notBefore, unlocked))
    ensures OkAt(c, Finished(c, s, v, SucceededResult, notBefore, unlocked), v)
  {
    assert OkAt(c, s, v);
    DependentFacts(c, s, v);
    SucceededOk(c.tasks[v], s.nodes[v], s.runs[v], s.cancelling);
  }

  lemma FinishOkState(c: Config, s: State, v: nat, notBefore: int, unlocked: seq<ReadyEntry>)
    requires Inv(c, s) && Enabled(c, s, Finish(v, SucceededResult, notBefore, unlocked))
    ensures var t := Finished(c, s, v, SucceededResult, notBefore, unlocked);
            && t.nodes == Propagated(s.nodes[v := s.nodes[v].(hasReservation := false, state := Succeeded)],
                                     s.cancelling, c.dag.succ[v])
            && t.runs == Synced(Recorded(s.nodes, s.runs, v, Succeeded, SucceededResult), t.nodes)
            && t.queue == InsertAll(s.queue, unlocked) && t.cancelling == s.cancelling
  {
  }

  lemma FinishOkNodes(c: Config, s: State, v: nat, notBefore: int, unlocked: seq<ReadyEntry>)
    requires Inv(c, s) && Enabled(c, s, Finish(v, SucceededResult, notBefore, unlocked))
    ensures var t := Finished(c, s, v, SucceededResult, notBefore, unlocked);
            forall w: nat :: w < |t.nodes| ==> OkAt(c, t, w)
  {
    var t := Finished(c, s, v, SucceededResult, notBefore, unlocked);
    FinishOkState(c, s, v, notBefore, unlocked);
    forall w: nat | w == v ensures OkAt(c, t, w) { FinishOkSelf(c, s, v, notBefore, unlocked); }
    SuccessNodes(c, s, v, s.nodes[v].(hasReservation := false, state := Succeeded), t);
  }

  lemma FinishOkQueue(c: Config, s: State, v: nat, notBefore: int, unlocked: seq<ReadyEntry>)
    requires Inv(c, s) && Enabled(c, s, Finish(v, SucceededResult, notBefore, unlocked))
    ensures var t := Finished(c, s, v, SucceededResult, notBefore, unlocked); QueueOk(c, t.nodes, t.queue)
  {
    var t := Finished(c, s, v, SucceededResult, notBefore, unlocked);
    FinishOkState(c, s, v, notBefore, unlocked);
    SuccessQueue(c, s, v, s.nodes[v].(hasReservation := false, state := Succeeded), unlocked, t.nodes, t.queue);
  }

  /** A task that was not in the queue succeeds: its dependents join the queue. */
  lemma SuccessQueue(c: Config, s: State, v: nat, done: Node, unlocked: seq<ReadyEntry>, nodes: seq<Node>, queue: seq<ReadyEntry>)
    requires Inv(c, s) && v < |s.nodes| && s.nodes[v].state.Running? && done.state.Succeeded?
    requires AllBelow(c.dag.succ[v], |s.nodes|)
    requires EntriesFor(c, unlocked, UnlockedNodes(s.nodes, s.cancelling, c.dag.succ[v]))
    requires nodes == Propagated(s.nodes[v := done], s.cancelling, c.dag.succ[v]) && queue == InsertAll(s.queue, unlocked)
    ensures QueueOk(c, nodes, queue)
  {
    DependentFacts(c, s, v);
    PropagatedQueue(c, s, v, done, unlocked);
    assert nodes[v] == done;
    QueueFrame(c, nodes[v := s.nodes[v]], nodes, queue);
  }

  /** Reports that change v alone: cancelled, or sent back to wait for a retry. */
  lemma FinishLocalKeepsInv(c: Config, s: State, v: nat, kind: ResultKind, notBefore: int, unlocked: seq<ReadyEntry>)
    requires Inv(c, s) && Enabled(c, s, Finish(v, kind, notBefore, unlocked)) && !kind.SucceededResult?
    requires s.cancelling || kind.CancelledResult? || Retries(c, s, v, kind)
    ensures Inv(c, Finished(c, s, v, kind, notBefore, unlocked))
  {
    var t := Finished(c, s, v, kind, notBefore, unlocked);
    assert OkAt(c, s, v);
    FinishLocalNodes(c, s, v, kind, notBefore, unlocked);
    CountersFrame(c, s.nodes, t.nodes);
    SkipFrame(c.dag.succ, s.nodes, t.nodes);
    QueueFrame(c, s.nodes, t.nodes, s.queue);
    AccountedStop(c, s, t, v);
  }

  lemma FinishLocalNodes(c: Config, s: State, v: nat, kind: ResultKind, notBefore: int, unlocked: seq<ReadyEntry>)
    requires Inv(c, s) && Enabled(c, s, Finish(v, kind, notBefore, unlocked)) && !kind.SucceededResult?
    requires s.cancelling || kind.CancelledResult? || Retries(c, s, v, kind)
    ensures Shape(c, Finished(c, s, v, kind, notBefore, unlocked))
    ensures NodesOk(c, Finished(c, s, v, kind, notBefore, unlocked))
  {
    var t := Finished(c, s, v, kind, notBefore, unlocked);
    var r := Returned(s, v, kind);
    assert OkAt(c, s, v);
    if s.cancelling || kind.CancelledResult? {
      CancelledOk(c.tasks[v], s.nodes[v], s.runs[v], kind, s.cancelling);
    } else {
      RetriedOk(c.tasks[v], s.nodes[v], s.runs[v], kind, notBefore);
    }
    assert OkAt(c, t, v);
    forall w: nat | w < |t.nodes| && w != v ensures OkAt(c, t, w) {
      SyncedSame(c, s, r.runs, t.nodes, w);
    }
  }

  lemma FinishFailedSelf(c: Config, s: State, v: nat, kind: ResultKind, notBefore: int, unlocked: seq<ReadyEntry>)
    requires Inv(c, s) && Enabled(c, s, Finish(v, kind, notBefore, unlocked)) && !kind.SucceededResult?
    requires !s.cancelling && !kind.CancelledResult? && !Retries(c, s, v, kind)
    ensures OkAt(c, Finished(c, s, v, kind, notBefore, unlocked), v)
  {
    var r := Returned(s, v, kind);
    assert OkAt(c, s, v);
    FailingFrames(c, s, r.nodes, v);
    FailedOk(c.tasks[v], s.nodes[v], s.runs[v], kind);
  }

  lemma FinishFailedState(c: Config, s: State, v: nat, kind: ResultKind, notBefore: int, unlocked: seq<ReadyEntry>)
    requires Shape(c, s) && v < |s.nodes| && !kind.SucceededResult?
    requires !s.cancelling && !kind.CancelledResult? && !Retries(c, s, v, kind)
    ensures var t := Finished(c, s, v, kind, notBefore, unlocked);
            var r := Returned(s, v, kind);
            && t.nodes == Failing(c.dag.succ, r.nodes, v) && t.runs == Synced(r.runs, t.nodes)
            && t.queue == s.queue && !t.cancelling && Shape(c, t)
            && r.nodes == s.nodes[v := s.nodes[v].(hasReservation := false)]
            && |r.runs| == |s.runs| && forall w: nat :: w < |s.runs| && w != v ==> r.runs[w] == s.runs[w]
  {
  }

  lemma FinishFailedNodes(c: Config, s: State, v: nat, kind: ResultKind, notBefore: int, unlocked: seq<ReadyEntry>)
    requires Inv(c, s) && Enabled(c, s, Finish(v, kind, notBefore, unlocked)) && !kind.SucceededResult?
    requires !s.cancelling && !kind.CancelledResult? && !Retries(c, s, v, kind)
    ensures Shape(c, Finished(c, s, v, kind, notBefore, unlocked))
    ensures NodesOk(c, Finished(c, s, v, kind, notBefore, unlocked))
  {
    FinishFailedState(c, s, v, kind, notBefore, unlocked);
    FinishFailedSelf(c, s, v, kind, notBefore, unlocked);
    var r := Returned(s, v, kind);
    FailedOthersOk(c, s, r.nodes, r.runs, v, Finished(c, s, v, kind, notBefore, unlocked));
  }

  lemma FailedOthersOk(c: Config, s: State, nodes0: seq<Node>, runs: seq<TaskRun>, v: nat, t: State)
    requires Inv(c, s) && !s.cancelling && v < |s.nodes| && !IsSuccessLike(s.nodes[v].state)
    requires s.nodes[v].state.Ready? || s.nodes[v].state.Running?
    requires |nodes0| == |s.nodes| && nodes0 == s.nodes[v := nodes0[v]]
    requires |runs| == |s.runs| && forall w: nat :: w < |s.runs| && w != v ==> runs[w] == s.runs[w]
    requires Shape(c, t) && t.nodes == Failing(c.dag.succ, nodes0, v) && t.runs == Synced(runs, t.nodes)
    requires !t.cancelling && OkAt(c, t, v)
    ensures NodesOk(c, t)
  {
    forall w: nat | w < |t.nodes| && w != v ensures OkAt(c, t, w) {
      FailingOthers(c, s, nodes0, v, runs, w);
    }
  }

  lemma FinishFailedKeepsInv(c: Config, s: State, v: nat, kind: ResultKind, notBefore: int, unlocked: seq<ReadyEntry>)
    requires Inv(c, s) && Enabled(c, s, Finish(v, kind, notBefore, unlocked)) && !kind.SucceededResult?
    requires !s.cancelling && !kind.CancelledResult? && !Retries(c, s, v, kind)
    ensures Inv(c, Finished(c, s, v, kind, notBefore, unlocked))
  {
    var t := Finished(c, s, v, kind, notBefore, unlocked);
    var r := Returned(s, v, kind);
    assert OkAt(c, s, v);
    FinishFailedNodes(c, s, v, kind, notBefore, unlocked);
    FailingFrames(c, s, r.nodes, v);
    FailingSkips(c, s, r.nodes, v);
    QueueFrame(c, s.nodes, t.nodes, s.queue);
    AccountedStop(c, s, t, v);
  }

  // ---- timers and cancellation ----

  lemma PromoteKeepsInv(c: Config, s: State, v: nat, stamp: int)
    requires Inv(c, s) && Enabled(c, s, Promote(v, stamp))
    ensures Inv(c, Promoted(c, s, v, stamp))
  {
    var t := Promoted(c, s, v, stamp);
    var e := EntryFor(c, v, stamp);
    assert OkAt(c, s, v);
    PromotedOk(c.tasks[v], s.nodes[v], s.runs[v]);
    forall w: nat | w < |t.nodes| ensures OkAt(c, t, w) {
      assert OkAt(c, s, w);
    }
    CountersFrame(c, s.nodes, t.nodes);
    SkipFrame(c.dag.succ, s.nodes, t.nodes);
    assert InsertAll(s.queue, [e]) == Insert(s.queue, e) by { assert [e][..0] == []; }
    QueueAdd(c, s.nodes, t.nodes, s.queue, [e], [v]);
    AccountedFrame(c, s, t);
  }

  lemma CancelKeepsInv(c: Config, s: State)
    requires Inv(c, s) && !s.cancelling
    ensures Inv(c, CancelBegun(s))
  {
    var t := CancelBegun(s);
    forall w: nat | w < |t.nodes|
      ensures OkAt(c, t, w) && (s.nodes[w].state.Running? <==> t.nodes[w].state.Running?)
      ensures !Queueable(t.nodes[w]) && (IsSuccessLike(t.nodes[w].state) <==> IsSuccessLike(s.nodes[w].state))
      ensures Broken(t.nodes[w].state) <==> Broken(s.nodes[w].state)
      ensures t.nodes[w].state.Skipped? <==> s.nodes[w].state.Skipped?
    {
      assert OkAt(c, s, w);
      CancelNodeOk(c.tasks[w], s.nodes[w], s.runs[w]);
    }
    CountersFrame(c, s.nodes, t.nodes);
    SkipFrame(c.dag.succ, s.nodes, t.nodes);
    AccountedFrame(c, s, t);
  }

  // ---- all together ----

  /** Every step keeps the invariant. */
  lemma StepKeepsInv(c: Config, s: State, step: Step)
    requires Inv(c, s) && Enabled(c, s, step)
    ensures Inv(c, Apply(c, s, step))
  {
    match step
    case Launch(i) => LaunchKeepsInv(c, s, i);
    case CacheHit(i, unlocked) => HitKeepsInv(c, s, i, unlocked);
    case FailInline(i, kind) => FailInlineKeepsInv(c, s, i, kind);
    case Finish(v, kind, notBefore, unlocked) =>
      if kind.SucceededResult? { FinishOkKeepsInv(c, s, v, notBefore, unlocked); }
      else if s.cancelling || kind.CancelledResult? || Retries(c, s, v, kind) {
        FinishLocalKeepsInv(c, s, v, kind, notBefore, unlocked);
      } else { FinishFailedKeepsInv(c, s, v, kind, notBefore, unlocked); }
    case Promote(v, stamp) => PromoteKeepsInv(c, s, v, stamp);
    case BeginCancel => CancelKeepsInv(c, s);
  }
}
