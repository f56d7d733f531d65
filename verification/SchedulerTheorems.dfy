/** What is true of every run of the scheduler, and of the states in which a run can end. */
module SchedulerTheorems {
  import opened Domain
  import opened Digraph
  import opened Kahn
  import opened DagBuilder
  import opened ReadyQueues
  import opened ResourcePools
  import opened SchedulerModel
  import opened SchedulerInvariant
  import opened SchedulerSteps

  // ---- reachable states ----

  lemma SeededNodes(c: Config, es: seq<ReadyEntry>)
    requires ValidConfig(c) && EntriesFor(c, es, c.dag.roots)
    ensures var s := Seeded(c, es); Shape(c, s) && NodesOk(c, s) && Counters(c, s.nodes)
  {
    var s := Seeded(c, es);
    forall v: nat | v < |s.nodes| ensures OkAt(c, s, v) && s.nodes[v].remaining == |Unmet(c, s.nodes, v)| {
      WaitingAtStart(c.dag.pred, v);
      forall u | u in c.dag.pred[v] ensures u < |s.nodes| {
        assert Edge(c.dag.pred, v, u) && Edge(c.dag.succ, u, v);
      }
      assert Unmet(c, s.nodes, v) == Waiting(c.dag.pred, [], v);
    }
    forall e | e in s.queue ensures e.node < |c.tasks| {
      var k :| 0 <= k < |es| && es[k] == e;
    }
  }

  /** Seeding the roots establishes the invariant. */
  lemma SeededInv(c: Config, s: State)
    requires IsSeeded(c, s)
    ensures Inv(c, s)
  {
    var es :| SeededWith(c, es, s);
    SeededNodes(c, es);
    SeededQueue(c, es);
    SeededIdle(c, es);
  }

  lemma SeededQueue(c: Config, es: seq<ReadyEntry>)
    requires ValidConfig(c) && EntriesFor(c, es, c.dag.roots)
    ensures QueueOk(c, Seeded(c, es).nodes, InsertAll([], es))
  {
    var nodes := Seeded(c, es).nodes;
    var blank := seq(|nodes|, v requires 0 <= v < |nodes| => nodes[v].(state := Pending));
    assert QueueOk(c, blank, []);
    QueueAdd(c, blank, nodes, [], es, c.dag.roots);
  }

  lemma SeededIdle(c: Config, es: seq<ReadyEntry>)
    requires ValidConfig(c) && EntriesFor(c, es, c.dag.roots) && Shape(c, Seeded(c, es))
    ensures Accounted(c, Seeded(c, es)) && SkipOk(c.dag.succ, Seeded(c, es).nodes)
  {
    assert RunningNodes(Seeded(c, es).nodes) == {};
    IdleIsAccounted(c, Seeded(c, es));
  }

  lemma IdleIsAccounted(c: Config, s: State)
    requires Shape(c, s) && RunningNodes(s.nodes) == {} && s.running == 0 && s.used == NO_RESOURCES
    ensures Accounted(c, s)
  {
    IdleUsesNothing(c, s.nodes);
  }

  lemma IdleUsesNothing(c: Config, nodes: seq<Node>)
    requires |nodes| == |c.tasks| && RunningNodes(nodes) == {}
    ensures Sum(Loads(c, nodes)) == NO_RESOURCES
  {
    var loads := Loads(c, nodes);
    forall v | 0 <= v < |loads| ensures loads[v] == NO_RESOURCES {
      assert v !in RunningNodes(nodes);
    }
    SumZero(|nodes|, loads);
  }

  /** The last step of a run. */
  lemma ExecLast(c: Config, s: State, steps: seq<Step>, front: seq<Step>, last: Step)
    requires steps == front + [last] && Exec(c, s, steps).Some?
    ensures Exec(c, s, front).Some?
    ensures var t := Exec(c, s, front).value;
            Shape(c, t) && Enabled(c, t, last) && Exec(c, s, steps).value == Apply(c, t, last)
  {
    assert steps[..|steps| - 1] == front && steps[|steps| - 1] == last;
  }

  lemma ExecSnoc(c: Config, s: State, steps: seq<Step>, t: State, step: Step)
    requires Exec(c, s, steps) == Some(t) && Shape(c, t) && Enabled(c, t, step)
    ensures Exec(c, s, steps + [step]) == Some(Apply(c, t, step))
  {
    assert (steps + [step])[..|steps + [step]| - 1] == steps;
  }

  /** The invariant holds in every state of every run. */
  lemma {:induction false} ExecKeepsInv(c: Config, s: State, steps: seq<Step>)
    requires Inv(c, s) && Exec(c, s, steps).Some?
    ensures Inv(c, Exec(c, s, steps).value)
    decreases |steps|
  {
    if steps != [] {
      var front, last := steps[..|steps| - 1], steps[|steps| - 1];
      ExecLast(c, s, steps, front, last);
      ExecKeepsInv(c, s, front);
      StepKeepsInv(c, Exec(c, s, front).value, last);
    }
  }

  // ---- dependencies ----

  /** A task that was made ready, or went further, has only success-like ancestors. */
  lemma AncestorsSucceeded(c: Config, s: State, u: nat, v: nat)
    requires Inv(c, s) && v < |s.nodes| && Reaches(c.dag.succ, u, v)
    requires !s.nodes[v].state.Pending? && !s.nodes[v].state.Skipped? && !s.nodes[v].state.Cancelled?
    ensures u < |s.nodes| && IsSuccessLike(s.nodes[u].state)
  {
    ReachesInRange(c, u, v);
    if !IsSuccessLike(s.nodes[u].state) { DescendantBlocked(c, s, u, v); }
  }

  lemma ReachesInRange(c: Config, u: nat, v: nat)
    requires ValidConfig(c) && Reaches(c.dag.succ, u, v)
    ensures u < |c.tasks| && v < |c.tasks|
  {
    MirroredInRange(c.dag.succ, c.dag.pred);
    var rank := KahnOrderRanks(c.dag.succ, c.dag.topo);
    ReachesRaisesRank(c.dag.succ, rank, u, v);
  }

  /** The counter is the full scan: zero exactly when every direct predecessor is success-like. */
  lemma CounterIsFullScan(c: Config, s: State, v: nat)
    requires Inv(c, s) && v < |s.nodes|
    ensures s.nodes[v].remaining == |Unmet(c, s.nodes, v)|
    ensures s.nodes[v].remaining == 0 <==>
            forall u: nat :: Edge(c.dag.succ, u, v) ==> u < |s.nodes| && IsSuccessLike(s.nodes[u].state)
  {
    if s.nodes[v].remaining == 0 {
      forall u: nat | Edge(c.dag.succ, u, v) ensures u < |s.nodes| && IsSuccessLike(s.nodes[u].state) {
        if !IsSuccessLike(s.nodes[u].state) { UnmetPredecessor(c, s.nodes, u, v); }
      }
    } else {
      assert Unmet(c, s.nodes, v) != {};
      var u :| u in Unmet(c, s.nodes, v);
      assert Edge(c.dag.pred, v, u) && Edge(c.dag.succ, u, v);
    }
  }

  // ---- skipping ----

  ghost predicate FailedAbove(c: Config, s: State, v: nat) {
    exists u: nat :: u < |s.nodes| && s.nodes[u].state.Failed? && Reaches(c.dag.succ, u, v)
  }

  lemma {:induction false} BrokenPathSkips(c: Config, s: State, u: nat, via: seq<nat>, v: nat)
    requires Inv(c, s) && u < |s.nodes| && Broken(s.nodes[u].state) && Path(c.dag.succ, u, via, v)
    ensures v < |s.nodes| && s.nodes[v].state.Skipped?
    decreases |via|
  {
    MirroredInRange(c.dag.succ, c.dag.pred);
    if via != [] { BrokenPathSkips(c, s, via[0], via[1..], v); }
  }

  lemma {:induction false} SkippedHasFailedAbove(c: Config, s: State, v: nat, rank: seq<nat>)
    requires Inv(c, s) && v < |s.nodes| && s.nodes[v].state.Skipped? && Ranking(c.dag.succ, rank)
    ensures FailedAbove(c, s, v)
    decreases rank[v]
  {
    assert HasBrokenPred(c.dag.succ, s.nodes, v);
    var u: nat :| Edge(c.dag.succ, u, v) && u < |s.nodes| && Broken(s.nodes[u].state);
    if s.nodes[u].state.Failed? {
      EdgeReaches(c.dag.succ, u, v);
    } else {
      SkippedHasFailedAbove(c, s, u, rank);
      var f: nat :| f < |s.nodes| && s.nodes[f].state.Failed? && Reaches(c.dag.succ, f, u);
      ReachesStep(c.dag.succ, f, u, v);
    }
  }

  /** At every moment of every run the SKIPPED tasks are exactly the strict descendants of FAILED ones. */
  lemma SkippedExactly(c: Config, s: State, v: nat)
    requires Inv(c, s) && v < |s.nodes|
    ensures s.nodes[v].state.Skipped? <==> FailedAbove(c, s, v)
  {
    MirroredInRange(c.dag.succ, c.dag.pred);
    var rank := KahnOrderRanks(c.dag.succ, c.dag.topo);
    if s.nodes[v].state.Skipped? { SkippedHasFailedAbove(c, s, v, rank); }
    if FailedAbove(c, s, v) {
      var u: nat :| u < |s.nodes| && s.nodes[u].state.Failed? && Reaches(c.dag.succ, u, v);
      var via :| Path(c.dag.succ, u, via, v);
      BrokenPathSkips(c, s, u, via, v);
    }
  }

  /** No FAILED task lies downstream of another one. */
  lemma FailuresAreIndependent(c: Config, s: State, u: nat, v: nat)
    requires Inv(c, s) && u < |s.nodes| && v < |s.nodes|
    requires s.nodes[u].state.Failed? && s.nodes[v].state.Failed?
    ensures !Reaches(c.dag.succ, u, v)
  {
    SkippedExactly(c, s, v);
  }

  /** What skip_downstream meets below a task that is about to fail: PENDING or already SKIPPED tasks
      only, so its guard for RUNNING tasks and its queue removal never act. */
  lemma SkipMeetsOnlyPending(c: Config, s: State, v: nat, w: nat)
    requires Inv(c, s) && !s.cancelling && v < |s.nodes| && Reaches(c.dag.succ, v, w)
    requires s.nodes[v].state.Ready? || s.nodes[v].state.Running?
    ensures w < |s.nodes| && w != v && (s.nodes[w].state.Pending? || s.nodes[w].state.Skipped?)
    ensures !Queued(s.queue, w) && !s.nodes[w].waiting
  {
    DescendantBlocked(c, s, v, w);
  }

  // ---- settled states ----

  ghost predicate AllTerminal(s: State) {
    forall v: nat :: v < |s.nodes| ==> IsTerminal(s.nodes[v].state)
  }

  ghost predicate AllSuccessLike(s: State) {
    forall v: nat :: v < |s.nodes| ==> IsSuccessLike(s.nodes[v].state)
  }

  ghost predicate AnyInState(s: State, state: TaskState) {
    exists v: nat :: v < |s.nodes| && s.nodes[v].state == state
  }

  ghost predicate CancelledAbove(c: Config, s: State, v: nat) {
    exists u: nat :: u < |s.nodes| && s.nodes[u].state.Cancelled? && Reaches(c.dag.succ, u, v)
  }

  lemma SettledStates(c: Config, s: State, v: nat)
    requires Inv(c, s) && Settled(s) && v < |s.nodes|
    ensures !s.nodes[v].state.Ready? && !s.nodes[v].state.Running?
    ensures s.cancelling ==> IsTerminal(s.nodes[v].state)
  {
    assert OkAt(c, s, v);
    assert s.nodes[v].state.Running? ==> v in RunningNodes(s.nodes);
    assert Queueable(s.nodes[v]) ==> Queued(s.queue, v);
  }

  /** A task left PENDING by a settled run hangs below a task that was cancelled without a cancel request. */
  lemma {:induction false} PendingHasCancelledAbove(c: Config, s: State, v: nat, rank: seq<nat>)
    requires Inv(c, s) && Settled(s) && v < |s.nodes| && s.nodes[v].state.Pending? && Ranking(c.dag.succ, rank)
    ensures CancelledAbove(c, s, v)
    decreases rank[v]
  {
    SettledStates(c, s, v);
    assert OkAt(c, s, v);
    assert Unmet(c, s.nodes, v) != {};
    var u :| u in Unmet(c, s.nodes, v);
    assert Edge(c.dag.pred, v, u) && Edge(c.dag.succ, u, v);
    SettledStates(c, s, u);
    if s.nodes[u].state.Pending? {
      PendingHasCancelledAbove(c, s, u, rank);
      var f: nat :| f < |s.nodes| && s.nodes[f].state.Cancelled? && Reaches(c.dag.succ, f, u);
      ReachesStep(c.dag.succ, f, u, v);
    } else {
      EdgeReaches(c.dag.succ, u, v);
    }
  }

  /** Exactly which tasks a settled, never-cancelled run leaves PENDING. */
  lemma LeftPendingExactly(c: Config, s: State, v: nat)
    requires Inv(c, s) && Settled(s) && !s.cancelling && v < |s.nodes|
    ensures s.nodes[v].state.Pending? <==> CancelledAbove(c, s, v) && !FailedAbove(c, s, v)
  {
    MirroredInRange(c.dag.succ, c.dag.pred);
    var rank := KahnOrderRanks(c.dag.succ, c.dag.topo);
    SkippedExactly(c, s, v);
    if s.nodes[v].state.Pending? { PendingHasCancelledAbove(c, s, v, rank); }
    if CancelledAbove(c, s, v) {
      var u: nat :| u < |s.nodes| && s.nodes[u].state.Cancelled? && Reaches(c.dag.succ, u, v);
      DescendantBlocked(c, s, u, v);
    }
  }

  /** A settled run leaves every task terminal if and only if it was cancelled, or every task below an
      unrequested CANCELLED one is also below a FAILED one. */
  lemma SettledIsTerminalExactly(c: Config, s: State)
    requires Inv(c, s) && Settled(s)
    ensures AllTerminal(s) <==>
            s.cancelling || forall v: nat :: v < |s.nodes| && CancelledAbove(c, s, v) ==> FailedAbove(c, s, v)
  {
    forall v: nat | v < |s.nodes|
      ensures IsTerminal(s.nodes[v].state) <==> s.cancelling || (CancelledAbove(c, s, v) ==> FailedAbove(c, s, v))
    {
      SettledStates(c, s, v);
      if !s.cancelling { LeftPendingExactly(c, s, v); }
    }
  }

  // ---- the verdict ----

  /** The final pipeline state; `requested` is the cancel flag as read at the very end. */
  ghost function Verdict(s: State, requested: bool): PipelineState {
    if s.cancelling || requested then PipelineCancelled
    else if AnyInState(s, Failed) then PipelineFailed
    else PipelineSucceeded
  }

  /** A settled run reported SUCCEEDED really had every task succeed, if and only if no task is CANCELLED. */
  lemma SucceededMeansAllExactly(c: Config, s: State, requested: bool)
    requires Inv(c, s) && Settled(s) && Verdict(s, requested) == PipelineSucceeded
    ensures AllSuccessLike(s) <==> !AnyInState(s, Cancelled)
  {
    MirroredInRange(c.dag.succ, c.dag.pred);
    var rank := KahnOrderRanks(c.dag.succ, c.dag.topo);
    if !AnyInState(s, Cancelled) {
      forall v: nat | v < |s.nodes| ensures IsSuccessLike(s.nodes[v].state) {
        SettledStates(c, s, v);
        SkippedExactly(c, s, v);
        if s.nodes[v].state.Pending? { LeftPendingExactly(c, s, v); }
      }
    }
  }

  /** The runner reports a cancelled process only after cancellation was begun. */
  ghost predicate HonestRunner(steps: seq<Step>) {
    forall k :: 0 <= k < |steps| && steps[k].Finish? && steps[k].kind.CancelledResult? ==> BeginCancel in steps[..k]
  }

  lemma {:induction false} CancellingIsRecorded(c: Config, s: State, steps: seq<Step>)
    requires !s.cancelling && Exec(c, s, steps).Some?
    ensures Exec(c, s, steps).value.cancelling <==> BeginCancel in steps
    decreases |steps|
  {
    if steps != [] {
      var front, last := steps[..|steps| - 1], steps[|steps| - 1];
      assert steps == front + [last];
      ExecLast(c, s, steps, front, last);
      CancellingIsRecorded(c, s, front);
      assert BeginCancel in steps <==> BeginCancel in front || last == BeginCancel;
    }
  }

  lemma HonestPrefix(steps: seq<Step>, front: seq<Step>, last: Step)
    requires HonestRunner(steps) && steps == front + [last] && BeginCancel !in steps
    ensures HonestRunner(front) && BeginCancel !in front
    ensures !last.BeginCancel? && !(last.Finish? && last.kind.CancelledResult?)
  {
    assert forall k :: 0 <= k < |front| ==> front[k] == steps[k] && front[..k] == steps[..k];
    assert steps[|front|] == last && steps[..|front|] == front;
    assert last in steps;
  }

  /** With an honest runner no task is CANCELLED before cancellation begins. */
  lemma {:induction false} HonestRunsCancelNothing(c: Config, s: State, steps: seq<Step>, t: State)
    requires IsSeeded(c, s) && Exec(c, s, steps) == Some(t) && HonestRunner(steps) && BeginCancel !in steps
    ensures !AnyInState(t, Cancelled)
    decreases |steps|
  {
    if steps != [] {
      var front, last := steps[..|steps| - 1], steps[|steps| - 1];
      assert steps == front + [last];
      HonestPrefix(steps, front, last);
      ExecLast(c, s, steps, front, last);
      var r := Exec(c, s, front).value;
      HonestRunsCancelNothing(c, s, front, r);
      SeededInv(c, s);
      ExecKeepsInv(c, s, front);
      CancellingIsRecorded(c, s, front);
      NothingNewlyCancelled(c, r, last);
    }
  }

  lemma NothingNewlyCancelled(c: Config, s: State, step: Step)
    requires Inv(c, s) && Enabled(c, s, step) && !s.cancelling && !AnyInState(s, Cancelled)
    requires !step.BeginCancel? && !(step.Finish? && step.kind.CancelledResult?)
    ensures !AnyInState(Apply(c, s, step), Cancelled)
  {
  }

  /** The headline: for every complete run of an honest runner, every task ends terminal and the pipeline is
      SUCCEEDED exactly when no cancel was requested and every task is SUCCEEDED or CACHED. */
  lemma CompleteRunVerdict(c: Config, s: State, steps: seq<Step>, requested: bool)
    requires IsSeeded(c, s) && Exec(c, s, steps).Some? && HonestRunner(steps)
    requires Settled(Exec(c, s, steps).value)
    ensures var t := Exec(c, s, steps).value;
            && AllTerminal(t)
            && (Verdict(t, requested) == PipelineSucceeded <==>
                  BeginCancel !in steps && !requested && AllSuccessLike(t))
            && (Verdict(t, requested) == PipelineFailed <==>
                  BeginCancel !in steps && !requested && !AllSuccessLike(t))
  {
    var t := Exec(c, s, steps).value;
    SeededInv(c, s);
    ExecKeepsInv(c, s, steps);
    CancellingIsRecorded(c, s, steps);
    SettledIsTerminalExactly(c, t);
    if BeginCancel !in steps {
      HonestRunsCancelNothing(c, s, steps, t);
      if Verdict(t, requested) == PipelineSucceeded { SucceededMeansAllExactly(c, t, requested); }
    }
  }
}
