/** What holds at every point of every run, and at the end of every run, said about the runs themselves. */
module SchedulerRuns {
  import opened Domain
  import opened Digraph
  import opened ReadyQueues
  import opened ResourcePools
  import opened SchedulerModel
  import opened SchedulerInvariant
  import opened SchedulerSteps
  import opened SchedulerTheorems
  import opened SchedulerHistory

  /** t is a state of some run from a seeded scheduler. */
  ghost predicate Reachable(c: Config, t: State) {
    exists s, steps :: IsSeeded(c, s) && Exec(c, s, steps) == Some(t)
  }

  lemma ReachableInv(c: Config, t: State)
    requires Reachable(c, t)
    ensures Inv(c, t)
  {
    var s, steps :| IsSeeded(c, s) && Exec(c, s, steps) == Some(t);
    SeededInv(c, s);
    ExecKeepsInv(c, s, steps);
  }

  /** Slots and resources in use are those of the RUNNING tasks and stay within the limits, always. */
  lemma Conservation(c: Config, t: State)
    requires Reachable(c, t)
    ensures |t.nodes| == |c.tasks| && t.running == |RunningNodes(t.nodes)| <= c.maxConcurrency
    ensures NonNegativeTasks(c) ==> t.used == Sum(Loads(c, t.nodes)) && NonNegative(t.used)
    ensures NonNegativeTasks(c) && NonNegative(c.capacity) ==> FitsWithin(t.used, c.capacity)
  {
    ReachableInv(c, t);
    if NonNegativeTasks(c) {
      SumNonNegative(Loads(c, t.nodes));
      if t.running == 0 {
        IdleUsesNothing(c, t.nodes);
      }
    }
  }

  /** Whichever RUNNING task finishes next, what it gives back was taken: the clamp at zero changes nothing. */
  lemma ReleaseNeverClamps(c: Config, t: State, v: nat)
    requires Reachable(c, t) && NonNegativeTasks(c) && v < |t.nodes| && t.nodes[v].state.Running?
    ensures t.nodes[v].hasReservation && t.nodes[v].reserved == Request(c, v)
    ensures Plus(Released(t.used, Request(c, v)), Request(c, v)) == t.used
  {
    ReachableInv(c, t);
    assert OkAt(c, t, v);
    var nodes := t.nodes[v := t.nodes[v].(state := Succeeded)];
    ReleasedLoad(c, t.nodes, nodes, v);
  }

  function EntriesOf(q: seq<ReadyEntry>, v: nat): nat {
    if q == [] then 0 else EntriesOf(q[..|q| - 1], v) + if q[|q| - 1].node == v then 1 else 0
  }

  lemma {:induction false} EntriesAtMostOnce(c: Config, nodes: seq<Node>, q: seq<ReadyEntry>, v: nat)
    requires |c.dag.nodes| == |nodes| && v < |nodes| && DistinctIds(q)
    requires forall e :: e in q ==> e.node < |nodes| && e.taskId == c.dag.nodes[e.node]
    ensures EntriesOf(q, v) == if Queued(q, v) then 1 else 0
  {
    if q != [] {
      var n := |q| - 1;
      var init := q[..n];
      EntriesAtMostOnce(c, nodes, init, v);
      assert q == init + [q[n]];
      if q[n].node == v {
        assert q[n] in q;
        forall e | e in init ensures e.node != v {
          var i :| 0 <= i < n && q[i] == e;
          assert q[i].taskId != q[n].taskId;
        }
      }
    }
  }

  /** A READY task is in the queue exactly once, or behind a retry timer, never both; other tasks are in neither. */
  lemma ReadyIsQueuedOrWaiting(c: Config, t: State, v: nat)
    requires Reachable(c, t) && v < |t.nodes|
    ensures t.nodes[v].state.Ready? <==> EntriesOf(t.queue, v) == 1 || t.nodes[v].waiting
    ensures EntriesOf(t.queue, v) <= 1 && !(EntriesOf(t.queue, v) == 1 && t.nodes[v].waiting)
  {
    ReachableInv(c, t);
    assert OkAt(c, t, v);
    EntriesAtMostOnce(c, t.nodes, t.queue, v);
  }

  /** A task gets past PENDING only after everything that it depends on, however remotely, has succeeded. */
  lemma OnlyAfterDependencies(c: Config, t: State, u: nat, v: nat)
    requires Reachable(c, t) && v < |t.nodes| && Reaches(c.dag.succ, u, v)
    requires match t.nodes[v].state case Ready => true case Running => true case Succeeded => true
               case Cached => true case Failed => true case _ => false
    ensures u < |t.nodes| && IsSuccessLike(t.nodes[u].state)
  {
    ReachableInv(c, t);
    AncestorsSucceeded(c, t, u, v);
  }

  /** The end of a run that is never cancelled: SKIPPED are exactly the strict descendants of FAILED tasks, no FAILED
      task descends from another one, and all other tasks succeeded. */
  lemma UncancelledOutcome(c: Config, s: State, steps: seq<Step>, t: State, v: nat)
    requires IsSeeded(c, s) && Exec(c, s, steps) == Some(t) && HonestRunner(steps) && BeginCancel !in steps
    requires Settled(t) && v < |t.nodes|
    ensures t.nodes[v].state.Skipped? <==> FailedAbove(c, t, v)
    ensures t.nodes[v].state.Failed? ==> !FailedAbove(c, t, v)
    ensures IsSuccessLike(t.nodes[v].state) <==> !t.nodes[v].state.Failed? && !FailedAbove(c, t, v)
  {
    SeededInv(c, s);
    ExecKeepsInv(c, s, steps);
    SkippedExactly(c, t, v);
    HonestRunsCancelNothing(c, s, steps, t);
    assert !t.nodes[v].state.Cancelled?;
    CancellingIsRecorded(c, s, steps);
    SettledIsTerminalExactly(c, t);
  }

  /** A run in which cancellation begins: from then on processes only finish, every task that is not in flight keeps
      its terminal state, and one in flight ends SUCCEEDED or CANCELLED; the pipeline ends CANCELLED. */
  lemma CancelledRun(c: Config, s: State, before: seq<Step>, later: seq<Step>, r: State, t: State, requested: bool)
    requires IsSeeded(c, s) && Exec(c, s, before) == Some(r) && Shape(c, r) && Enabled(c, r, BeginCancel)
    requires Exec(c, CancelBegun(r), later) == Some(t)
    ensures forall step :: step in later ==> step.Finish?
    ensures t.queue == [] && |t.nodes| == |r.nodes| && Verdict(t, requested) == PipelineCancelled
    ensures forall v: nat :: v < |r.nodes| ==>
      && t.nodes[v].attempts == r.nodes[v].attempts
      && (if r.nodes[v].state.Running? then t.nodes[v].state.Running? || t.nodes[v].state.Succeeded? || t.nodes[v].state.Cancelled?
          else t.nodes[v].state == if IsTerminal(r.nodes[v].state) then r.nodes[v].state else Cancelled)
    ensures Settled(t) ==> AllTerminal(t)
  {
    SeededInv(c, s);
    ExecKeepsInv(c, s, before);
    StepKeepsInv(c, r, BeginCancel);
    var x := CancelBegun(r);
    AfterCancel(c, x, later);
    ExecKeepsInv(c, x, later);
    forall v: nat | v < |r.nodes|
      ensures
        && t.nodes[v].attempts == r.nodes[v].attempts
        && (if r.nodes[v].state.Running? then t.nodes[v].state.Running? || t.nodes[v].state.Succeeded? || t.nodes[v].state.Cancelled?
            else t.nodes[v].state == if IsTerminal(r.nodes[v].state) then r.nodes[v].state else Cancelled)
    {
      CancelSettlesAllButRunning(c, r, v);
    }
    if Settled(t) { SettledIsTerminalExactly(c, t); }
  }
}
