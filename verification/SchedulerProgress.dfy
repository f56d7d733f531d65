/** Runs end: a measure that every step lowers, and a step for every state that is not settled. */
module SchedulerProgress {
  import opened Domain
  import opened Digraph
  import opened Kahn
  import opened DagBuilder
  import opened ReadyQueues
  import opened ResourcePools
  import opened SchedulerModel
  import opened SchedulerInvariant
  import opened SchedulerSteps
  import opened SchedulerTheorems

  // ---- the measure ----

  /** Work a task can still cause. */
  function Weight(task: Task, node: Node): int {
    if IsTerminal(node.state) then 0
    else 1 + 3 * (MaxAttempts(task.retry) - node.attempts) +
         match node.state
         case Running => 3
         case Ready => if node.waiting then 2 else 1
         case _ => 2
  }

  function Total(weights: seq<int>): int {
    if weights == [] then 0 else Total(weights[..|weights| - 1]) + weights[|weights| - 1]
  }

  function Weights(c: Config, nodes: seq<Node>): (r: seq<int>)
    requires |nodes| == |c.tasks|
    ensures |r| == |nodes|
  {
    seq(|nodes|, v requires 0 <= v < |nodes| => Weight(c.tasks[v], nodes[v]))
  }

  function Measure(c: Config, s: State): int
    requires |s.nodes| == |c.tasks|
  {
    Total(Weights(c, s.nodes)) + if s.cancelling then 0 else 1
  }

  lemma {:induction false} TotalMonotone(a: seq<int>, b: seq<int>)
    requires |a| == |b| && forall k :: 0 <= k < |a| ==> a[k] <= b[k]
    ensures Total(a) <= Total(b)
    decreases |a|
  {
    if a != [] { TotalMonotone(a[..|a| - 1], b[..|b| - 1]); }
  }

  lemma {:induction false} TotalStrict(a: seq<int>, b: seq<int>, at: nat)
    requires |a| == |b| && forall k :: 0 <= k < |a| ==> a[k] <= b[k]
    requires at < |a| && a[at] < b[at]
    ensures Total(a) < Total(b)
    decreases |a|
  {
    var last := |a| - 1;
    if at == last { TotalMonotone(a[..last], b[..last]); }
    else { TotalStrict(a[..last], b[..last], at); }
  }

  lemma {:induction false} TotalNonNegative(a: seq<int>)
    requires forall k :: 0 <= k < |a| ==> a[k] >= 0
    ensures Total(a) >= 0
    decreases |a|
  {
    if a != [] { TotalNonNegative(a[..|a| - 1]); }
  }

  lemma MeasureNonNegative(c: Config, s: State)
    requires Inv(c, s)
    ensures Measure(c, s) >= 0
  {
    var weights := Weights(c, s.nodes);
    forall v: nat | v < |weights| ensures weights[v] >= 0 { assert OkAt(c, s, v); }
    TotalNonNegative(weights);
  }

  ghost predicate NoHeavier(c: Config, nodes: seq<Node>, nodes': seq<Node>) {
    && |nodes| == |nodes'| == |c.tasks|
    && forall w: nat :: w < |nodes| ==> LighterAt(c, nodes, nodes', w)
  }

  ghost predicate LighterAt(c: Config, nodes: seq<Node>, nodes': seq<Node>, w: nat)
    requires w < |nodes| && w < |nodes'| && w < |c.tasks|
  {
    Weight(c.tasks[w], nodes'[w]) <= Weight(c.tasks[w], nodes[w])
  }

  lemma LighterMeasure(c: Config, s: State, t: State, v: nat)
    requires NoHeavier(c, s.nodes, t.nodes) && t.cancelling == s.cancelling
    requires v < |s.nodes| && Weight(c.tasks[v], t.nodes[v]) < Weight(c.tasks[v], s.nodes[v])
    ensures Measure(c, t) < Measure(c, s)
  {
    forall w: nat | w < |s.nodes| ensures Weights(c, t.nodes)[w] <= Weights(c, s.nodes)[w] {
      assert LighterAt(c, s.nodes, t.nodes, w);
    }
    TotalStrict(Weights(c, t.nodes), Weights(c, s.nodes), v);
  }

  lemma PropagatedLighter(c: Config, s: State, v: nat, done: Node)
    requires Inv(c, s) && v < |s.nodes| && !IsSuccessLike(s.nodes[v].state) && IsSuccessLike(done.state)
    ensures var nodes := Propagated(s.nodes[v := done], s.cancelling, c.dag.succ[v]);
            NoHeavier(c, s.nodes, nodes) && nodes[v] == done
  {
    var nodes := Propagated(s.nodes[v := done], s.cancelling, c.dag.succ[v]);
    DependentFacts(c, s, v);
    forall w: nat | w < |s.nodes| ensures LighterAt(c, s.nodes, nodes, w) {
      assert OkAt(c, s, w);
    }
  }

  lemma FailingLighter(c: Config, s: State, nodes0: seq<Node>, v: nat)
    requires Inv(c, s) && !s.cancelling && v < |s.nodes| && !IsSuccessLike(s.nodes[v].state)
    requires s.nodes[v].state.Ready? || s.nodes[v].state.Running?
    requires |nodes0| == |s.nodes| && nodes0 == s.nodes[v := nodes0[v]] && nodes0[v].remaining == s.nodes[v].remaining
    ensures NoHeavier(c, s.nodes, Failing(c.dag.succ, nodes0, v))
    ensures Failing(c.dag.succ, nodes0, v)[v].state.Failed?
  {
    var nodes := Failing(c.dag.succ, nodes0, v);
    FailingFrames(c, s, nodes0, v);
    forall w: nat | w < |s.nodes| ensures LighterAt(c, s.nodes, nodes, w) {
      assert OkAt(c, s, w);
      if w != v { FailingFacts(c, s, nodes0, v, w); }
    }
  }

  lemma LaunchShrinks(c: Config, s: State, i: nat)
    requires Inv(c, s) && Enabled(c, s, Launch(i))
    ensures Measure(c, Launched(c, s, i)) < Measure(c, s)
  {
    var t, v := Launched(c, s, i), s.queue[i].node;
    EntryIsItsNode(c, s, i);
    forall w: nat | w < |s.nodes| ensures LighterAt(c, s.nodes, t.nodes, w) {}
    LighterMeasure(c, s, t, v);
  }

  lemma HitShrinks(c: Config, s: State, i: nat, unlocked: seq<ReadyEntry>)
    requires Inv(c, s) && Enabled(c, s, CacheHit(i, unlocked))
    ensures Measure(c, HitCache(c, s, i, unlocked)) < Measure(c, s)
  {
    var t, v := HitCache(c, s, i, unlocked), s.queue[i].node;
    EntryIsItsNode(c, s, i);
    assert OkAt(c, s, v);
    PropagatedLighter(c, s, v, s.nodes[v].(state := Cached));
    LighterMeasure(c, s, t, v);
  }

  lemma FailInlineShrinks(c: Config, s: State, i: nat, kind: ResultKind)
    requires Inv(c, s) && Enabled(c, s, FailInline(i, kind))
    ensures Measure(c, FailedInline(c, s, i, kind)) < Measure(c, s)
  {
    var t, v := FailedInline(c, s, i, kind), s.queue[i].node;
    EntryIsItsNode(c, s, i);
    assert OkAt(c, s, v);
    FailingLighter(c, s, s.nodes, v);
    LighterMeasure(c, s, t, v);
  }

  lemma FinishShrinks(c: Config, s: State, v: nat, kind: ResultKind, notBefore: int, unlocked: seq<ReadyEntry>)
    requires Inv(c, s) && Enabled(c, s, Finish(v, kind, notBefore, unlocked))
    ensures Measure(c, Finished(c, s, v, kind, notBefore, unlocked)) < Measure(c, s)
  {
    var t := Finished(c, s, v, kind, notBefore, unlocked);
    assert OkAt(c, s, v);
    if kind.SucceededResult? {
      FinishOkState(c, s, v, notBefore, unlocked);
      PropagatedLighter(c, s, v, s.nodes[v].(hasReservation := false, state := Succeeded));
    } else if s.cancelling || kind.CancelledResult? || Retries(c, s, v, kind) {
      forall w: nat | w < |s.nodes| ensures LighterAt(c, s.nodes, t.nodes, w) {}
    } else {
      FailingLighter(c, s, Returned(s, v, kind).nodes, v);
    }
    LighterMeasure(c, s, t, v);
  }

  lemma PromoteShrinks(c: Config, s: State, v: nat, stamp: int)
    requires Inv(c, s) && Enabled(c, s, Promote(v, stamp))
    ensures Measure(c, Promoted(c, s, v, stamp)) < Measure(c, s)
  {
    var t := Promoted(c, s, v, stamp);
    assert OkAt(c, s, v);
    forall w: nat | w < |s.nodes| ensures LighterAt(c, s.nodes, t.nodes, w) {}
    LighterMeasure(c, s, t, v);
  }

  lemma CancelShrinks(c: Config, s: State)
    requires Inv(c, s) && !s.cancelling
    ensures Measure(c, CancelBegun(s)) < Measure(c, s)
  {
    var t := CancelBegun(s);
    forall w: nat | w < |s.nodes| ensures Weights(c, t.nodes)[w] <= Weights(c, s.nodes)[w] {
      assert OkAt(c, s, w);
    }
    TotalMonotone(Weights(c, t.nodes), Weights(c, s.nodes));
  }

  /** Every step uses up some of the measure. */
  lemma StepShrinks(c: Config, s: State, step: Step)
    requires Inv(c, s) && Enabled(c, s, step)
    ensures Measure(c, Apply(c, s, step)) < Measure(c, s)
  {
    match step
    case Launch(i) => LaunchShrinks(c, s, i);
    case CacheHit(i, unlocked) => HitShrinks(c, s, i, unlocked);
    case FailInline(i, kind) => FailInlineShrinks(c, s, i, kind);
    case Finish(v, kind, notBefore, unlocked) => FinishShrinks(c, s, v, kind, notBefore, unlocked);
    case Promote(v, stamp) => PromoteShrinks(c, s, v, stamp);
    case BeginCancel => CancelShrinks(c, s);
  }

  /** No run has more steps than the measure of its first state: every run terminates, whatever the
      processes do. */
  lemma {:induction false} RunsAreBounded(c: Config, s: State, steps: seq<Step>)
    requires Inv(c, s) && Exec(c, s, steps).Some?
    ensures Inv(c, Exec(c, s, steps).value)
    ensures |steps| + Measure(c, Exec(c, s, steps).value) <= Measure(c, s)
    ensures |steps| <= Measure(c, s)
    decreases |steps|
  {
    ExecKeepsInv(c, s, steps);
    MeasureNonNegative(c, Exec(c, s, steps).value);
    if steps != [] {
      var front, last := steps[..|steps| - 1], steps[|steps| - 1];
      ExecLast(c, s, steps, front, last);
      RunsAreBounded(c, s, front);
      StepShrinks(c, Exec(c, s, front).value, last);
    }
  }

  // ---- launches ----

  function Launches(steps: seq<Step>): nat {
    if steps == [] then 0
    else Launches(steps[..|steps| - 1]) + if steps[|steps| - 1].Launch? then 1 else 0
  }

  function AttemptCounts(nodes: seq<Node>): (r: seq<int>)
    ensures |r| == |nodes|
  {
    seq(|nodes|, v requires 0 <= v < |nodes| => nodes[v].attempts)
  }

  function Budgets(c: Config): (r: seq<int>)
    ensures |r| == |c.tasks|
  {
    seq(|c.tasks|, v requires 0 <= v < |c.tasks| => MaxAttempts(c.tasks[v].retry))
  }

  lemma {:induction false} TotalUpdate(a: seq<int>, v: nat, x: int)
    requires v < |a|
    ensures Total(a[v := x]) == Total(a) - a[v] + x
    decreases |a|
  {
    var last := |a| - 1;
    if v == last {
      assert a[v := x][..last] == a[..last];
    } else {
      TotalUpdate(a[..last], v, x);
      assert a[v := x][..last] == a[..last][v := x];
    }
  }

  lemma FinishKeepsCounts(c: Config, s: State, v: nat, kind: ResultKind, notBefore: int, unlocked: seq<ReadyEntry>)
    requires Shape(c, s) && v < |s.nodes|
    ensures AttemptCounts(Finished(c, s, v, kind, notBefore, unlocked).nodes) == AttemptCounts(s.nodes)
  {
  }

  lemma OnlyLaunchCounts(c: Config, s: State, step: Step)
    requires Shape(c, s) && Enabled(c, s, step) && !step.Launch?
    ensures AttemptCounts(Apply(c, s, step).nodes) == AttemptCounts(s.nodes)
  {
    match step
    case CacheHit(i, unlocked) =>
    case FailInline(i, kind) =>
    case Finish(v, kind, notBefore, unlocked) => FinishKeepsCounts(c, s, v, kind, notBefore, unlocked);
    case Promote(_, _) =>
    case BeginCancel =>
  }

  lemma LaunchCounts(c: Config, s: State, i: nat)
    requires Inv(c, s) && Enabled(c, s, Launch(i))
    ensures Total(AttemptCounts(Launched(c, s, i).nodes)) == Total(AttemptCounts(s.nodes)) + 1
  {
    var v := s.queue[i].node;
    EntryIsItsNode(c, s, i);
    var counts := AttemptCounts(s.nodes);
    assert AttemptCounts(Launched(c, s, i).nodes) == counts[v := counts[v] + 1];
    TotalUpdate(counts, v, counts[v] + 1);
  }

  lemma {:induction false} LaunchesCounted(c: Config, s: State, steps: seq<Step>)
    requires Inv(c, s) && Exec(c, s, steps).Some?
    ensures Total(AttemptCounts(Exec(c, s, steps).value.nodes)) == Total(AttemptCounts(s.nodes)) + Launches(steps)
    decreases |steps|
  {
    if steps != [] {
      var front, last := steps[..|steps| - 1], steps[|steps| - 1];
      ExecLast(c, s, steps, front, last);
      LaunchesCounted(c, s, front);
      ExecKeepsInv(c, s, front);
      var t := Exec(c, s, front).value;
      if last.Launch? { LaunchCounts(c, t, last.i); } else { OnlyLaunchCounts(c, t, last); }
    }
  }

  lemma {:induction false} TotalZero(n: nat, a: seq<int>)
    requires |a| == n && forall k :: 0 <= k < n ==> a[k] == 0
    ensures Total(a) == 0
    decreases n
  {
    if n > 0 { TotalZero(n - 1, a[..n - 1]); }
  }

  /** A run starts at most as many processes as the attempt budgets add up to. */
  lemma LaunchesBounded(c: Config, s: State, steps: seq<Step>)
    requires IsSeeded(c, s) && Exec(c, s, steps).Some?
    ensures Launches(steps) <= Total(Budgets(c))
  {
    SeededInv(c, s);
    LaunchesCounted(c, s, steps);
    ExecKeepsInv(c, s, steps);
    var t := Exec(c, s, steps).value;
    TotalZero(|s.nodes|, AttemptCounts(s.nodes));
    forall v: nat | v < |t.nodes| ensures AttemptCounts(t.nodes)[v] <= Budgets(c)[v] { assert OkAt(c, t, v); }
    TotalMonotone(AttemptCounts(t.nodes), Budgets(c));
  }

  // ---- no deadlock ----

  lemma {:induction false} FirstFitting(c: Config, s: State, k: nat) returns (i: nat)
    requires Inv(c, s) && k <= |s.queue|
    ensures i <= k && BlockedBefore(c, s, i)
    ensures i < k ==> s.queue[i].node < |c.tasks| && Fits(s.used, Request(c, s.queue[i].node), c.capacity)
    decreases k
  {
    if k == 0 {
      i := 0;
    } else {
      i := FirstFitting(c, s, k - 1);
      EntryIsItsNode(c, s, k - 1);
      if i == k - 1 && BlockedAt(c, s, k - 1) { i := k; }
    }
  }

  /** As long as a run is not settled it can go on: a running process reports, a timer fires, the first
      fitting task is launched, or, with nothing running, the unschedulable ones are failed. */
  lemma NoDeadlock(c: Config, s: State)
    requires Inv(c, s) && !Settled(s)
    ensures exists step :: Enabled(c, s, step) && !step.BeginCancel?
  {
    if s.running > 0 {
      assert RunningNodes(s.nodes) != {};
      var v :| v in RunningNodes(s.nodes);
      assert OkAt(c, s, v);
      DependentFacts(c, s, v);
      assert Enabled(c, s, Finish(v, FailedExit, 0, []));
    } else if Waits(s.nodes) {
      var v: nat :| v < |s.nodes| && s.nodes[v].waiting;
      assert OkAt(c, s, v);
      assert Enabled(c, s, Promote(v, s.nodes[v].notBefore));
    } else {
      EntryIsItsNode(c, s, 0);
      assert OkAt(c, s, s.queue[0].node);
      var i := FirstFitting(c, s, |s.queue|);
      if i < |s.queue| {
        assert Enabled(c, s, Launch(i));
      } else {
        assert Enabled(c, s, FailInline(0, StartFailure));
      }
    }
  }

  /** A run that can take no further step is settled. */
  lemma MaximalRunsSettle(c: Config, s: State, steps: seq<Step>)
    requires IsSeeded(c, s) && Exec(c, s, steps).Some?
    requires forall step :: Exec(c, s, steps + [step]).None? || step.BeginCancel?
    ensures Settled(Exec(c, s, steps).value)
  {
    SeededInv(c, s);
    ExecKeepsInv(c, s, steps);
    var t := Exec(c, s, steps).value;
    forall step | Enabled(c, t, step) ensures Exec(c, s, steps + [step]).Some? {
      assert (steps + [step])[..|steps + [step]| - 1] == steps;
    }
    if !Settled(t) { NoDeadlock(c, t); }
  }

  // ---- the safety net for unschedulable tasks ----

  lemma EmptyPool(c: Config, s: State)
    requires Inv(c, s) && NonNegativeTasks(c) && s.running == 0
    ensures s.used == NO_RESOURCES
  {
    assert RunningNodes(s.nodes) == {};
    IdleUsesNothing(c, s.nodes);
  }

  /** With nothing running the pool is empty, so the drain only ever fails tasks that exceed the machine. */
  lemma StuckMeansTooBig(c: Config, s: State, i: nat)
    requires Inv(c, s) && NonNegativeTasks(c) && Enabled(c, s, FailInline(i, StartFailure))
    ensures forall j :: 0 <= j < |s.queue| ==> !FitsWithin(Request(c, s.queue[j].node), c.capacity)
  {
    EmptyPool(c, s);
    forall j | 0 <= j < |s.queue| ensures !FitsWithin(Request(c, s.queue[j].node), c.capacity) {
      assert BlockedAt(c, s, j);
    }
  }

  /** The step that fails a task as unschedulable. */
  predicate Drains(step: Step) {
    step.FailInline? && step.kind.StartFailure?
  }

  lemma CheckedNeverStuck(c: Config, s: State, step: Step)
    requires Inv(c, s) && ResourceChecked(c) && Enabled(c, s, step)
    ensures !Drains(step)
  {
    if Drains(step) {
      EntryIsItsNode(c, s, 0);
      StuckMeansTooBig(c, s, step.i);
    }
  }

  /** If every task passed the validator's resource checks, no run ever drains the queue as unschedulable. */
  lemma {:induction false} DrainUnreachable(c: Config, s: State, steps: seq<Step>)
    requires Inv(c, s) && Exec(c, s, steps).Some? && ResourceChecked(c)
    ensures forall step :: step in steps ==> !Drains(step)
    decreases |steps|
  {
    if steps != [] {
      var front, last := steps[..|steps| - 1], steps[|steps| - 1];
      ExecLast(c, s, steps, front, last);
      DrainUnreachable(c, s, front);
      ExecKeepsInv(c, s, front);
      CheckedNeverStuck(c, Exec(c, s, front).value, last);
      assert steps == front + [last];
    }
  }
}
