/** The outcome of a run does not depend on its schedule: how many slots there are, which tasks fit together, in which
    order reports arrive and timers fire. It depends only on how each attempt of each task goes. */
module SchedulerDeterminism {
  import opened Domain
  import opened Digraph
  import opened Kahn
  import opened DagBuilder
  import opened ReadyQueues
  import opened SchedulerModel
  import opened SchedulerInvariant
  import opened SchedulerSteps
  import opened SchedulerTheorems
  import opened SchedulerHistory
  import opened SchedulerRuns
  import opened SchedulerRefinement

  /** How one attempt went: what it left the task in, and why. */
  datatype Resolution = Resolution(finalState: TaskState, kind: ResultKind)

  /** How the k-th attempt of task v goes, whenever it is made. */
  type Fate = (nat, nat) -> Resolution

  function Resolved(a: Attempt): Resolution {
    Resolution(a.finalState, a.kind)
  }

  function Outcomes(attempts: seq<Attempt>): (r: seq<Resolution>)
    ensures |r| == |attempts|
  {
    seq(|attempts|, k requires 0 <= k < |attempts| => Resolved(attempts[k]))
  }

  // ---- what a step records ----

  function RecordedFor(s: State, step: Step): Option<nat> {
    match step
    case CacheHit(i, _) => if i < |s.queue| then Some(s.queue[i].node) else None
    case FailInline(i, _) => if i < |s.queue| then Some(s.queue[i].node) else None
    case Finish(v, _, _, _) => Some(v)
    case _ => None
  }

  function RecordedAs(step: Step): Resolution {
    match step
    case CacheHit(_, _) => Resolution(Cached, SucceededResult)
    case FailInline(_, kind) => Resolution(Failed, kind)
    case Finish(_, kind, _, _) => Resolution(if kind.SucceededResult? then Succeeded else Failed, kind)
    case _ => Resolution(Pending, SucceededResult)
  }

  /** A step appends one record to the history of at most one task. */
  lemma StepRecords(c: Config, s: State, step: Step, v: nat)
    requires Inv(c, s) && Enabled(c, s, step) && v < |s.nodes|
    ensures var a, b := s.runs[v].attempts, Apply(c, s, step).runs[v].attempts;
      if RecordedFor(s, step) == Some(v) then |b| == |a| + 1 && b[..|a|] == a && Resolved(b[|a|]) == RecordedAs(step)
      else b == a
  {
    match step
    case Launch(i) => EntryIsItsNode(c, s, i);
    case CacheHit(i, unlocked) => EntryIsItsNode(c, s, i);
    case FailInline(i, kind) => EntryIsItsNode(c, s, i);
    case Finish(u, kind, notBefore, unlocked) => FinishAppends(c, s, u, kind, notBefore, unlocked, v);
    case Promote(u, stamp) =>
    case BeginCancel =>
  }

  lemma FinishAppends(c: Config, s: State, u: nat, kind: ResultKind, notBefore: int, unlocked: seq<ReadyEntry>, v: nat)
    requires Inv(c, s) && Enabled(c, s, Finish(u, kind, notBefore, unlocked)) && v < |s.nodes|
    ensures Finished(c, s, u, kind, notBefore, unlocked).runs[v].attempts == Returned(s, u, kind).runs[v].attempts
  {
  }

  /** The step goes as fate has it. */
  ghost predicate Obeys(s: State, step: Step, fate: Fate) {
    var v := RecordedFor(s, step);
    v.Some? && v.value < |s.runs| ==> RecordedAs(step) == fate(v.value, |s.runs[v.value].attempts|)
  }

  ghost predicate RunObeys(c: Config, s: State, steps: seq<Step>, fate: Fate)
    decreases |steps|
  {
    steps != [] ==>
      && RunObeys(c, s, steps[..|steps| - 1], fate)
      && var t := Exec(c, s, steps[..|steps| - 1]); t.Some? && Obeys(t.value, steps[|steps| - 1], fate)
  }

  /** The histories show fate. */
  ghost predicate Shows(t: State, fate: Fate) {
    forall v: nat, k: nat :: v < |t.runs| && k < |t.runs[v].attempts| ==> Resolved(t.runs[v].attempts[k]) == fate(v, k)
  }

  lemma StepShows(c: Config, s: State, step: Step, fate: Fate)
    requires Inv(c, s) && Enabled(c, s, step) && Shows(s, fate) && Obeys(s, step, fate)
    ensures Shows(Apply(c, s, step), fate)
  {
    var t := Apply(c, s, step);
    forall v: nat, k: nat | v < |t.runs| && k < |t.runs[v].attempts|
      ensures Resolved(t.runs[v].attempts[k]) == fate(v, k)
    {
      StepRecords(c, s, step, v);
      if k < |s.runs[v].attempts| { assert t.runs[v].attempts[k] == s.runs[v].attempts[k]; }
    }
  }

  lemma SeededBare(c: Config, s: State)
    requires IsSeeded(c, s)
    ensures |s.nodes| == |s.runs| == |c.tasks|
    ensures forall v: nat :: v < |s.runs| ==> s.runs[v].attempts == []
  {
    var es :| SeededWith(c, es, s);
  }

  lemma ObeysLast(c: Config, s: State, steps: seq<Step>, front: seq<Step>, last: Step, t: State, fate: Fate)
    requires RunObeys(c, s, steps, fate) && steps == front + [last] && Exec(c, s, front) == Some(t)
    ensures RunObeys(c, s, front, fate) && Obeys(t, last, fate)
  {
    assert steps[..|steps| - 1] == front;
  }

  lemma LastShows(c: Config, s: State, front: seq<Step>, r: State, last: Step, fate: Fate)
    requires IsSeeded(c, s) && Exec(c, s, front) == Some(r) && Shape(c, r) && Enabled(c, r, last)
    requires Shows(r, fate) && Obeys(r, last, fate)
    ensures Shows(Apply(c, r, last), fate)
  {
    RunInv(c, s, front, r);
    StepShows(c, r, last, fate);
  }

  lemma {:induction false} RunShows(c: Config, s: State, steps: seq<Step>, t: State, fate: Fate)
    requires IsSeeded(c, s) && Exec(c, s, steps) == Some(t) && RunObeys(c, s, steps, fate)
    ensures Shows(t, fate)
    decreases |steps|
  {
    if steps == [] {
      SeededBare(c, s);
    } else {
      var front, last := steps[..|steps| - 1], steps[|steps| - 1];
      assert steps == front + [last];
      ExecLast(c, s, steps, front, last);
      var r := Exec(c, s, front).value;
      ObeysLast(c, s, steps, front, last, r, fate);
      RunShows(c, s, front, r, fate);
      LastShows(c, s, front, r, last, fate);
    }
  }

  // ---- nobody gives up too early ----

  /** A task that failed for good with a retryable failure has used up its attempts. */
  ghost predicate Exhausted(c: Config, s: State, v: nat)
    requires v < |s.nodes| && v < |s.runs| && v < |c.tasks|
  {
    var attempts := s.runs[v].attempts;
    s.nodes[v].state.Failed? && attempts != [] && RetryableFailure(attempts[|attempts| - 1]) ==>
      |attempts| >= MaxAttempts(c.tasks[v].retry)
  }

  /** A task fails only with a record. */
  lemma FailureIsRecorded(c: Config, s: State, step: Step, v: nat)
    requires Inv(c, s) && Enabled(c, s, step) && v < |s.nodes|
    requires Apply(c, s, step).nodes[v].state.Failed? && !s.nodes[v].state.Failed?
    ensures RecordedFor(s, step) == Some(v)
    ensures step.FailInline? || (step.Finish? && s.nodes[v].state.Running? && !Retries(c, s, v, step.kind))
  {
    match step
    case Launch(i) => EntryIsItsNode(c, s, i);
    case CacheHit(i, unlocked) => HitFailsNobody(c, s, i, unlocked, v);
    case FailInline(i, kind) => EntryIsItsNode(c, s, i);
    case Finish(u, kind, notBefore, unlocked) => FinalFailure(c, s, u, kind, notBefore, unlocked, v);
    case Promote(u, stamp) =>
    case BeginCancel =>
  }

  lemma HitFailsNobody(c: Config, s: State, i: nat, unlocked: seq<ReadyEntry>, v: nat)
    requires Inv(c, s) && Enabled(c, s, CacheHit(i, unlocked)) && v < |s.nodes|
    ensures HitCache(c, s, i, unlocked).nodes[v].state.Failed? ==> s.nodes[v].state.Failed?
  {
    EntryIsItsNode(c, s, i);
  }

  lemma FinalFailure(c: Config, s: State, u: nat, kind: ResultKind, notBefore: int, unlocked: seq<ReadyEntry>, v: nat)
    requires Inv(c, s) && Enabled(c, s, Finish(u, kind, notBefore, unlocked)) && v < |s.nodes|
    requires Finished(c, s, u, kind, notBefore, unlocked).nodes[v].state.Failed? && !s.nodes[v].state.Failed?
    ensures u == v && !Retries(c, s, v, kind)
  {
  }

  lemma StepExhausts(c: Config, s: State, step: Step, v: nat)
    requires Inv(c, s) && Enabled(c, s, step) && v < |s.nodes| && Exhausted(c, s, v)
    ensures Exhausted(c, Apply(c, s, step), v)
  {
    if Apply(c, s, step).nodes[v].state.Failed? {
      if s.nodes[v].state.Failed? {
        StepRecords(c, s, step, v);
        NotResolvedAgain(c, s, step, v);
      } else {
        NewFailureExhausts(c, s, step, v);
      }
    }
  }

  lemma NewFailureExhausts(c: Config, s: State, step: Step, v: nat)
    requires Inv(c, s) && Enabled(c, s, step) && v < |s.nodes|
    requires Apply(c, s, step).nodes[v].state.Failed? && !s.nodes[v].state.Failed?
    ensures Exhausted(c, Apply(c, s, step), v)
  {
    StepRecords(c, s, step, v);
    FailureIsRecorded(c, s, step, v);
    assert OkAt(c, s, v);
  }

  lemma NotResolvedAgain(c: Config, s: State, step: Step, v: nat)
    requires Inv(c, s) && Enabled(c, s, step) && v < |s.nodes| && s.nodes[v].state.Failed?
    ensures RecordedFor(s, step) != Some(v)
  {
    match step
    case CacheHit(i, unlocked) => EntryIsItsNode(c, s, i);
    case FailInline(i, kind) => EntryIsItsNode(c, s, i);
    case _ =>
  }

  lemma {:induction false} RunExhausts(c: Config, s: State, steps: seq<Step>, v: nat)
    requires IsSeeded(c, s) && Exec(c, s, steps).Some? && v < |s.nodes|
    ensures var t := Exec(c, s, steps).value;
      v < |t.nodes| && v < |t.runs| && v < |c.tasks| && Exhausted(c, t, v)
    decreases |steps|
  {
    SeededBare(c, s);
    if steps != [] {
      var front, last := steps[..|steps| - 1], steps[|steps| - 1];
      ExecLast(c, s, steps, front, last);
      RunExhausts(c, s, front, v);
      RunInv(c, s, front, Exec(c, s, front).value);
      StepExhausts(c, Exec(c, s, front).value, last, v);
    }
  }

  // ---- the end of a run, task by task ----

  /** All attempts but the last were retryable failures; the last was not, or no attempt was left. */
  predicate Complete(attempts: seq<Attempt>, most: int) {
    && 0 < |attempts| <= most && AllRetryable(attempts[..|attempts| - 1])
    && (RetryableFailure(attempts[|attempts| - 1]) ==> |attempts| >= most)
  }

  /** A complete run that was not cancelled, and whose runner is honest. */
  ghost predicate RanToEnd(c: Config, s: State, steps: seq<Step>, t: State) {
    && IsSeeded(c, s) && Exec(c, s, steps) == Some(t) && Settled(t)
    && HonestRunner(steps) && BeginCancel !in steps
  }

  /** How task v ended: skipped below a failure without any attempt, or in the state that its last attempt left. */
  ghost predicate Decided(c: Config, t: State, v: nat)
    requires v < |t.nodes| && v < |t.runs| && v < |c.tasks|
  {
    var attempts := t.runs[v].attempts;
    if FailedAbove(c, t, v) then t.nodes[v].state.Skipped? && attempts == []
    else Complete(attempts, MaxAttempts(c.tasks[v].retry)) && t.nodes[v].state == attempts[|attempts| - 1].finalState
  }

  lemma EndDecided(c: Config, s: State, steps: seq<Step>, t: State, v: nat)
    requires RanToEnd(c, s, steps, t) && v < |c.tasks|
    ensures v < |t.nodes| && v < |t.runs| && Decided(c, t, v)
  {
    SeededInv(c, s);
    ExecKeepsInv(c, s, steps);
    RunExhausts(c, s, steps, v);
    UncancelledOutcome(c, s, steps, t, v);
    assert OkAt(c, t, v);
  }

  /** Two complete histories that show the same fate are the same. */
  lemma SameFateSameEnd(a: seq<Attempt>, b: seq<Attempt>, most: int)
    requires Complete(a, most) && Complete(b, most)
    requires forall k: nat :: k < |a| && k < |b| ==> Resolved(a[k]) == Resolved(b[k])
    ensures Outcomes(a) == Outcomes(b)
  {
    NotShorter(a, b, most);
    NotShorter(b, a, most);
  }

  lemma NotShorter(a: seq<Attempt>, b: seq<Attempt>, most: int)
    requires Complete(a, most) && Complete(b, most)
    requires forall k: nat :: k < |a| && k < |b| ==> Resolved(a[k]) == Resolved(b[k])
    ensures |a| >= |b|
  {
    forall k: nat | k < |a| && k < |b| - 1 ensures RetryableFailure(a[k]) {
      assert b[..|b| - 1][k] == b[k] && Resolved(a[k]) == Resolved(b[k]);
    }
  }

  // ---- two runs ----

  /** The same tasks: one graph, one retry policy for each task. Slots, capacity, requirements and priorities may differ. */
  ghost predicate SamePipeline(c: Config, d: Config) {
    c.dag == d.dag && |c.tasks| == |d.tasks| && forall v: nat :: v < |c.tasks| ==> c.tasks[v].retry == d.tasks[v].retry
  }

  /** Task v ended alike in both. */
  ghost predicate EndsAlike(t: State, u: State, v: nat) {
    && v < |t.nodes| && v < |u.nodes| && v < |t.runs| && v < |u.runs|
    && t.nodes[v].state == u.nodes[v].state && Outcomes(t.runs[v].attempts) == Outcomes(u.runs[v].attempts)
  }

  lemma AlikeBelow(c: Config, t: State, d: Config, u: State, v: nat, fate: Fate)
    requires SamePipeline(c, d) && v < |c.tasks| == |t.nodes| == |u.nodes| == |t.runs| == |u.runs|
    requires Decided(c, t, v) && Decided(d, u, v) && Shows(t, fate) && Shows(u, fate)
    requires FailedAbove(c, t, v) <==> FailedAbove(d, u, v)
    ensures EndsAlike(t, u, v)
  {
    var a, b := t.runs[v].attempts, u.runs[v].attempts;
    if !FailedAbove(c, t, v) {
      assert forall k: nat :: k < |a| && k < |b| ==> Resolved(a[k]) == Resolved(b[k]);
      SameFateSameEnd(a, b, MaxAttempts(c.tasks[v].retry));
      assert Outcomes(a)[|a| - 1] == Outcomes(b)[|b| - 1];
    }
  }

  lemma {:induction false} AlikeByRank(c: Config, t: State, d: Config, u: State, fate: Fate, rank: seq<nat>, v: nat)
    requires SamePipeline(c, d) && ValidConfig(c) && |c.tasks| == |t.nodes| == |u.nodes| == |t.runs| == |u.runs|
    requires forall w: nat :: w < |c.tasks| ==> Decided(c, t, w) && Decided(d, u, w)
    requires Shows(t, fate) && Shows(u, fate)
    requires Ranking(c.dag.succ, rank) && v < |c.tasks|
    ensures EndsAlike(t, u, v)
    decreases rank[v]
  {
    forall w: nat | w < |c.tasks| && Reaches(c.dag.succ, w, v) ensures EndsAlike(t, u, w) {
      ReachesRaisesRank(c.dag.succ, rank, w, v);
      AlikeByRank(c, t, d, u, fate, rank, w);
    }
    AlikeBelow(c, t, d, u, v, fate);
  }

  /** Two complete runs of the same pipeline in which every attempt goes the same way end alike, task by task and
      as a whole, whatever the slots, the resources, the priorities and the order of events. */
  lemma SameFateSameOutcome(c: Config, s: State, steps: seq<Step>, t: State,
                            d: Config, r: State, others: seq<Step>, u: State, fate: Fate)
    requires SamePipeline(c, d) && RanToEnd(c, s, steps, t) && RanToEnd(d, r, others, u)
    requires Shows(t, fate) && Shows(u, fate)
    ensures |t.nodes| == |u.nodes| && forall v: nat :: v < |t.nodes| ==> EndsAlike(t, u, v)
    ensures forall requested :: Verdict(t, requested) == Verdict(u, requested)
  {
    SeededInv(c, s);
    ExecKeepsInv(c, s, steps);
    SeededInv(d, r);
    ExecKeepsInv(d, r, others);
    MirroredInRange(c.dag.succ, c.dag.pred);
    var rank := KahnOrderRanks(c.dag.succ, c.dag.topo);
    forall w: nat | w < |c.tasks| ensures Decided(c, t, w) && Decided(d, u, w) {
      EndDecided(c, s, steps, t, w);
      EndDecided(d, r, others, u, w);
    }
    forall v: nat | v < |t.nodes| ensures EndsAlike(t, u, v) { AlikeByRank(c, t, d, u, fate, rank, v); }
    CancellingIsRecorded(c, s, steps);
    CancellingIsRecorded(d, r, others);
    SameVerdict(t, u);
  }

  lemma SameVerdict(t: State, u: State)
    requires |t.nodes| == |u.nodes| && t.cancelling == u.cancelling
    requires forall v: nat :: v < |t.nodes| ==> EndsAlike(t, u, v)
    ensures forall requested :: Verdict(t, requested) == Verdict(u, requested)
  {
    assert AnyInState(t, Failed) <==> AnyInState(u, Failed) by {
      if v: nat :| v < |t.nodes| && t.nodes[v].state == Failed { assert EndsAlike(t, u, v); }
      if v: nat :| v < |u.nodes| && u.nodes[v].state == Failed { assert EndsAlike(t, u, v); }
    }
  }

  /** The same of the steps: it is enough that each report and each resolution without a launch goes as fate has it. */
  lemma Deterministic(c: Config, s: State, steps: seq<Step>, t: State,
                      d: Config, r: State, others: seq<Step>, u: State, fate: Fate)
    requires SamePipeline(c, d) && RanToEnd(c, s, steps, t) && RanToEnd(d, r, others, u)
    requires RunObeys(c, s, steps, fate) && RunObeys(d, r, others, fate)
    ensures |t.nodes| == |u.nodes| && forall v: nat :: v < |t.nodes| ==> EndsAlike(t, u, v)
    ensures forall requested :: Verdict(t, requested) == Verdict(u, requested)
  {
    RunShows(c, s, steps, t, fate);
    RunShows(d, r, others, u, fate);
    SameFateSameOutcome(c, s, steps, t, d, r, others, u, fate);
  }
}
