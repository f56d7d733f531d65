/** How single tasks move: transitions, attempt records, launch order, cancellation. */
module SchedulerHistory {
  import opened Domain
  import opened Digraph
  import opened Kahn
  import opened DagBuilder
  import opened ReadyQueues
  import opened ResourcePools
  import opened SchedulerModel
  import opened SchedulerInvariant
  import opened SchedulerSteps
  import opened SchedulerTheorems

  // ---- transitions ----

  ghost function StateAfter(c: Config, s: State, step: Step, v: nat): TaskState
    requires Shape(c, s) && Enabled(c, s, step) && v < |s.nodes|
  {
    Apply(c, s, step).nodes[v].state
  }

  /** The moves the code makes: those of the documented table, and READY to FAILED. */
  predicate ActualTransition(from: TaskState, to: TaskState) {
    IsValidTransition(from, to) || (from.Ready? && to.Failed?)
  }

  lemma HitMoves(c: Config, s: State, i: nat, unlocked: seq<ReadyEntry>, v: nat)
    requires Inv(c, s) && Enabled(c, s, CacheHit(i, unlocked)) && v < |s.nodes|
    ensures var to := HitCache(c, s, i, unlocked).nodes[v].state;
            to == s.nodes[v].state || IsValidTransition(s.nodes[v].state, to)
  {
    EntryIsItsNode(c, s, i);
    assert OkAt(c, s, v);
    DependentFacts(c, s, s.queue[i].node);
  }

  lemma FailInlineMoves(c: Config, s: State, i: nat, kind: ResultKind, v: nat)
    requires Inv(c, s) && Enabled(c, s, FailInline(i, kind)) && v < |s.nodes|
    ensures var to := FailedInline(c, s, i, kind).nodes[v].state;
            if v == s.queue[i].node then s.nodes[v].state.Ready? && to.Failed?
            else to == s.nodes[v].state || IsValidTransition(s.nodes[v].state, to)
  {
    var u := s.queue[i].node;
    EntryIsItsNode(c, s, i);
    FailingFrames(c, s, s.nodes, u);
    if v != u { FailingFacts(c, s, s.nodes, u, v); }
  }

  lemma FinishMoves(c: Config, s: State, u: nat, kind: ResultKind, notBefore: int, unlocked: seq<ReadyEntry>, v: nat)
    requires Inv(c, s) && Enabled(c, s, Finish(u, kind, notBefore, unlocked)) && v < |s.nodes|
    ensures var to := Finished(c, s, u, kind, notBefore, unlocked).nodes[v].state;
            to == s.nodes[v].state || IsValidTransition(s.nodes[v].state, to)
  {
    assert OkAt(c, s, v);
    DependentFacts(c, s, u);
    if !kind.SucceededResult? && !s.cancelling && !kind.CancelledResult? && !Retries(c, s, u, kind) {
      var nodes0 := Returned(s, u, kind).nodes;
      FailingFrames(c, s, nodes0, u);
      if v != u { FailingFacts(c, s, nodes0, u, v); }
    }
  }

  lemma StepMoves(c: Config, s: State, step: Step, v: nat)
    requires Inv(c, s) && Enabled(c, s, step) && v < |s.nodes|
    ensures var to := StateAfter(c, s, step, v);
            && (to != s.nodes[v].state ==> ActualTransition(s.nodes[v].state, to))
            && (to != s.nodes[v].state && !IsValidTransition(s.nodes[v].state, to) <==>
                  step.FailInline? && v == s.queue[step.i].node)
  {
    match step
    case Launch(i) => EntryIsItsNode(c, s, i);
    case CacheHit(i, unlocked) => HitMoves(c, s, i, unlocked, v);
    case FailInline(i, kind) => FailInlineMoves(c, s, i, kind, v);
    case Finish(u, kind, notBefore, unlocked) => FinishMoves(c, s, u, kind, notBefore, unlocked, v);
    case Promote(u, stamp) =>
    case BeginCancel => assert OkAt(c, s, v);
  }

  /** A step obeys the documented transition table for every task exactly when it is not an inline failure,
      which takes READY to FAILED. */
  lemma TableHoldsExactly(c: Config, s: State, step: Step)
    requires Inv(c, s) && Enabled(c, s, step)
    ensures (forall v: nat :: v < |s.nodes| && StateAfter(c, s, step, v) != s.nodes[v].state ==>
               IsValidTransition(s.nodes[v].state, StateAfter(c, s, step, v)))
            <==> !step.FailInline?
  {
    forall v: nat | v < |s.nodes|
      ensures StateAfter(c, s, step, v) != s.nodes[v].state && !IsValidTransition(s.nodes[v].state, StateAfter(c, s, step, v))
              <==> step.FailInline? && v == s.queue[step.i].node
    {
      StepMoves(c, s, step, v);
    }
    if step.FailInline? {
      var v := s.queue[step.i].node;
      EntryIsItsNode(c, s, step.i);
      assert StateAfter(c, s, step, v) != s.nodes[v].state;
    }
  }

  /** A task that has reached a terminal state stays in it for the rest of the run. */
  lemma {:induction false} TerminalForever(c: Config, s: State, steps: seq<Step>, v: nat)
    requires Inv(c, s) && Exec(c, s, steps).Some? && v < |s.nodes| && IsTerminal(s.nodes[v].state)
    ensures var t := Exec(c, s, steps).value; v < |t.nodes| && t.nodes[v].state == s.nodes[v].state
    decreases |steps|
  {
    if steps != [] {
      var front, last := steps[..|steps| - 1], steps[|steps| - 1];
      ExecLast(c, s, steps, front, last);
      TerminalForever(c, s, front, v);
      ExecKeepsInv(c, s, front);
      StepMoves(c, Exec(c, s, front).value, last, v);
    }
  }

  // ---- attempt records ----

  predicate UniqueNumbers(attempts: seq<Attempt>) {
    forall i, j :: 0 <= i < j < |attempts| ==> attempts[i].number != attempts[j].number
  }

  /** A task never has more records than its attempt budget, and its records repeat a number (which the
      database schema declares unique) exactly when a task that had been launched was later resolved
      without a launch. */
  lemma HistoryShape(c: Config, s: State, v: nat)
    requires Inv(c, s) && v < |s.nodes|
    ensures var attempts := s.runs[v].attempts;
            && |attempts| <= MaxAttempts(c.tasks[v].retry)
            && (forall k :: 0 <= k < |attempts| && k < s.nodes[v].attempts ==> attempts[k].number == k + 1)
            && (forall k :: 0 <= k < |attempts| - 1 ==> RetryableFailure(attempts[k]))
            && (UniqueNumbers(attempts) <==> s.nodes[v].attempts == 0 || |attempts| <= s.nodes[v].attempts)
  {
    assert OkAt(c, s, v);
    var attempts := s.runs[v].attempts;
    if |attempts| > s.nodes[v].attempts >= 1 {
      assert attempts[|attempts| - 2].number == attempts[|attempts| - 1].number;
    }
    if |attempts| >= 1 {
      var front := attempts[..|attempts| - 1];
      assert forall k :: 0 <= k < |front| ==> front[k] == attempts[k];
    }
  }

  /** The task that a step resolves without launching it. */
  ghost predicate ResolvesInline(s: State, step: Step, v: nat) {
    match step
    case CacheHit(i, _) => i < |s.queue| && s.queue[i].node == v
    case FailInline(i, _) => i < |s.queue| && s.queue[i].node == v
    case _ => false
  }

  lemma InlineRecords(c: Config, s: State, step: Step, v: nat)
    requires Inv(c, s) && Enabled(c, s, step) && v < |s.nodes| && ResolvesInline(s, step, v)
    ensures var t := Apply(c, s, step);
            && t.nodes[v].attempts == s.nodes[v].attempts && |t.runs[v].attempts| == |s.runs[v].attempts| + 1
            && |s.runs[v].attempts| == s.nodes[v].attempts
  {
    EntryIsItsNode(c, s, match step case CacheHit(i, _) => i case FailInline(i, _) => i);
    assert OkAt(c, s, v);
  }

  /** What a step that does not resolve v inline does to its launch count and its records. */
  predicate RecordsGrow(node: Node, run: TaskRun, node': Node, run': TaskRun) {
    && node'.attempts >= node.attempts
    && (|run'.attempts| == |run.attempts| || (node.state.Running? && |run'.attempts| == |run.attempts| + 1))
    && (node.attempts == 0 < node'.attempts ==> node.state.Ready?)
  }

  lemma InlineLeavesOthers(c: Config, s: State, step: Step, v: nat)
    requires Inv(c, s) && Enabled(c, s, step) && v < |s.nodes| && !ResolvesInline(s, step, v)
    requires step.CacheHit? || step.FailInline?
    ensures var t := Apply(c, s, step); RecordsGrow(s.nodes[v], s.runs[v], t.nodes[v], t.runs[v])
  {
    EntryIsItsNode(c, s, step.i);
  }

  lemma FinishRecords(c: Config, s: State, step: Step, v: nat)
    requires Inv(c, s) && Enabled(c, s, step) && v < |s.nodes| && step.Finish?
    ensures var t := Apply(c, s, step); RecordsGrow(s.nodes[v], s.runs[v], t.nodes[v], t.runs[v])
  {
    var r := Returned(s, step.v, step.kind);
    assert |r.runs[v].attempts| == |s.runs[v].attempts| + if v == step.v then 1 else 0;
  }

  lemma OtherRecords(c: Config, s: State, step: Step, v: nat)
    requires Inv(c, s) && Enabled(c, s, step) && v < |s.nodes| && !ResolvesInline(s, step, v)
    ensures var t := Apply(c, s, step); RecordsGrow(s.nodes[v], s.runs[v], t.nodes[v], t.runs[v])
  {
    match step
    case Launch(i) => EntryIsItsNode(c, s, i);
    case CacheHit(_, _) => InlineLeavesOthers(c, s, step, v);
    case FailInline(_, _) => InlineLeavesOthers(c, s, step, v);
    case Finish(_, _, _, _) => FinishRecords(c, s, step, v);
    case Promote(_, _) =>
    case BeginCancel =>
  }

  /** A step makes a record number repeat if and only if it resolves inline a task that was already
      launched before, that is, one that came back into the queue for a retry. */
  lemma NumberRepeatsExactly(c: Config, s: State, step: Step, v: nat)
    requires Inv(c, s) && Enabled(c, s, step) && v < |s.nodes| && UniqueNumbers(s.runs[v].attempts)
    ensures UniqueNumbers(Apply(c, s, step).runs[v].attempts) <==>
            !(ResolvesInline(s, step, v) && s.nodes[v].attempts >= 1)
  {
    StepKeepsInv(c, s, step);
    HistoryShape(c, s, v);
    HistoryShape(c, Apply(c, s, step), v);
    assert OkAt(c, s, v);
    if ResolvesInline(s, step, v) { InlineRecords(c, s, step, v); } else { OtherRecords(c, s, step, v); }
  }

  // ---- launch order ----

  /** Whatever task the launch phase acts on, every queued task the policy prefers to it does not fit
      beside what is running: it is the first in policy order that is not blocked. */
  lemma ActsInPolicyOrder(c: Config, s: State, i: nat, e: ReadyEntry)
    requires Inv(c, s) && Considering(c, s, i)
    requires e in s.queue && Prefer(e, s.queue[i])
    ensures !Fits(s.used, Request(c, e.node), c.capacity)
  {
    var j :| 0 <= j < |s.queue| && s.queue[j] == e;
    PreferTotal(e, s.queue[i]);
    assert BlockedAt(c, s, j);
  }

  // ---- cancellation ----

  /** What the steps after begin_cancel can do to a task. */
  predicate CancelOutcome(before: TaskState, after: TaskState) {
    if before.Running? then after.Running? || after.Succeeded? || after.Cancelled? else after == before
  }

  lemma CancellingQueueEmpty(c: Config, s: State)
    requires Inv(c, s) && s.cancelling
    ensures s.queue == []
  {
    if s.queue != [] { QueuedIsOk(c, s, 0); }
  }

  /** A report handled while cancelling. */
  lemma CancellingFinish(c: Config, s: State, u: nat, kind: ResultKind, notBefore: int, unlocked: seq<ReadyEntry>, v: nat)
    requires Inv(c, s) && s.cancelling && u < |s.nodes| && s.nodes[u].state.Running? && v < |s.nodes|
    ensures var t := Finished(c, s, u, kind, notBefore, unlocked);
            |t.nodes| == |s.nodes| && t.nodes[v].attempts == s.nodes[v].attempts
            && CancelOutcome(s.nodes[v].state, t.nodes[v].state)
  {
    DependentFacts(c, s, u);
    assert OkAt(c, s, v);
  }

  lemma CancellingStep(c: Config, s: State, step: Step)
    requires Inv(c, s) && s.cancelling && Enabled(c, s, step)
    ensures step.Finish? && Apply(c, s, step).queue == []
    ensures var t := Apply(c, s, step);
            forall v: nat :: v < |s.nodes| ==>
              t.nodes[v].attempts == s.nodes[v].attempts && CancelOutcome(s.nodes[v].state, t.nodes[v].state)
  {
    CancellingQueueEmpty(c, s);
    StepKeepsInv(c, s, step);
    CancellingQueueEmpty(c, Apply(c, s, step));
    var t := Apply(c, s, step);
    forall v: nat | v < |s.nodes|
      ensures t.nodes[v].attempts == s.nodes[v].attempts && CancelOutcome(s.nodes[v].state, t.nodes[v].state)
    {
      CancellingFinish(c, s, step.v, step.kind, step.notBefore, step.unlocked, v);
    }
  }

  /** After begin_cancel only reports of running processes are handled: nothing is launched or queued again,
      attempt counts stand still, every task that was not running keeps its state, and a running one ends
      SUCCEEDED or CANCELLED. */
  lemma {:induction false} AfterCancel(c: Config, s: State, steps: seq<Step>)
    requires Inv(c, s) && s.cancelling && Exec(c, s, steps).Some?
    ensures forall step :: step in steps ==> step.Finish?
    ensures var t := Exec(c, s, steps).value;
            && t.cancelling && t.queue == [] && |t.nodes| == |s.nodes|
            && forall v: nat :: v < |s.nodes| ==>
                 t.nodes[v].attempts == s.nodes[v].attempts && CancelOutcome(s.nodes[v].state, t.nodes[v].state)
    decreases |steps|
  {
    if steps == [] {
      CancellingQueueEmpty(c, s);
    } else {
      var front, last := steps[..|steps| - 1], steps[|steps| - 1];
      ExecLast(c, s, steps, front, last);
      AfterCancel(c, s, front);
      ExecKeepsInv(c, s, front);
      CancellingStep(c, Exec(c, s, front).value, last);
      assert steps == front + [last];
    }
  }

  /** begin_cancel leaves every task terminal that is not in flight. */
  lemma CancelSettlesAllButRunning(c: Config, s: State, v: nat)
    requires Inv(c, s) && !s.cancelling && v < |s.nodes|
    ensures var t := CancelBegun(s);
            && (s.nodes[v].state.Running? ==> t.nodes[v] == s.nodes[v])
            && (!s.nodes[v].state.Running? ==> IsTerminal(t.nodes[v].state))
            && (IsTerminal(s.nodes[v].state) ==> t.nodes[v] == s.nodes[v])
            && (t.nodes[v].state != s.nodes[v].state ==> t.nodes[v].state.Cancelled?)
  {
    assert OkAt(c, s, v);
  }

  // ---- a run served entirely from the cache ----

  predicate Untouched(node: Node) {
    node.attempts == 0 && !node.waiting && (node.state.Pending? || node.state.Ready? || node.state.Cached?)
  }

  /** While only the cache resolves tasks, nothing is launched and nothing is reserved. */
  ghost predicate OnlyHits(s: State) {
    && s.running == 0 && !s.cancelling
    && forall v: nat :: v < |s.nodes| ==> Untouched(s.nodes[v])
  }

  lemma HitKeepsOnlyHits(c: Config, s: State, i: nat, unlocked: seq<ReadyEntry>)
    requires Inv(c, s) && OnlyHits(s) && Enabled(c, s, CacheHit(i, unlocked))
    ensures OnlyHits(HitCache(c, s, i, unlocked))
  {
    EntryIsItsNode(c, s, i);
    var v := s.queue[i].node;
    var marked := s.nodes[v := s.nodes[v].(state := Cached)];
    assert forall w: nat :: w < |marked| ==> Untouched(marked[w]);
    PropagatedUntouched(marked, s.cancelling, c.dag.succ[v]);
  }

  lemma PropagatedUntouched(nodes: seq<Node>, cancelling: bool, out: seq<nat>)
    requires forall w: nat :: w < |nodes| ==> Untouched(nodes[w])
    ensures forall w: nat :: w < |nodes| ==> Untouched(Propagated(nodes, cancelling, out)[w])
  {
  }

  lemma SeededOnlyHits(c: Config, s: State)
    requires IsSeeded(c, s)
    ensures OnlyHits(s)
  {
  }

  /** Once the queue has run dry this way the whole graph is CACHED. */
  lemma AllCached(c: Config, s: State)
    requires Inv(c, s) && OnlyHits(s) && s.queue == []
    ensures Settled(s) && forall v: nat :: v < |s.nodes| ==> s.nodes[v].state.Cached?
  {
    forall v: nat | v < |s.nodes| ensures s.nodes[v].state.Cached? {
      SettledStates(c, s, v);
      if s.nodes[v].state.Pending? { LeftPendingExactly(c, s, v); }
    }
  }
}
