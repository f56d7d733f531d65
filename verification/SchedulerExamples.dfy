/** Concrete runs that show where a plausible claim about the scheduler fails. */
module SchedulerExamples {
  import opened Domain
  import opened Digraph
  import opened Kahn
  import opened DagBuilder
  import opened ReadyQueues
  import opened ResourcePools
  import opened SchedulerModel
  import opened SchedulerInvariant
  import opened SchedulerSteps
  import opened SchedulerTheorems
  import opened SchedulerHistory

  const CHAIN := Dag(["a", "b"], [[1], []], [[], [0]], [0], [0, 1])

  const SMALL_TASK := Task(0, RetryPolicy(1), Resources(1, 0, 0), false)

  const CHAIN_CONFIG := Config(CHAIN, [SMALL_TASK, SMALL_TASK], 1, Resources(1, 0, 0))

  lemma ChainEdges(u: nat, v: nat)
    ensures Edge(CHAIN.succ, u, v) <==> u == 0 && v == 1
    ensures Edge(CHAIN.pred, v, u) <==> u == 0 && v == 1
  {
  }

  lemma ChainIsValid()
    ensures ValidConfig(CHAIN_CONFIG)
  {
    forall u: nat, v: nat ensures Edge(CHAIN.succ, u, v) <==> Edge(CHAIN.pred, v, u) { ChainEdges(u, v); }
    assert Mirrored(CHAIN.succ, CHAIN.pred);
    forall k | 0 <= k < |CHAIN.topo| ensures LeastAvailable(CHAIN.succ, CHAIN.topo[..k], CHAIN.topo[k]) {
      var emitted := CHAIN.topo[..k];
      if k == 0 {
        forall u: nat ensures !Edge(CHAIN.succ, u, 0) { ChainEdges(u, 0); }
      } else {
        assert emitted == [0];
        forall u: nat | Edge(CHAIN.succ, u, 1) ensures u in emitted { ChainEdges(u, 1); }
        forall w: nat | Available(CHAIN.succ, emitted, w) ensures 1 <= w { assert 0 in emitted; }
      }
    }
    assert RootsUpTo(CHAIN.pred, 2) == [0] by {
      assert RootsUpTo(CHAIN.pred, 0) == [];
      assert RootsUpTo(CHAIN.pred, 1) == [0];
    }
  }

  const A_ENTRY := ReadyEntry(0, "a", 0, 0)

  const FIRST_STATE := Seeded(CHAIN_CONFIG, [A_ENTRY])

  lemma FirstStateIsSeeded()
    ensures IsSeeded(CHAIN_CONFIG, FIRST_STATE) && Inv(CHAIN_CONFIG, FIRST_STATE)
    ensures FIRST_STATE.queue == [A_ENTRY] && FIRST_STATE.running == 0 && !FIRST_STATE.cancelling
    ensures |FIRST_STATE.nodes| == 2 && FIRST_STATE.nodes[0].state.Ready? && FIRST_STATE.nodes[1].state.Pending?
  {
    ChainIsValid();
    assert SeededWith(CHAIN_CONFIG, [A_ENTRY], FIRST_STATE);
    SeededInv(CHAIN_CONFIG, FIRST_STATE);
    assert [A_ENTRY][..0] == [];
    assert InsertAll([], [A_ENTRY]) == Insert([], A_ENTRY);
  }

  /** Wherever the front of the queue may be looked at, a missing input takes it outside the table. */
  lemma MissingInputLeavesTable(c: Config, s: State)
    requires Inv(c, s) && Considering(c, s, 0)
    ensures Enabled(c, s, FailInline(0, MissingInput))
    ensures s.queue[0].node < |s.nodes|
    ensures var to := StateAfter(c, s, FailInline(0, MissingInput), s.queue[0].node);
            to.Failed? && !IsValidTransition(s.nodes[s.queue[0].node].state, to)
  {
    EntryIsItsNode(c, s, 0);
    StepMoves(c, s, FailInline(0, MissingInput), s.queue[0].node);
    FailInlineMoves(c, s, 0, MissingInput, s.queue[0].node);
  }

  /** READY to FAILED, which the documented table does not allow, is taken when an input is missing. */
  lemma ReadyToFailedHappens()
    ensures Inv(CHAIN_CONFIG, FIRST_STATE) && Enabled(CHAIN_CONFIG, FIRST_STATE, FailInline(0, MissingInput))
    ensures var to := StateAfter(CHAIN_CONFIG, FIRST_STATE, FailInline(0, MissingInput), 0);
            to.Failed? && !IsValidTransition(FIRST_STATE.nodes[0].state, to)
  {
    FirstStateIsSeeded();
    MissingInputLeavesTable(CHAIN_CONFIG, FIRST_STATE);
  }

  // ---- a task that is the only one the scheduler can act on ----

  /** v alone is queued; nothing runs. */
  ghost predicate AloneQueued(c: Config, s: State, v: nat) {
    && Inv(c, s) && !s.cancelling && s.running == 0 && v < |s.nodes| && Queueable(s.nodes[v])
    && (exists e :: s.queue == [e]) && s.queue[0].node == v && !Waits(s.nodes) && !AnyInState(s, Failed)
    && Fits(s.used, Request(c, v), c.capacity)
  }

  /** v alone is running; nothing is queued. */
  ghost predicate AloneRunning(c: Config, s: State, v: nat) {
    && Inv(c, s) && !s.cancelling && s.running == 1 && v < |s.nodes| && s.nodes[v].state.Running?
    && s.queue == [] && !Waits(s.nodes) && !AnyInState(s, Failed)
  }

  /** v alone waits behind a timer; nothing is queued or running. */
  ghost predicate AloneWaiting(c: Config, s: State, v: nat) {
    && Inv(c, s) && !s.cancelling && s.running == 0 && v < |s.nodes| && s.nodes[v].waiting
    && s.queue == [] && !AnyInState(s, Failed)
  }

  lemma LaunchAlone(c: Config, s: State, v: nat) returns (t: State)
    requires AloneQueued(c, s, v)
    ensures Enabled(c, s, Launch(0)) && t == Apply(c, s, Launch(0)) && AloneRunning(c, t, v)
    ensures t.nodes[v].attempts == s.nodes[v].attempts + 1
    ensures forall w: nat :: w < |s.nodes| && w != v ==> t.nodes[w] == s.nodes[w]
  {
    t := Launched(c, s, 0);
    LaunchKeepsInv(c, s, 0);
  }

  /** The general form of the unrequested cancel: a lone running task reported as cancelled ends the run with
      the verdict SUCCEEDED, whatever is left below it. */
  lemma CancelAlone(c: Config, s: State, v: nat) returns (t: State)
    requires AloneRunning(c, s, v)
    ensures Enabled(c, s, Finish(v, CancelledResult, 0, [])) && t == Apply(c, s, Finish(v, CancelledResult, 0, []))
    ensures Settled(t) && Verdict(t, false) == PipelineSucceeded && t.nodes[v].state.Cancelled?
    ensures forall w: nat :: w < |s.nodes| && w != v ==> t.nodes[w] == s.nodes[w]
  {
    DependentFacts(c, s, v);
    t := Finished(c, s, v, CancelledResult, 0, []);
  }

  lemma RetryAlone(c: Config, s: State, v: nat) returns (t: State)
    requires AloneRunning(c, s, v) && Retries(c, s, v, FailedExit)
    ensures Enabled(c, s, Finish(v, FailedExit, 0, [])) && t == Apply(c, s, Finish(v, FailedExit, 0, []))
    ensures AloneWaiting(c, t, v) && t.nodes[v].notBefore == 0 && t.nodes[v].attempts == s.nodes[v].attempts
  {
    DependentFacts(c, s, v);
    t := Finished(c, s, v, FailedExit, 0, []);
    FinishLocalKeepsInv(c, s, v, FailedExit, 0, []);
  }

  lemma PromoteAlone(c: Config, s: State, v: nat) returns (t: State)
    requires AloneWaiting(c, s, v) && s.nodes[v].notBefore == 0
    ensures Enabled(c, s, Promote(v, 0)) && t == Apply(c, s, Promote(v, 0)) && Inv(c, t)
    ensures t.nodes[v].attempts == s.nodes[v].attempts >= 1 && UniqueNumbers(t.runs[v].attempts)
    ensures Enabled(c, t, FailInline(0, MissingInput)) && t.queue[0].node == v
  {
    t := Promoted(c, s, v, 0);
    PromoteKeepsInv(c, s, v, 0);
    assert OkAt(c, s, v);
    assert OkAt(c, t, v);
    HistoryShape(c, t, v);
  }

  /** From any state in which one task alone is queued: launch it, and have it reported as cancelled. */
  lemma UnrequestedCancelRun(c: Config, s: State, v: nat) returns (t: State)
    requires AloneQueued(c, s, v)
    ensures Exec(c, s, [Launch(0)] + [Finish(v, CancelledResult, 0, [])]) == Some(t)
    ensures Settled(t) && Verdict(t, false) == PipelineSucceeded && |t.nodes| == |s.nodes|
    ensures t.nodes[v].state.Cancelled? && forall w: nat :: w < |s.nodes| && w != v ==> t.nodes[w] == s.nodes[w]
  {
    var r := LaunchAlone(c, s, v);
    t := CancelAlone(c, r, v);
    ExecSnoc(c, s, [], s, Launch(0));
    assert [] + [Launch(0)] == [Launch(0)];
    ExecSnoc(c, s, [Launch(0)], r, Finish(v, CancelledResult, 0, []));
  }

  /** From such a state: launch, fail with budget left, come back, and find an input gone. */
  lemma LostInputRun(c: Config, s: State, v: nat) returns (t: State)
    requires AloneQueued(c, s, v) && ShouldRetry(c.tasks[v].retry, s.nodes[v].attempts + 1)
    ensures Exec(c, s, [Launch(0)] + [Finish(v, FailedExit, 0, [])] + [Promote(v, 0)] + [FailInline(0, MissingInput)])
            == Some(t)
    ensures v < |t.runs| && !UniqueNumbers(t.runs[v].attempts)
  {
    var r1 := LaunchAlone(c, s, v);
    var r2 := RetryAlone(c, r1, v);
    var r3 := PromoteAlone(c, r2, v);
    NumberRepeatsExactly(c, r3, FailInline(0, MissingInput), v);
    t := Apply(c, r3, FailInline(0, MissingInput));
    LostInputExec(c, s, v, r1, r2, r3);
  }

  lemma LostInputExec(c: Config, s: State, v: nat, r1: State, r2: State, r3: State)
    requires Shape(c, s) && Enabled(c, s, Launch(0)) && r1 == Apply(c, s, Launch(0))
    requires Shape(c, r1) && Enabled(c, r1, Finish(v, FailedExit, 0, [])) && r2 == Apply(c, r1, Finish(v, FailedExit, 0, []))
    requires Shape(c, r2) && Enabled(c, r2, Promote(v, 0)) && r3 == Apply(c, r2, Promote(v, 0))
    requires Shape(c, r3) && Enabled(c, r3, FailInline(0, MissingInput))
    ensures Exec(c, s, [Launch(0)] + [Finish(v, FailedExit, 0, [])] + [Promote(v, 0)] + [FailInline(0, MissingInput)])
            == Some(Apply(c, r3, FailInline(0, MissingInput)))
  {
    ExecSnoc(c, s, [], s, Launch(0));
    assert [] + [Launch(0)] == [Launch(0)];
    ExecSnoc(c, s, [Launch(0)], r1, Finish(v, FailedExit, 0, []));
    ExecSnoc(c, s, [Launch(0)] + [Finish(v, FailedExit, 0, [])], r2, Promote(v, 0));
    ExecSnoc(c, s, [Launch(0)] + [Finish(v, FailedExit, 0, [])] + [Promote(v, 0)], r3, FailInline(0, MissingInput));
  }

  // ---- the concrete runs ----

  /** A freshly seeded state with a single root that fits the machine. */
  lemma SeededAlone(c: Config, e: ReadyEntry)
    requires ValidConfig(c) && EntriesFor(c, [e], c.dag.roots) && c.dag.roots == [e.node]
    requires e.node < |c.tasks| && FitsWithin(Request(c, e.node), c.capacity)
    ensures IsSeeded(c, Seeded(c, [e])) && AloneQueued(c, Seeded(c, [e]), e.node)
    ensures Seeded(c, [e]).nodes[e.node].attempts == 0
  {
    var s := Seeded(c, [e]);
    assert SeededWith(c, [e], s);
    SeededInv(c, s);
    assert [e][..0] == [];
    assert s.queue == [e];
    QueuedIsOk(c, s, 0);
  }

  lemma FirstMayRetry()
    ensures |FIRST_STATE.nodes| == 2 && FIRST_STATE.nodes[1].state.Pending?
    ensures ShouldRetry(CHAIN_CONFIG.tasks[0].retry, FIRST_STATE.nodes[0].attempts + 1)
  {
  }

  lemma FirstIsAlone()
    ensures IsSeeded(CHAIN_CONFIG, FIRST_STATE) && AloneQueued(CHAIN_CONFIG, FIRST_STATE, 0)
    ensures |FIRST_STATE.nodes| == 2 && FIRST_STATE.nodes[1].state.Pending?
    ensures ShouldRetry(CHAIN_CONFIG.tasks[0].retry, FIRST_STATE.nodes[0].attempts + 1)
  {
    ChainIsValid();
    SeededAlone(CHAIN_CONFIG, A_ENTRY);
    FirstMayRetry();
  }

  /** A runner that reports "cancelled" without a cancel request makes the run end SUCCEEDED although one task
      is CANCELLED and its dependent is left PENDING for ever. */
  lemma UnrequestedCancelEndsSucceeded() returns (t: State)
    ensures IsSeeded(CHAIN_CONFIG, FIRST_STATE)
    ensures Exec(CHAIN_CONFIG, FIRST_STATE, [Launch(0)] + [Finish(0, CancelledResult, 0, [])]) == Some(t)
    ensures Settled(t) && Verdict(t, false) == PipelineSucceeded
    ensures |t.nodes| == 2 && t.nodes[0].state.Cancelled? && t.nodes[1].state.Pending?
  {
    FirstIsAlone();
    t := UnrequestedCancelRun(CHAIN_CONFIG, FIRST_STATE, 0);
  }

  /** A retry that finds its input gone leaves two records with the same attempt number. */
  lemma NumberRepeatHappens() returns (steps: seq<Step>, t: State)
    ensures IsSeeded(CHAIN_CONFIG, FIRST_STATE) && Exec(CHAIN_CONFIG, FIRST_STATE, steps) == Some(t)
    ensures 0 < |t.runs| && !UniqueNumbers(t.runs[0].attempts)
  {
    FirstIsAlone();
    t := LostInputRun(CHAIN_CONFIG, FIRST_STATE, 0);
    steps := [Launch(0)] + [Finish(0, FailedExit, 0, [])] + [Promote(0, 0)] + [FailInline(0, MissingInput)];
  }
}
