/** The facts that tie the scheduler's methods to the steps of the state machine: what each method's loops have done
    so far, and that what they end with is what a step does. */
module SchedulerRefinement {
  import opened Sequences
  import opened CacheStores
  import opened Domain
  import opened Digraph
  import opened Kahn
  import opened DagBuilder
  import opened ReadyQueues
  import opened ResourcePools
  import opened SchedulerModel
  import opened SchedulerInvariant
  import opened SchedulerSteps
  import opened SchedulerTheorems
  import opened SchedulerProgress
  import opened SchedulerHistory

  function Classify(outcome: Outcome): ResultKind {
    match outcome
    case Exited(code) => if code == 0 then SucceededResult else FailedExit
    case Signalled => Crashed
    case TimedOut => Timeout
    case ProcessCancelled => CancelledResult
    case SpawnFailed => StartFailure
  }

  /** What the outside world answers: the clock at its t-th reading, the files at the t-th look at them, and the
      delay before a retry. */
  datatype World = World(clock: nat -> int, files: nat -> Files, retryDelay: (nat, nat) -> int)

  datatype StartOutcome = LaunchedOutcome | ResolvedInline | ResourceBlocked

  datatype Event = LogLine | CancelRequest | ProcessFinished(v: nat, outcome: Outcome)

  /** One turn of the run loop: the cancel flag as read at its top, and the event batch it woke up to. */
  datatype Round = Round(cancelRequested: bool, batch: seq<Event>)

  /** In the first k turns nobody asks for a cancel. */
  predicate QuietUpTo(script: seq<Round>, k: nat)
    requires k <= |script|
  {
    forall j :: 0 <= j < k ==> !script[j].cancelRequested && CancelRequest !in script[j].batch
  }

  /** Somebody asks for a cancel in one of the first k turns. */
  predicate AskedUpTo(script: seq<Round>, k: nat)
    requires k <= |script|
  {
    exists j :: 0 <= j < k && (script[j].cancelRequested || CancelRequest in script[j].batch)
  }

  predicate IsCancelReport(event: Event) {
    event.ProcessFinished? && event.outcome.ProcessCancelled?
  }

  /** Cancelled processes are reported only once cancelling, or behind a request in the same batch. */
  predicate HonestBatch(cancelling: bool, batch: seq<Event>) {
    forall j :: 0 <= j < |batch| && IsCancelReport(batch[j]) ==> cancelling || CancelRequest in batch[..j]
  }

  /** A cancelled process is reported only after somebody has asked for a cancel. */
  predicate HonestScript(script: seq<Round>) {
    forall k :: 0 <= k < |script| ==>
      HonestBatch(AskedUpTo(script, k) || script[k].cancelRequested, script[k].batch)
  }

  lemma HonestRound(script: seq<Round>, k: nat, cancelling: bool)
    requires k < |script| && (AskedUpTo(script, k) || script[k].cancelRequested ==> cancelling)
    ensures HonestScript(script) ==> HonestBatch(cancelling, script[k].batch)
  {
  }

  /** The event is the report of a task that is RUNNING. */
  predicate Finds(event: Event, s: State) {
    event.ProcessFinished? && event.v < |s.nodes| && s.nodes[event.v].state.Running?
  }

  /** No event of the batch means anything to the scheduler. */
  ghost predicate Deaf(s: State, batch: seq<Event>) {
    forall e :: e in batch ==> !Finds(e, s) && (e.CancelRequest? ==> s.cancelling)
  }

  /** A round that changes nothing: nothing to report, nobody new to cancel for, no timer due. */
  ghost predicate Idle(s: State, batch: seq<Event>, stamp: int) {
    Deaf(s, batch) && (s.cancelling || NoneDue(s.nodes, |s.nodes|, stamp))
  }

  lemma MoreAsked(script: seq<Round>, k: nat)
    requires k < |script|
    ensures AskedUpTo(script, k + 1) <==>
      AskedUpTo(script, k) || script[k].cancelRequested || CancelRequest in script[k].batch
    ensures QuietUpTo(script, k + 1) <==>
      QuietUpTo(script, k) && !script[k].cancelRequested && CancelRequest !in script[k].batch
  {
  }

  /** Of the first k rounds those in `idle` changed nothing; each of the others logged a step. */
  ghost predicate IdleRounds(script: seq<Round>, k: nat, idle: set<nat>, waits: seq<(State, int)>, steps: nat) {
    && k <= |script| && |waits| == k && k <= steps + |idle|
    && forall j :: j in idle ==> j < k && Idle(waits[j].0, script[j].batch, waits[j].1)
  }

  lemma IdleLater(script: seq<Round>, k: nat, idle: set<nat>, waits: seq<(State, int)>, steps: nat, more: nat)
    requires IdleRounds(script, k, idle, waits, steps) && steps <= more
    ensures IdleRounds(script, k, idle, waits, more)
  {
  }

  function WithRound(idle: set<nat>, k: nat): set<nat> {
    idle + {k}
  }

  lemma QuietSoFar(script: seq<Round>, k: nat)
    requires k < |script|
    ensures QuietUpTo(script, |script|) ==> QuietUpTo(script, k) && !script[k].cancelRequested
  {
  }

  lemma IdleSnoc(script: seq<Round>, k: nat, idle: set<nat>, waits: seq<(State, int)>, steps: nat, s: State, stamp: int, more: nat)
    requires IdleRounds(script, k, idle, waits, steps) && k < |script| && steps <= more
    requires more == steps ==> Idle(s, script[k].batch, stamp)
    ensures IdleRounds(script, k + 1, if more == steps then WithRound(idle, k) else idle, waits + [(s, stamp)], more)
  {
    assert k !in idle;
  }

  datatype RunCounts = RunCounts(total: nat, pending: nat, ready: nat, running: nat, succeeded: nat,
                                 failed: nat, skipped: nat, cancelled: nat, cached: nat)

  function Add(counts: RunCounts, state: TaskState): RunCounts {
    var more := counts.(total := counts.total + 1);
    match state
    case Pending => more.(pending := more.pending + 1)
    case Ready => more.(ready := more.ready + 1)
    case Running => more.(running := more.running + 1)
    case Succeeded => more.(succeeded := more.succeeded + 1)
    case Failed => more.(failed := more.failed + 1)
    case Skipped => more.(skipped := more.skipped + 1)
    case Cancelled => more.(cancelled := more.cancelled + 1)
    case Cached => more.(cached := more.cached + 1)
  }

  function Tally(counts: RunCounts, state: TaskState): nat {
    match state
    case Pending => counts.pending
    case Ready => counts.ready
    case Running => counts.running
    case Succeeded => counts.succeeded
    case Failed => counts.failed
    case Skipped => counts.skipped
    case Cancelled => counts.cancelled
    case Cached => counts.cached
  }

  ghost function InStateUpTo(runs: seq<TaskRun>, k: nat, state: TaskState): set<nat>
    requires k <= |runs|
  {
    set v: nat | v < k && runs[v].state == state
  }

  lemma OneMoreInState(runs: seq<TaskRun>, k: nat, state: TaskState)
    requires k < |runs|
    ensures |InStateUpTo(runs, k + 1, state)|
         == |InStateUpTo(runs, k, state)| + if runs[k].state == state then 1 else 0
  {
    var now, next := InStateUpTo(runs, k, state), InStateUpTo(runs, k + 1, state);
    assert k !in now;
    assert next == if runs[k].state == state then now + {k} else now;
  }

  /** PipelineRun::counts: one pass over the task histories. */
  method CountStates(runs: seq<TaskRun>) returns (counts: RunCounts)
    ensures counts.total == |runs|
    ensures forall state :: Tally(counts, state) == |InStateUpTo(runs, |runs|, state)|
  {
    counts := RunCounts(0, 0, 0, 0, 0, 0, 0, 0, 0);
    for k := 0 to |runs|
      invariant counts.total == k
      invariant forall state :: Tally(counts, state) == |InStateUpTo(runs, k, state)|
    {
      var more := Add(counts, runs[k].state);
      forall state ensures Tally(more, state) == |InStateUpTo(runs, k + 1, state)| {
        assert Tally(counts, state) == |InStateUpTo(runs, k, state)|;
        OneMoreInState(runs, k, state);
      }
      counts := more;
    }
  }

  // ---- table and history side by side ----

  ghost predicate InSync(nodes: seq<Node>, runs: seq<TaskRun>) {
    |nodes| == |runs| && forall w: nat :: w < |nodes| ==> runs[w].state == nodes[w].state
  }

  ghost predicate SameAttempts(runs: seq<TaskRun>, runs': seq<TaskRun>) {
    |runs| == |runs'| && forall w: nat :: w < |runs| ==> runs'[w].attempts == runs[w].attempts
  }

  lemma SyncedIs(runs0: seq<TaskRun>, nodes: seq<Node>, runs: seq<TaskRun>)
    requires InSync(nodes, runs) && SameAttempts(runs0, runs)
    ensures Synced(runs0, nodes) == runs
  {
  }

  lemma InvInSync(c: Config, s: State)
    requires Inv(c, s)
    ensures InSync(s.nodes, s.runs)
  {
    forall w: nat | w < |s.nodes| ensures s.runs[w].state == s.nodes[w].state { assert OkAt(c, s, w); }
  }

  predicate Extends(before: seq<Step>, after: seq<Step>) {
    |before| <= |after| && after[..|before|] == before
  }

  predicate Launching(step: Step) {
    step.Launch? || step.CacheHit? || step.FailInline?
  }

  /** after is before followed by steps that the launch phase takes. */
  ghost predicate OnlyLaunching(before: seq<Step>, after: seq<Step>) {
    Extends(before, after) && forall k :: |before| <= k < |after| ==> Launching(after[k])
  }

  lemma ExtendsTransitive(a: seq<Step>, b: seq<Step>, c: seq<Step>)
    requires Extends(a, b) && Extends(b, c)
    ensures Extends(a, c)
  {
    assert c[..|a|] == b[..|a|];
  }

  /** The failure counter is positive exactly when some task failed. */
  lemma FailedCounted(nodes: seq<Node>, runs: seq<TaskRun>)
    requires InSync(nodes, runs)
    ensures |InStateUpTo(runs, |runs|, Failed)| > 0 <==> exists v: nat :: v < |nodes| && nodes[v].state == Failed
  {
    var failed := InStateUpTo(runs, |runs|, Failed);
    if |failed| > 0 {
      assert failed != {};
      var v :| v in failed;
      assert nodes[v].state == Failed;
    }
    if v: nat :| v < |nodes| && nodes[v].state == Failed { assert v in failed; }
  }

  lemma OnlyLaunchingTransitive(a: seq<Step>, b: seq<Step>, c: seq<Step>)
    requires OnlyLaunching(a, b) && OnlyLaunching(b, c)
    ensures OnlyLaunching(a, c)
  {
    assert forall k :: 0 <= k < |b| ==> c[..|b|][k] == c[k];
    assert c[..|a|] == b[..|a|];
  }

  lemma OnlyLaunchingNone(steps: seq<Step>)
    ensures OnlyLaunching(steps, steps)
  {
  }

  lemma OnlyLaunchingSnoc(before: seq<Step>, after: seq<Step>, step: Step)
    requires OnlyLaunching(before, after) && Launching(step)
    ensures OnlyLaunching(before, after + [step])
  {
    assert (after + [step])[..|before|] == after[..|before|];
  }

  lemma OneReportOnly(before: seq<Step>, step: Step)
    requires step.Finish?
    ensures OneReport(before, before + [step], step.v, step.kind)
  {
  }

  /** How many more steps a run can take at most. */
  ghost function StepsLeft(c: Config, first: State, steps: seq<Step>, s: State): nat
    requires IsSeeded(c, first) && Exec(c, first, steps) == Some(s)
  {
    RunInv(c, first, steps, s);
    MeasureNonNegative(c, s);
    Measure(c, s)
  }

  /** What one more step of the launch phase does. */
  lemma LaunchStep(c: Config, first: State, steps: seq<Step>, s: State, step: Step, t: State)
    requires IsSeeded(c, first) && Exec(c, first, steps) == Some(s) && Exec(c, first, steps + [step]) == Some(t)
    requires Launching(step)
    ensures t.cancelling == s.cancelling
    ensures StepsLeft(c, first, steps + [step], t) < StepsLeft(c, first, steps, s)
    ensures OnlyHits(s) && step.CacheHit? ==> OnlyHits(t)
  {
    RunInv(c, first, steps, s);
    ExecLast(c, first, steps + [step], steps, step);
    StepShrinks(c, s, step);
    if OnlyHits(s) && step.CacheHit? { HitKeepsOnlyHits(c, s, step.i, step.unlocked); }
  }

  /** after is before followed by promotions at one moment. */
  ghost predicate OnlyPromotes(before: seq<Step>, after: seq<Step>, stamp: int) {
    Extends(before, after) && forall k :: |before| <= k < |after| ==> after[k].Promote? && after[k].stamp == stamp
  }

  lemma OnlyPromotesSnoc(before: seq<Step>, after: seq<Step>, v: nat, stamp: int)
    requires OnlyPromotes(before, after, stamp)
    ensures OnlyPromotes(before, after + [Promote(v, stamp)], stamp)
  {
    assert (after + [Promote(v, stamp)])[..|before|] == after[..|before|];
  }

  /** after is before followed by one report and any promotions that followed it at once. */
  ghost predicate OneReport(before: seq<Step>, after: seq<Step>, v: nat, kind: ResultKind) {
    && Extends(before, after) && |before| < |after|
    && after[|before|].Finish? && after[|before|].v == v && after[|before|].kind == kind
    && forall k :: |before| < k < |after| ==> after[k].Promote?
  }

  lemma ReportThenPromotes(before: seq<Step>, step: Step, after: seq<Step>, stamp: int)
    requires step.Finish? && OnlyPromotes(before + [step], after, stamp)
    ensures OneReport(before, after, step.v, step.kind)
  {
    var mid := before + [step];
    assert after[|before|] == after[..|mid|][|before|] == step;
    ExtendsTransitive(before, mid, after);
  }

  /** A report that exits 0 without its declared outputs is downgraded. */
  function ReportKind(outcome: Outcome, verifyOutputs: bool, outputsPresent: bool): ResultKind {
    var kind := Classify(outcome);
    if kind.SucceededResult? && verifyOutputs && !outputsPresent then MissingOutput else kind
  }

  lemma RunInv(c: Config, s: State, steps: seq<Step>, t: State)
    requires IsSeeded(c, s) && Exec(c, s, steps) == Some(t)
    ensures Inv(c, t)
  {
    SeededInv(c, s);
    ExecKeepsInv(c, s, steps);
  }

  // ---- the dependents of a failed task ----

  ghost function SkippedBelow(succ: Adjacency, nodes: seq<Node>, v: nat): seq<Node> {
    seq(|nodes|, w requires 0 <= w < |nodes| =>
          if Reaches(succ, v, w) then nodes[w].(state := Skipped, waiting := false) else nodes[w])
  }

  lemma FailingIsSkippedBelow(c: Config, nodes: seq<Node>, v: nat)
    requires ValidConfig(c) && v < |nodes|
    ensures Failing(c.dag.succ, nodes, v) == SkippedBelow(c.dag.succ, nodes[v := nodes[v].(state := Failed)], v)
  {
    MirroredInRange(c.dag.succ, c.dag.pred);
    KahnOrderAcyclic(c.dag.succ, c.dag.topo);
  }

  /** The failing step started in s, where v was READY or RUNNING; v is FAILED by now. */
  ghost predicate FailedFrom(c: Config, s: State, v: nat, nodes: seq<Node>) {
    && Inv(c, s) && !s.cancelling && v < |s.nodes|
    && (s.nodes[v].state.Ready? || s.nodes[v].state.Running?)
    && |nodes| == |s.nodes| && nodes == s.nodes[v := nodes[v]] && nodes[v].state.Failed?
  }

  /** Skipping in progress: some descendants of v are SKIPPED, nothing else has changed. */
  ghost predicate PartlySkipped(succ: Adjacency, before: seq<Node>, v: nat, nodes: seq<Node>) {
    && |nodes| == |before|
    && forall w: nat :: w < |nodes| ==>
         nodes[w] == before[w] || (Reaches(succ, v, w) && nodes[w] == before[w].(state := Skipped, waiting := false))
  }

  /** v itself, or a task that was skipped below it. */
  ghost predicate Reached(succ: Adjacency, v: nat, nodes: seq<Node>, u: nat) {
    u < |nodes| && (u == v || (Reaches(succ, v, u) && nodes[u].state.Skipped?))
  }

  /** Every task already skipped below v, and v itself, is on the stack or has all its dependents skipped. */
  ghost predicate Covered(succ: Adjacency, v: nat, nodes: seq<Node>, stack: seq<nat>) {
    && (forall x :: x in stack ==> Reached(succ, v, nodes, x))
    && forall u: nat, w: nat :: Edge(succ, u, w) && w < |nodes| && Reached(succ, v, nodes, u) && u !in stack ==>
         nodes[w].state.Skipped?
  }

  lemma CoveredAtEnd(c: Config, s: State, v: nat, before: seq<Node>, nodes: seq<Node>)
    requires FailedFrom(c, s, v, before)
    requires PartlySkipped(c.dag.succ, before, v, nodes) && Covered(c.dag.succ, v, nodes, [])
    ensures nodes == SkippedBelow(c.dag.succ, before, v)
  {
    var succ := c.dag.succ;
    MirroredInRange(succ, c.dag.pred);
    var inside := set w: nat | w < |nodes| && Reaches(succ, v, w) && nodes[w].state.Skipped?;
    forall w | Edge(succ, v, w) ensures w in inside { EdgeReaches(succ, v, w); }
    forall a, b | a in inside && Edge(succ, a, b) ensures b in inside { ReachesStep(succ, v, a, b); }
    forall w: nat | w < |nodes| ensures nodes[w] == SkippedBelow(succ, before, v)[w] {
      if Reaches(succ, v, w) {
        ClosedHoldsDescendants(succ, v, w, inside);
        SkipMeetsOnlyPending(c, s, v, w);
      }
    }
  }

  lemma CoveredAtStart(c: Config, s: State, v: nat, nodes: seq<Node>)
    requires FailedFrom(c, s, v, nodes)
    ensures PartlySkipped(c.dag.succ, nodes, v, nodes) && Covered(c.dag.succ, v, nodes, [v])
  {
    MirroredInRange(c.dag.succ, c.dag.pred);
  }

  ghost function PendingNodes(nodes: seq<Node>): set<nat> {
    set w: nat | w < |nodes| && nodes[w].state.Pending?
  }

  /** A dependent met below the failed task. */
  lemma MeetsPendingOrSkipped(c: Config, s: State, v: nat, before: seq<Node>, nodes: seq<Node>, q: seq<ReadyEntry>,
                              cur: nat, w: nat)
    requires FailedFrom(c, s, v, before) && PartlySkipped(c.dag.succ, before, v, nodes)
    requires cur == v || Reaches(c.dag.succ, v, cur)
    requires Edge(c.dag.succ, cur, w) && forall e :: e in q ==> e in s.queue
    ensures Reaches(c.dag.succ, v, w) && w < |nodes| && w != v
    ensures nodes[w].state.Pending? || nodes[w].state.Skipped?
    ensures !nodes[w].waiting && !HasId(q, c.dag.nodes[w])
  {
    if cur == v { EdgeReaches(c.dag.succ, v, w); } else { ReachesStep(c.dag.succ, v, cur, w); }
    SkipMeetsOnlyPending(c, s, v, w);
    assert before[w] == s.nodes[w];
    forall e | e in q ensures e.taskId != c.dag.nodes[w] {
      assert e == EntryFor(c, e.node, e.readySince) && e.node != w;
    }
  }

  lemma UnlockedAgree(nodes: seq<Node>, nodes': seq<Node>, cancelling: bool, out: seq<nat>)
    requires |nodes| == |nodes'|
    requires AllBelow(out, |nodes|) && forall w :: w in out ==> nodes[w] == nodes'[w]
    ensures UnlockedNodes(nodes, cancelling, out) == UnlockedNodes(nodes', cancelling, out)
    decreases |out|
  {
    if out != [] {
      var front := out[..|out| - 1];
      assert forall w :: w in front ==> w in out;
      assert out[|out| - 1] in out;
      UnlockedAgree(nodes, nodes', cancelling, front);
    }
  }

  lemma MarkCovers(succ: Adjacency, v: nat, nodes: seq<Node>, stack: seq<nat>, w: nat, node: Node, cur: nat)
    requires Covered(succ, v, nodes, stack + [cur]) && w < |nodes| && w != v && Reaches(succ, v, w)
    requires nodes[w].state.Pending? && node.state.Skipped?
    ensures Covered(succ, v, nodes[w := node], stack + [w] + [cur])
    ensures PendingNodes(nodes[w := node]) < PendingNodes(nodes)
  {
    var nodes' := nodes[w := node];
    assert w in PendingNodes(nodes) && w !in PendingNodes(nodes');
    assert forall x :: x in stack + [w] + [cur] <==> x in stack + [cur] || x == w;
    forall u: nat | u != w ensures Reached(succ, v, nodes', u) <==> Reached(succ, v, nodes, u) {}
  }

  lemma MarkKeepsPartly(succ: Adjacency, before: seq<Node>, v: nat, nodes: seq<Node>, w: nat)
    requires PartlySkipped(succ, before, v, nodes) && w < |nodes| && Reaches(succ, v, w)
    requires nodes[w].state.Pending?
    ensures PartlySkipped(succ, before, v, nodes[w := nodes[w].(state := Skipped, waiting := false)])
  {
  }

  ghost predicate SkippedUpTo(nodes: seq<Node>, out: seq<nat>, k: nat) {
    k <= |out| && forall j :: 0 <= j < k ==> out[j] < |nodes| && nodes[out[j]].state.Skipped?
  }

  lemma SkippedSnoc(nodes: seq<Node>, nodes': seq<Node>, out: seq<nat>, k: nat)
    requires SkippedUpTo(nodes, out, k) && k < |out| && |nodes'| == |nodes|
    requires forall x: nat :: x < |nodes| && nodes[x].state.Skipped? ==> nodes'[x].state.Skipped?
    requires out[k] < |nodes'| && nodes'[out[k]].state.Skipped?
    ensures SkippedUpTo(nodes', out, k + 1)
  {
  }

  lemma CurrentCovered(succ: Adjacency, v: nat, nodes: seq<Node>, stack: seq<nat>, cur: nat)
    requires Covered(succ, v, nodes, stack + [cur])
    requires forall w: nat :: Edge(succ, cur, w) ==> w < |nodes| && nodes[w].state.Skipped?
    ensures Covered(succ, v, nodes, stack)
  {
    forall x | x in stack ensures Reached(succ, v, nodes, x) { assert x in stack + [cur]; }
    forall u: nat, w: nat | Edge(succ, u, w) && w < |nodes| && Reached(succ, v, nodes, u) && u !in stack
      ensures nodes[w].state.Skipped?
    {
      if u != cur { assert u !in stack + [cur]; }
    }
  }

  lemma PropagatedSnoc(nodes: seq<Node>, cancelling: bool, out: seq<nat>, k: nat)
    requires k < |out| && Distinct(out) && out[k] < |nodes|
    ensures out[..k + 1] == out[..k] + [out[k]] && out[k] !in out[..k]
    ensures Propagated(nodes, cancelling, out[..k])[out[k]] == nodes[out[k]]
    ensures Propagated(nodes, cancelling, out[..k + 1])
         == Propagated(nodes, cancelling, out[..k])[out[k] := Decremented(nodes[out[k]], cancelling)]
  {
  }

  lemma UnlockedSnoc(nodes: seq<Node>, cancelling: bool, out: seq<nat>, k: nat)
    requires k < |out| && AllBelow(out, |nodes|)
    ensures out[k] in out
    ensures AllBelow(out[..k], |nodes|) && AllBelow(out[..k + 1], |nodes|)
    ensures UnlockedNodes(nodes, cancelling, out[..k + 1])
         == UnlockedNodes(nodes, cancelling, out[..k]) + if Unlocks(nodes[out[k]], cancelling) then [out[k]] else []
  {
    assert out[..k + 1][..k] == out[..k];
    var before, after := out[..k], out[..k + 1];
    forall w | w in after ensures w < |nodes| { assert w in out; }
    forall w | w in before ensures w < |nodes| { assert w in out; }
  }

  /** Entries collected so far, and at most one more. */
  lemma EntriesSnoc(c: Config, q: seq<ReadyEntry>, es: seq<ReadyEntry>, nodes: seq<nat>,
                    more: seq<ReadyEntry>, node: seq<nat>)
    requires EntriesFor(c, es, nodes) && EntriesFor(c, more, node) && |more| <= 1
    ensures EntriesFor(c, es + more, nodes + node)
    ensures InsertAll(q, es + more) == InsertAll(InsertAll(q, es), more)
  {
    if more == [] {
      assert es + more == es;
    } else {
      assert (es + more)[..|es + more| - 1] == es && more[..0] == [];
    }
  }

  /** The first k dependents have been notified. */
  ghost predicate Notified(c: Config, nodes0: seq<Node>, queue0: seq<ReadyEntry>, cancelling: bool, out: seq<nat>, k: nat,
                           nodes: seq<Node>, queue: seq<ReadyEntry>, unlocked: seq<ReadyEntry>) {
    && k <= |out| && AllBelow(out[..k], |nodes0|)
    && nodes == Propagated(nodes0, cancelling, out[..k])
    && EntriesFor(c, unlocked, UnlockedNodes(nodes0, cancelling, out[..k]))
    && queue == InsertAll(queue0, unlocked)
  }

  lemma NotifiedNone(c: Config, nodes: seq<Node>, queue: seq<ReadyEntry>, cancelling: bool, out: seq<nat>)
    ensures Notified(c, nodes, queue, cancelling, out, 0, nodes, queue, [])
  {
    assert out[..0] == [];
  }

  lemma NotifiedAll(c: Config, nodes0: seq<Node>, queue0: seq<ReadyEntry>, cancelling: bool, out: seq<nat>,
                    nodes: seq<Node>, queue: seq<ReadyEntry>, unlocked: seq<ReadyEntry>)
    requires Notified(c, nodes0, queue0, cancelling, out, |out|, nodes, queue, unlocked)
    ensures AllBelow(out, |nodes0|) && nodes == Propagated(nodes0, cancelling, out)
    ensures EntriesFor(c, unlocked, UnlockedNodes(nodes0, cancelling, out)) && queue == InsertAll(queue0, unlocked)
  {
    assert out[..|out|] == out;
  }

  lemma NotifiedSnoc(c: Config, nodes0: seq<Node>, queue0: seq<ReadyEntry>, cancelling: bool, out: seq<nat>, k: nat,
                     nodes: seq<Node>, queue: seq<ReadyEntry>, unlocked: seq<ReadyEntry>, added: seq<ReadyEntry>)
    requires Notified(c, nodes0, queue0, cancelling, out, k, nodes, queue, unlocked)
    requires k < |out| && AllBelow(out, |nodes0|) && Distinct(out) && out[k] < |nodes| && |added| <= 1
    requires EntriesFor(c, added, if Unlocks(nodes[out[k]], cancelling) then [out[k]] else [])
    ensures Notified(c, nodes0, queue0, cancelling, out, k + 1, nodes[out[k] := Decremented(nodes[out[k]], cancelling)],
                     InsertAll(queue, added), unlocked + added)
  {
    UnlockedSnoc(nodes0, cancelling, out, k);
    PropagatedSnoc(nodes0, cancelling, out, k);
    EntriesSnoc(c, queue0, unlocked, UnlockedNodes(nodes0, cancelling, out[..k]), added,
                if Unlocks(nodes0[out[k]], cancelling) then [out[k]] else []);
  }

  /** Nothing runs, no timer is pending and no queued task fits. */
  ghost predicate Stuck(c: Config, s: State) {
    && Inv(c, s) && !s.cancelling && s.running == 0 && !Waits(s.nodes)
    && BlockedBefore(c, s, |s.queue|)
  }

  /** Failing the first queued task of a stuck state leaves a stuck state with the rest of the queue. */
  lemma StuckNext(c: Config, s: State)
    requires Stuck(c, s) && s.queue != []
    ensures Enabled(c, s, FailInline(0, StartFailure))
    ensures Stuck(c, FailedInline(c, s, 0, StartFailure))
    ensures FailedInline(c, s, 0, StartFailure).queue == s.queue[1..]
  {
    var t := FailedInline(c, s, 0, StartFailure);
    FailInlineKeepsInv(c, s, 0, StartFailure);
    forall j: nat | j < |t.queue| ensures BlockedAt(c, t, j) {
      assert t.queue[j] == s.queue[j + 1] && BlockedAt(c, s, j + 1);
    }
  }

  /** The first n queued tasks fail as unschedulable, best entry first. */
  function DrainSteps(n: nat): (r: seq<Step>)
    ensures |r| == n
  {
    seq(n, _ => FailInline(0, StartFailure))
  }

  lemma DrainSnoc(before: seq<Step>, n: nat)
    ensures before + DrainSteps(n + 1) == before + DrainSteps(n) + [FailInline(0, StartFailure)]
  {
    assert DrainSteps(n + 1) == DrainSteps(n) + [FailInline(0, StartFailure)];
  }

  lemma DrainIsLaunching(before: seq<Step>, n: nat)
    ensures OnlyLaunching(before, before + DrainSteps(n))
  {
  }

  lemma BlockedSnoc(c: Config, s: State, i: nat)
    requires BlockedBefore(c, s, i) && BlockedAt(c, s, i)
    ensures BlockedBefore(c, s, i + 1)
  {
  }

  /** Waiting for a retry after the slot was returned is the Finish step of the model. */
  lemma RetryIs(c: Config, s: State, v: nat, kind: ResultKind, notBefore: int, r: State, t: State)
    requires Inv(c, s) && v < |s.nodes| && s.nodes[v].state.Running? && r == Returned(s, v, kind)
    requires !kind.SucceededResult? && !s.cancelling && !kind.CancelledResult? && Retries(c, s, v, kind)
    requires t.nodes == r.nodes[v := r.nodes[v].(state := Ready, waiting := true, notBefore := notBefore)]
    requires t == r.(nodes := t.nodes, runs := Synced(r.runs, t.nodes))
    ensures Enabled(c, s, Finish(v, kind, notBefore, []))
    ensures t == Apply(c, s, Finish(v, kind, notBefore, []))
  {
    DependentFacts(c, s, v);
  }

  /** Recording, marking and notifying is the CacheHit step of the model. */
  lemma HitIs(c: Config, s: State, i: nat, v: nat, unlocked: seq<ReadyEntry>, t: State)
    requires Inv(c, s) && Considering(c, s, i) && s.queue[i].node == v < |s.nodes| && c.tasks[v].cacheEnabled
    requires AllBelow(c.dag.succ[v], |s.nodes|)
    requires var marked := s.nodes[v := s.nodes[v].(state := Cached)];
             && EntriesFor(c, unlocked, UnlockedNodes(marked, s.cancelling, c.dag.succ[v]))
             && t.nodes == Propagated(marked, s.cancelling, c.dag.succ[v])
    requires t.runs == Synced(Recorded(s.nodes, s.runs, v, Cached, SucceededResult), t.nodes)
    requires t == State(t.nodes, t.runs, RemoveId(InsertAll(s.queue, unlocked), s.queue[i].taskId), s.running, s.used, s.cancelling)
    ensures Enabled(c, s, CacheHit(i, unlocked)) && t == Apply(c, s, CacheHit(i, unlocked))
  {
    EntryIsItsNode(c, s, i);
    DependentFacts(c, s, v);
    UnlockedAgree(s.nodes, s.nodes[v := s.nodes[v].(state := Cached)], s.cancelling, c.dag.succ[v]);
  }

  /** What the methods need to know of a state that the logged steps led to, to act on a queued task. */
  lemma StartFacts(c: Config, first: State, log: seq<Step>, s: State, i: nat)
    requires IsSeeded(c, first) && Exec(c, first, log) == Some(s) && i < |s.queue|
    ensures ValidConfig(c) && |s.nodes| == |s.runs| == |c.tasks| == |c.dag.succ| && InSync(s.nodes, s.runs)
    ensures s.queue[i].node < |s.nodes| && AllBelow(c.dag.succ[s.queue[i].node], |s.nodes|)
  {
    RunInv(c, first, log, s);
    EntryIsItsNode(c, s, i);
    InvInSync(c, s);
    DependentFacts(c, s, s.queue[i].node);
  }

  lemma HitLogged(c: Config, first: State, log: seq<Step>, s: State, i: nat, v: nat, unlocked: seq<ReadyEntry>, t: State)
    requires IsSeeded(c, first) && Exec(c, first, log) == Some(s) && Considering(c, s, i)
    requires |s.nodes| == |s.runs| == |c.tasks| == |c.dag.succ|
    requires s.queue[i].node == v < |s.nodes| && c.tasks[v].cacheEnabled && AllBelow(c.dag.succ[v], |s.nodes|)
    requires var marked := s.nodes[v := s.nodes[v].(state := Cached)];
             && EntriesFor(c, unlocked, UnlockedNodes(marked, s.cancelling, c.dag.succ[v]))
             && t.nodes == Propagated(marked, s.cancelling, c.dag.succ[v])
    requires t.runs == Synced(Recorded(s.nodes, s.runs, v, Cached, SucceededResult), t.nodes)
    requires t == State(t.nodes, t.runs, RemoveId(InsertAll(s.queue, unlocked), s.queue[i].taskId), s.running, s.used, s.cancelling)
    ensures Exec(c, first, log + [CacheHit(i, unlocked)]) == Some(t)
  {
    RunInv(c, first, log, s);
    HitIs(c, s, i, v, unlocked, t);
    ExecSnoc(c, first, log, s, CacheHit(i, unlocked));
  }

  /** Failing for good after the slot was returned is the Finish step of the model. */
  lemma FailureIs(c: Config, s: State, v: nat, kind: ResultKind, r: State, t: State)
    requires Inv(c, s) && v < |s.nodes| && s.nodes[v].state.Running? && r == Returned(s, v, kind)
    requires !kind.SucceededResult? && !s.cancelling && !kind.CancelledResult? && !Retries(c, s, v, kind)
    requires t.nodes == SkippedBelow(c.dag.succ, r.nodes[v := r.nodes[v].(state := Failed)], v)
    requires t == r.(nodes := t.nodes, runs := Synced(r.runs, t.nodes))
    ensures Enabled(c, s, Finish(v, kind, 0, []))
    ensures t == Apply(c, s, Finish(v, kind, 0, []))
  {
    DependentFacts(c, s, v);
    FailingIsSkippedBelow(c, r.nodes, v);
  }

  /** Succeeding after the slot was returned is the Finish step of the model. */
  lemma FinishOkIs(c: Config, s: State, v: nat, r: State, unlocked: seq<ReadyEntry>, t: State)
    requires Inv(c, s) && v < |s.nodes| && s.nodes[v].state.Running? && r == Returned(s, v, SucceededResult)
    requires AllBelow(c.dag.succ[v], |r.nodes|)
    requires var marked := r.nodes[v := r.nodes[v].(state := Succeeded)];
             && EntriesFor(c, unlocked, UnlockedNodes(marked, s.cancelling, c.dag.succ[v]))
             && t.nodes == Propagated(marked, s.cancelling, c.dag.succ[v])
    requires t == r.(nodes := t.nodes, runs := Synced(r.runs, t.nodes), queue := InsertAll(s.queue, unlocked))
    ensures Enabled(c, s, Finish(v, SucceededResult, 0, unlocked))
    ensures t == Apply(c, s, Finish(v, SucceededResult, 0, unlocked))
  {
    DependentFacts(c, s, v);
    UnlockedAgree(s.nodes, r.nodes[v := r.nodes[v].(state := Succeeded)], s.cancelling, c.dag.succ[v]);
  }

  function Stopped(s: State, nodes: seq<Node>, runs: seq<TaskRun>): State {
    State(nodes, runs, [], s.running, s.used, true)
  }

  /** The queued tasks are CANCELLED; nothing else has changed. */
  ghost predicate QueueCancelled(queue: seq<ReadyEntry>, before: seq<Node>, nodes: seq<Node>) {
    && |nodes| == |before|
    && forall w: nat :: w < |nodes| ==>
         nodes[w] == if Queued(queue, w) then before[w].(state := Cancelled) else before[w]
  }

  /** So are the waiting and the pending ones. */
  ghost predicate RestCancelled(before: seq<Node>, nodes: seq<Node>) {
    && |nodes| == |before|
    && forall w: nat :: w < |nodes| ==> nodes[w] == CancelNode(before[w])
  }

  lemma CancelFacts(c: Config, first: State, log: seq<Step>, s: State)
    requires IsSeeded(c, first) && Exec(c, first, log) == Some(s)
    ensures InSync(s.nodes, s.runs) && forall e :: e in s.queue ==> e.node < |s.nodes|
  {
    RunInv(c, first, log, s);
    InvInSync(c, s);
  }

  lemma QueuedCoverReady(c: Config, first: State, log: seq<Step>, s: State, nodes: seq<Node>)
    requires IsSeeded(c, first) && Exec(c, first, log) == Some(s) && QueueCancelled(s.queue, s.nodes, nodes)
    ensures forall w: nat :: w < |nodes| && nodes[w].state.Ready? ==> nodes[w].waiting
  {
    RunInv(c, first, log, s);
  }

  /** Marking the queued tasks, then the waiting and pending ones, is the BeginCancel step of the model. */
  lemma CancelIs(c: Config, first: State, steps: seq<Step>, s: State, between: seq<Node>, t: State)
    requires IsSeeded(c, first) && Exec(c, first, steps) == Some(s) && !s.cancelling
    requires QueueCancelled(s.queue, s.nodes, between) && RestCancelled(between, t.nodes)
    requires InSync(t.nodes, t.runs) && SameAttempts(s.runs, t.runs)
    requires t == State(t.nodes, t.runs, [], s.running, s.used, true)
    ensures Exec(c, first, steps + [BeginCancel]) == Some(t)
  {
    RunInv(c, first, steps, s);
    forall w: nat | w < |t.nodes| ensures t.nodes[w] == CancelNode(s.nodes[w]) {
      assert OkAt(c, s, w);
      if Queued(s.queue, w) {
        var e :| e in s.queue && e.node == w;
        assert Queueable(s.nodes[w]);
      }
    }
    assert t.nodes == CancelBegun(s).nodes;
    SyncedIs(s.runs, t.nodes, t.runs);
    ExecSnoc(c, first, steps, s, BeginCancel);
  }

  /** No timer among the first i tasks is due. */
  ghost predicate NoneDue(nodes: seq<Node>, i: nat, stamp: int) {
    forall v: nat :: v < i && v < |nodes| && nodes[v].waiting ==> nodes[v].notBefore > stamp
  }

  lemma NoneDueSnoc(nodes: seq<Node>, i: nat, stamp: int)
    requires i < |nodes| && NoneDue(nodes, i, stamp)
    ensures nodes[i].waiting && nodes[i].notBefore <= stamp ==>
              NoneDue(nodes[i := nodes[i].(waiting := false)], i + 1, stamp)
    ensures !(nodes[i].waiting && nodes[i].notBefore <= stamp) ==> NoneDue(nodes, i + 1, stamp)
  {
  }

  /** The first i tasks have been looked at for seeding. */
  ghost predicate SeededUpTo(c: Config, i: nat, nodes: seq<Node>, runs: seq<TaskRun>, queue: seq<ReadyEntry>,
                             es: seq<ReadyEntry>) {
    && ValidConfig(c) && i <= |nodes| == |runs| == |c.tasks|
    && (forall v: nat :: v < |nodes| ==> nodes[v] == if v < i then FreshNode(c, v) else InitialNode(c.dag, v))
    && InSync(nodes, runs) && (forall v: nat :: v < |runs| ==> runs[v].attempts == [])
    && EntriesFor(c, es, RootsUpTo(c.dag.pred, i)) && queue == InsertAll([], es)
  }

  lemma SeededSnoc(c: Config, i: nat, nodes: seq<Node>, runs: seq<TaskRun>, queue: seq<ReadyEntry>, es: seq<ReadyEntry>,
                   nodes': seq<Node>, runs': seq<TaskRun>, added: seq<ReadyEntry>)
    requires SeededUpTo(c, i, nodes, runs, queue, es) && i < |nodes|
    requires InSync(nodes', runs') && SameAttempts(runs, runs')
    requires nodes' == nodes[i := FreshNode(c, i)]
    requires |added| <= 1 && EntriesFor(c, added, if c.dag.pred[i] == [] then [i] else [])
    ensures SeededUpTo(c, i + 1, nodes', runs', InsertAll(queue, added), es + added)
  {
    EntriesSnoc(c, [], es, RootsUpTo(c.dag.pred, i), added, if c.dag.pred[i] == [] then [i] else []);
  }

  lemma SeededIs(c: Config, s: State, es: seq<ReadyEntry>)
    requires SeededUpTo(c, |s.nodes|, s.nodes, s.runs, s.queue, es)
    requires s == State(s.nodes, s.runs, s.queue, 0, NO_RESOURCES, false)
    ensures IsSeeded(c, s)
  {
    assert s.nodes == Seeded(c, es).nodes;
    assert s.runs == Seeded(c, es).runs;
    assert SeededWith(c, es, s);
  }

  function InitialNode(dag: Dag, v: int): Node {
    Node(Pending, if 0 <= v < |dag.pred| then |dag.pred[v]| else 0, 0, false, 0, NO_RESOURCES, false)
  }

  // ---- what is logged ----

  /** after is before followed by cache hits. */
  ghost predicate OnlyCacheHits(before: seq<Step>, after: seq<Step>) {
    Extends(before, after) && forall k :: |before| <= k < |after| ==> after[k].CacheHit?
  }

  lemma OnlyCacheHitsSnoc(before: seq<Step>, after: seq<Step>, step: Step)
    requires OnlyCacheHits(before, after) && step.CacheHit?
    ensures OnlyCacheHits(before, after + [step])
  {
    assert (after + [step])[..|before|] == after[..|before|];
  }

  lemma {:induction false} OnlyHitsLaunchNothing(steps: seq<Step>)
    requires OnlyCacheHits([], steps)
    ensures Launches(steps) == 0
  {
    if steps != [] {
      var front := steps[..|steps| - 1];
      assert OnlyCacheHits([], front);
      OnlyHitsLaunchNothing(front);
    }
  }

  lemma LogBounded(c: Config, first: State, log: seq<Step>, s: State)
    requires IsSeeded(c, first) && Exec(c, first, log) == Some(s)
    ensures |log| <= Measure(c, first)
  {
    SeededInv(c, first);
    RunsAreBounded(c, first, log);
  }

  /** Steps that report no cancelled process keep the runner honest; so do reports once cancelling. */
  lemma HonestMore(before: seq<Step>, after: seq<Step>)
    requires Extends(before, after) && HonestRunner(before)
    requires forall k :: |before| <= k < |after| && after[k].Finish? && after[k].kind.CancelledResult? ==> BeginCancel in before
    ensures HonestRunner(after)
  {
    forall k | 0 <= k < |after| && after[k].Finish? && after[k].kind.CancelledResult? ensures BeginCancel in after[..k] {
      if k < |before| {
        assert before[k] == after[..|before|][k] == after[k];
        assert before[..k] == after[..k];
      } else {
        assert after[..k][..|before|] == before;
        var j :| 0 <= j < |before| && before[j] == BeginCancel;
        assert after[..k][j] == BeginCancel;
      }
    }
  }

  /** The first k events of a batch took the run from s, reached by `before`, to t, reached by `after`. */
  ghost predicate BatchUpTo(batch: seq<Event>, k: nat, before: seq<Step>, s: State, after: seq<Step>, t: State) {
    && k <= |batch| && Extends(before, after)
    && (CancelRequest in batch[..k] ==> t.cancelling) && (s.cancelling ==> t.cancelling)
    && (CancelRequest !in batch[..k] ==> t.cancelling == s.cancelling)
    && (HonestRunner(before) && HonestBatch(s.cancelling, batch) ==> HonestRunner(after))
    && (after == before ==> t == s && Deaf(s, batch[..k]))
  }

  /** What handling one event may do: cancel unless cancelling already, handle the report of a RUNNING task, or nothing. */
  ghost predicate EventDone(event: Event, mid: seq<Step>, m: State, after: seq<Step>, t: State) {
    match event
    case CancelRequest => t.cancelling && after == mid + (if m.cancelling then [] else [BeginCancel]) && (m.cancelling ==> t == m)
    case LogLine => after == mid && t == m
    case ProcessFinished(v, outcome) =>
      && t.cancelling == m.cancelling
      && if Finds(event, m) then ReportDone(v, outcome, mid, after) else after == mid && t == m
  }

  ghost predicate ReportDone(v: nat, outcome: Outcome, before: seq<Step>, after: seq<Step>) {
    exists kind :: OneReport(before, after, v, kind) && (kind.CancelledResult? <==> outcome.ProcessCancelled?)
  }

  lemma ReportIsDone(v: nat, outcome: Outcome, verifyOutputs: bool, present: bool, before: seq<Step>, after: seq<Step>)
    requires OneReport(before, after, v, ReportKind(outcome, verifyOutputs, present))
    ensures ReportDone(v, outcome, before, after)
  {
  }

  lemma EventExtends(event: Event, mid: seq<Step>, m: State, after: seq<Step>, t: State)
    requires EventDone(event, mid, m, after, t)
    ensures Extends(mid, after)
  {
  }

  lemma BatchEvent(c: Config, first: State, batch: seq<Event>, k: nat, before: seq<Step>, s: State,
                   mid: seq<Step>, m: State, after: seq<Step>, t: State)
    requires IsSeeded(c, first) && Exec(c, first, mid) == Some(m)
    requires k < |batch| && BatchUpTo(batch, k, before, s, mid, m) && EventDone(batch[k], mid, m, after, t)
    ensures BatchUpTo(batch, k + 1, before, s, after, t)
  {
    TakeMore(batch, k);
    EventExtends(batch[k], mid, m, after, t);
    ExtendsTransitive(before, mid, after);
    HonestAfterEvent(c, first, mid, m, batch[k], after, t);
  }

  lemma HonestAfterEvent(c: Config, first: State, before: seq<Step>, s: State, event: Event, after: seq<Step>, t: State)
    requires IsSeeded(c, first) && Exec(c, first, before) == Some(s) && EventDone(event, before, s, after, t)
    ensures HonestRunner(before) && (IsCancelReport(event) ==> s.cancelling) ==> HonestRunner(after)
  {
    if HonestRunner(before) && (IsCancelReport(event) ==> s.cancelling) {
      CancellingIsRecorded(c, first, before);
      EventExtends(event, before, s, after, t);
      if Finds(event, s) {
        var kind :| OneReport(before, after, event.v, kind) && (kind.CancelledResult? <==> event.outcome.ProcessCancelled?);
      }
      HonestMore(before, after);
    }
  }

  lemma QuietTurn(before: seq<Step>, mid: seq<Step>, after: seq<Step>)
    requires (mid == before || mid == before + [BeginCancel]) && OnlyLaunching(mid, after)
    ensures Extends(before, after) && (HonestRunner(before) ==> HonestRunner(after))
  {
    assert mid[..|before|] == before;
    ExtendsTransitive(before, mid, after);
    if HonestRunner(before) {
      HonestMore(before, mid);
      HonestMore(mid, after);
    }
  }

  lemma QuietServe(before: seq<Step>, mid: seq<Step>, after: seq<Step>, stamp: int)
    requires Extends(before, mid) && OnlyPromotes(mid, after, stamp)
    ensures Extends(before, after) && (HonestRunner(mid) ==> HonestRunner(after))
    ensures after == before ==> mid == before
  {
    ExtendsTransitive(before, mid, after);
    if HonestRunner(mid) { HonestMore(mid, after); }
  }

  lemma RetryLogged(c: Config, first: State, log: seq<Step>, s: State, v: nat, kind: ResultKind, notBefore: int, r: State, t: State)
    requires IsSeeded(c, first) && Exec(c, first, log) == Some(s)
    requires v < |s.nodes| == |s.runs| == |c.tasks| && s.nodes[v].state.Running? && r == Returned(s, v, kind)
    requires !kind.SucceededResult? && !s.cancelling && !kind.CancelledResult? && Retries(c, s, v, kind)
    requires t.nodes == r.nodes[v := r.nodes[v].(state := Ready, waiting := true, notBefore := notBefore)]
    requires t == r.(nodes := t.nodes, runs := Synced(r.runs, t.nodes))
    ensures Exec(c, first, log + [Finish(v, kind, notBefore, [])]) == Some(t)
  {
    RunInv(c, first, log, s);
    RetryIs(c, s, v, kind, notBefore, r, t);
    ExecSnoc(c, first, log, s, Finish(v, kind, notBefore, []));
  }

  lemma FinishOkLogged(c: Config, first: State, log: seq<Step>, s: State, v: nat, r: State, unlocked: seq<ReadyEntry>, t: State)
    requires IsSeeded(c, first) && Exec(c, first, log) == Some(s)
    requires v < |s.nodes| == |s.runs| == |c.tasks| && s.nodes[v].state.Running? && r == Returned(s, v, SucceededResult)
    requires v < |c.dag.succ| && AllBelow(c.dag.succ[v], |r.nodes|)
    requires var marked := r.nodes[v := r.nodes[v].(state := Succeeded)];
             && EntriesFor(c, unlocked, UnlockedNodes(marked, s.cancelling, c.dag.succ[v]))
             && t.nodes == Propagated(marked, s.cancelling, c.dag.succ[v])
    requires |t.nodes| == |r.runs|
    requires t == r.(nodes := t.nodes, runs := Synced(r.runs, t.nodes), queue := InsertAll(s.queue, unlocked))
    ensures Exec(c, first, log + [Finish(v, SucceededResult, 0, unlocked)]) == Some(t)
  {
    RunInv(c, first, log, s);
    FinishOkIs(c, s, v, r, unlocked, t);
    ExecSnoc(c, first, log, s, Finish(v, SucceededResult, 0, unlocked));
  }

  /** What the methods need to know of a state that the logged steps led to, to handle a report. */
  lemma FinishFacts(c: Config, first: State, log: seq<Step>, s: State, v: nat)
    requires IsSeeded(c, first) && Exec(c, first, log) == Some(s) && v < |s.nodes| && s.nodes[v].state.Running?
    ensures ValidConfig(c) && |s.nodes| == |s.runs| == |c.tasks| == |c.dag.succ| == |c.dag.nodes|
    ensures InSync(s.nodes, s.runs) && AllBelow(c.dag.succ[v], |s.nodes|)
  {
    RunInv(c, first, log, s);
    InvInSync(c, s);
    DependentFacts(c, s, v);
  }

  lemma SeededShape(c: Config, first: State)
    requires IsSeeded(c, first)
    ensures ValidConfig(c) && |c.dag.nodes| == |c.tasks| && c.maxConcurrency >= 1
  {
  }

  lemma CancelledLogged(c: Config, first: State, log: seq<Step>, s: State, v: nat, kind: ResultKind, r: State, t: State)
    requires IsSeeded(c, first) && Exec(c, first, log) == Some(s)
    requires v < |s.nodes| == |s.runs| == |c.tasks| && s.nodes[v].state.Running? && r == Returned(s, v, kind)
    requires !kind.SucceededResult? && (s.cancelling || kind.CancelledResult?)
    requires t.nodes == r.nodes[v := r.nodes[v].(state := Cancelled)]
    requires t == r.(nodes := t.nodes, runs := Synced(r.runs, t.nodes))
    ensures Exec(c, first, log + [Finish(v, kind, 0, [])]) == Some(t)
  {
    FinishFacts(c, first, log, s, v);
    RunInv(c, first, log, s);
    ExecSnoc(c, first, log, s, Finish(v, kind, 0, []));
  }

  lemma FailureLogged(c: Config, first: State, log: seq<Step>, s: State, v: nat, kind: ResultKind, r: State, t: State)
    requires IsSeeded(c, first) && Exec(c, first, log) == Some(s)
    requires v < |s.nodes| == |s.runs| == |c.tasks| && s.nodes[v].state.Running? && r == Returned(s, v, kind)
    requires !kind.SucceededResult? && !s.cancelling && !kind.CancelledResult? && !Retries(c, s, v, kind)
    requires t.nodes == SkippedBelow(c.dag.succ, r.nodes[v := r.nodes[v].(state := Failed)], v) && |t.nodes| == |r.runs|
    requires t == r.(nodes := t.nodes, runs := Synced(r.runs, t.nodes))
    ensures Exec(c, first, log + [Finish(v, kind, 0, [])]) == Some(t)
  {
    RunInv(c, first, log, s);
    FailureIs(c, s, v, kind, r, t);
    ExecSnoc(c, first, log, s, Finish(v, kind, 0, []));
  }

  lemma PromoteLogged(c: Config, first: State, log: seq<Step>, s: State, v: nat, stamp: int)
    requires IsSeeded(c, first) && Exec(c, first, log) == Some(s) && |c.dag.nodes| == |c.tasks| == |s.nodes|
    requires !s.cancelling && v < |s.nodes| && s.nodes[v].waiting && s.nodes[v].notBefore <= stamp
    ensures Exec(c, first, log + [Promote(v, stamp)]) ==
      Some(s.(nodes := s.nodes[v := s.nodes[v].(waiting := false)], queue := Insert(s.queue, EntryFor(c, v, stamp))))
  {
    RunInv(c, first, log, s);
    ExecSnoc(c, first, log, s, Promote(v, stamp));
  }
}
