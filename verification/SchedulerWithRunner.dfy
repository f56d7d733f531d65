/** The scheduler and the process runner together: the scheduler launches through the runner, asks it to terminate
    what is running, and handles its exit reports one by one, while the reactor works on its own. What the scheduler's
    theorems assume of the runner holds in every such run. */
module SchedulerWithRunner {
  import opened Domain
  import opened DagBuilder
  import Digraph
  import opened ReadyQueues
  import opened SchedulerModel
  import opened SchedulerInvariant
  import opened SchedulerSteps
  import opened SchedulerTheorems
  import opened SchedulerRefinement
  import opened SchedulerRuns
  import opened SchedulerDeterminism
  import Runner = ProcessRunner

  /** Both sides, and what ties them: the task that each handle was launched for (the exit callback holds on to it),
      each task's latest handle, and how many of the exit reports have been handled. */
  datatype Joint = Joint(s: State, r: Runner.State, owner: map<nat, nat>, handles: map<nat, nat>, told: nat,
                         log: seq<Step>, runnerLog: seq<Runner.Step>)

  datatype Event =
    | Start(i: nat, timeout: Option<int>)                                  // launch queue entry i through the runner
    | Told(kind: ResultKind, notBefore: int, unlocked: seq<ReadyEntry>)    // handle the next exit report
    | CancelAll
    | Ask(v: nat)                                                          // ask for v's process to be terminated
    | Alone(step: Step)                                                    // a scheduler step without the runner
    | Inside(runnerStep: Runner.Step)                                      // a step of the reactor

  /** What the scheduler makes of an outcome: its class, or a missing output. */
  predicate MayMean(outcome: Outcome, kind: ResultKind) {
    kind == ReportKind(outcome, true, true) || kind == ReportKind(outcome, true, false)
  }

  ghost function ByScheduler(c: Config, j: Joint, step: Step): Joint
    requires Shape(c, j.s) && Enabled(c, j.s, step)
  {
    j.(s := Apply(c, j.s, step), log := j.log + [step])
  }

  function ByRunner(j: Joint, step: Runner.Step): Joint {
    j.(r := Runner.Apply(j.r, step), runnerLog := j.runnerLog + [step])
  }

  /** The task whose process the next unhandled report is about. */
  function NextReported(j: Joint): Option<nat> {
    if j.told < |j.r.exits| && j.r.exits[j.told].handle in j.owner then Some(j.owner[j.r.exits[j.told].handle]) else None
  }

  ghost predicate Can(c: Config, j: Joint, event: Event) {
    && Shape(c, j.s)
    && match event
       case Start(i, _) => Enabled(c, j.s, Step.Launch(i))
       case Told(kind, notBefore, unlocked) =>
         && NextReported(j).Some? && MayMean(j.r.exits[j.told].outcome, kind)
         && Enabled(c, j.s, Finish(NextReported(j).value, kind, notBefore, unlocked))
       case CancelAll => Enabled(c, j.s, BeginCancel)
       case Ask(v) => j.s.cancelling && v < |j.s.nodes| && j.s.nodes[v].state.Running? && v in j.handles
       case Alone(step) => (step.CacheHit? || step.FailInline? || step.Promote?) && Enabled(c, j.s, step)
       case Inside(step) => !step.Accept? && !step.Request? && !step.Shut?
  }

  ghost function After(c: Config, j: Joint, event: Event): Joint
    requires Can(c, j, event)
  {
    match event
    case Start(i, timeout) =>
      var v := j.s.queue[i].node;
      ByRunner(ByScheduler(c, j, Step.Launch(i)), Runner.Accept(timeout))
        .(owner := j.owner[j.r.nextHandle := v], handles := j.handles[v := j.r.nextHandle])
    case Told(kind, notBefore, unlocked) =>
      ByScheduler(c, j, Finish(NextReported(j).value, kind, notBefore, unlocked)).(told := j.told + 1)
    case CancelAll => ByScheduler(c, j, BeginCancel)
    case Ask(v) => ByRunner(j, Runner.Request(j.handles[v], true))
    case Alone(step) => ByScheduler(c, j, step)
    case Inside(step) => ByRunner(j, step)
  }

  function Begun(s: State): Joint {
    Joint(s, Runner.IDLE, map[], map[], 0, [], [])
  }

  ghost function Together(c: Config, first: State, events: seq<Event>): Option<Joint>
    decreases |events|
  {
    if events == [] then Some(Begun(first))
    else
      match Together(c, first, events[..|events| - 1])
      case None => None
      case Some(j) => if Can(c, j, events[|events| - 1]) then Some(After(c, j, events[|events| - 1])) else None
  }

  // ---- what every such run keeps ----

  /** Launched, and its report has not been handled yet. */
  predicate Outstanding(j: Joint, h: nat) {
    1 <= h < j.r.nextHandle && forall k: nat :: k < j.told && k < |j.r.exits| ==> j.r.exits[k].handle != h
  }

  /** RUNNING tasks and outstanding handles correspond one to one. */
  ghost predicate Matched(j: Joint) {
    && (forall h :: h in j.owner <==> 1 <= h < j.r.nextHandle)
    && (forall v: nat :: v < |j.s.nodes| && j.s.nodes[v].state.Running? ==>
          v in j.handles && Outstanding(j, j.handles[v]) && j.owner[j.handles[v]] == v)
    && forall h :: Outstanding(j, h) ==> HasRunner(j, h)
  }

  ghost predicate HasRunner(j: Joint, h: nat) {
    && h in j.owner && j.owner[h] < |j.s.nodes| && j.s.nodes[j.owner[h]].state.Running?
    && j.owner[h] in j.handles && j.handles[j.owner[h]] == h
  }

  /** Terminate requests are made only while cancelling; the runner is shut down only after the run. */
  ghost predicate AskedOnlyCancelling(j: Joint) {
    && (forall h: nat :: Runner.Request(h, true) in j.runnerLog ==> j.s.cancelling)
    && Runner.Shut !in j.runnerLog
  }

  ghost predicate Logged(c: Config, first: State, j: Joint) {
    IsSeeded(c, first) && Exec(c, first, j.log) == Some(j.s) && j.r == Runner.Exec(Runner.IDLE, j.runnerLog)
  }

  ghost predicate JointInv(c: Config, first: State, j: Joint) {
    && Logged(c, first, j) && HonestRunner(j.log) && AskedOnlyCancelling(j)
    && j.told <= |j.r.exits| && Matched(j)
  }

  // ---- who is RUNNING after a step ----

  ghost predicate RunsAfter(s: State, step: Step, v: nat)
    requires v < |s.nodes|
  {
    || (step.Launch? && step.i < |s.queue| && s.queue[step.i].node == v)
    || (s.nodes[v].state.Running? && !(step.Finish? && step.v == v))
  }

  lemma RunningAfter(c: Config, s: State, step: Step, v: nat)
    requires Inv(c, s) && Enabled(c, s, step) && v < |s.nodes|
    ensures Apply(c, s, step).nodes[v].state.Running? <==> RunsAfter(s, step, v)
  {
    match step
    case Launch(i) => EntryIsItsNode(c, s, i);
    case CacheHit(i, unlocked) => RunningAfterHit(c, s, i, unlocked, v);
    case FailInline(i, kind) => RunningAfterFailure(c, s, i, kind, v);
    case Finish(u, kind, notBefore, unlocked) => RunningAfterFinish(c, s, u, kind, notBefore, unlocked, v);
    case Promote(u, stamp) =>
    case BeginCancel => assert OkAt(c, s, v);
  }

  lemma RunningAfterHit(c: Config, s: State, i: nat, unlocked: seq<ReadyEntry>, v: nat)
    requires Inv(c, s) && Enabled(c, s, CacheHit(i, unlocked)) && v < |s.nodes|
    ensures HitCache(c, s, i, unlocked).nodes[v].state.Running? <==> s.nodes[v].state.Running?
  {
    EntryIsItsNode(c, s, i);
  }

  lemma RunningAfterFailure(c: Config, s: State, i: nat, kind: ResultKind, v: nat)
    requires Inv(c, s) && Enabled(c, s, FailInline(i, kind)) && v < |s.nodes|
    ensures FailedInline(c, s, i, kind).nodes[v].state.Running? <==> s.nodes[v].state.Running?
  {
    EntryIsItsNode(c, s, i);
    FailingSkips(c, s, s.queue[i].node, v);
  }

  lemma RunningAfterFinish(c: Config, s: State, u: nat, kind: ResultKind, notBefore: int, unlocked: seq<ReadyEntry>, v: nat)
    requires Inv(c, s) && Enabled(c, s, Finish(u, kind, notBefore, unlocked)) && v < |s.nodes|
    ensures Finished(c, s, u, kind, notBefore, unlocked).nodes[v].state.Running? <==> s.nodes[v].state.Running? && v != u
  {
    DependentFacts(c, s, u);
    FailingSkips(c, s, u, v);
  }

  /** Nothing below a task that has not succeeded is RUNNING. */
  lemma FailingSkips(c: Config, s: State, u: nat, v: nat)
    requires Inv(c, s) && u < |s.nodes| && v < |s.nodes| && !IsSuccessLike(s.nodes[u].state)
    ensures Digraph.Reaches(c.dag.succ, u, v) ==> !s.nodes[v].state.Running?
  {
    if Digraph.Reaches(c.dag.succ, u, v) { DescendantBlocked(c, s, u, v); }
  }

  // ---- the runner's side ----

  /** Reports name handles that were given out, and no handle twice. */
  lemma ExitsAreDistinct(steps: seq<Runner.Step>, k: nat)
    requires k < |Runner.Exec(Runner.IDLE, steps).exits|
    ensures var r := Runner.Exec(Runner.IDLE, steps);
      && 1 <= r.exits[k].handle < r.nextHandle
      && forall i: nat :: i < |r.exits| && i != k ==> r.exits[i].handle != r.exits[k].handle
  {
    Runner.RunKeepsInv(steps);
    var r := Runner.Exec(Runner.IDLE, steps);
    var hs := Runner.ExitHandles(r.exits);
    var h := hs[k];
    assert h in multiset(hs) && Runner.Places(r)[h] >= 1;
    assert Runner.Places(r)[h] == 1;
    forall i: nat | i < |r.exits| && i != k ensures r.exits[i].handle != h {
      if hs[i] == h { TwiceCounts(hs, i, k); }
    }
  }

  lemma TwiceCounts(hs: seq<nat>, i: nat, k: nat)
    requires i < |hs| && k < |hs| && i != k && hs[i] == hs[k]
    ensures multiset(hs)[hs[k]] >= 2
  {
    var a, b := if i < k then i else k, if i < k then k else i;
    assert hs == hs[..b] + [hs[b]] + hs[b + 1..];
    assert hs[a] in hs[..b];
  }

  lemma InsideGrows(r: Runner.State, step: Runner.Step)
    requires !step.Accept?
    ensures var t := Runner.Apply(r, step); t.nextHandle == r.nextHandle && r.exits <= t.exits
  {
  }

  // ---- one step ----

  predicate IsRunning(s: State, v: nat) {
    v < |s.nodes| && s.nodes[v].state.Running?
  }

  /** A new handle for a task that was not RUNNING. */
  lemma MatchedStart(j: Joint, t: Joint, u: nat)
    requires Matched(j) && !IsRunning(j.s, u) && j.r.nextHandle >= 1 && |t.s.nodes| == |j.s.nodes|
    requires forall v: nat :: IsRunning(t.s, v) <==> IsRunning(j.s, v) || v == u
    requires forall k: nat :: k < j.told && k < |j.r.exits| ==> j.r.exits[k].handle < j.r.nextHandle
    requires t.told == j.told && t.r.exits == j.r.exits && t.r.nextHandle == j.r.nextHandle + 1
    requires t.owner == j.owner[j.r.nextHandle := u] && t.handles == j.handles[u := j.r.nextHandle]
    ensures Matched(t)
  {
    var next := j.r.nextHandle;
    assert Outstanding(t, next) && IsRunning(t.s, u);
    forall h | h != next ensures Outstanding(t, h) <==> Outstanding(j, h) {}
    forall h | Outstanding(t, h) ensures HasRunner(t, h) {
      if h != next { assert HasRunner(j, h) && IsRunning(j.s, j.owner[h]) && IsRunning(t.s, j.owner[h]); }
    }
    forall v: nat | IsRunning(t.s, v)
      ensures v in t.handles && Outstanding(t, t.handles[v]) && t.owner[t.handles[v]] == v
    {
      if v != u { assert IsRunning(j.s, v) && Outstanding(j, j.handles[v]); }
    }
  }

  /** The task of the next report is not RUNNING any more. */
  lemma MatchedTold(j: Joint, t: Joint, h0: nat)
    requires Matched(j) && j.told < |j.r.exits| && h0 == j.r.exits[j.told].handle && Outstanding(j, h0)
    requires h0 in j.owner && |t.s.nodes| == |j.s.nodes|
    requires forall v: nat :: IsRunning(t.s, v) <==> IsRunning(j.s, v) && v != j.owner[h0]
    requires t.told == j.told + 1 && t.r == j.r && t.owner == j.owner && t.handles == j.handles
    ensures Matched(t)
  {
    forall h ensures Outstanding(t, h) <==> Outstanding(j, h) && h != h0 {
      if Outstanding(t, h) { assert j.r.exits[j.told].handle != h; }
    }
    assert HasRunner(j, h0);
    forall h | Outstanding(t, h) ensures HasRunner(t, h) {
      assert HasRunner(j, h) && IsRunning(j.s, j.owner[h]) && IsRunning(t.s, j.owner[h]);
    }
    forall v: nat | IsRunning(t.s, v)
      ensures v in t.handles && Outstanding(t, t.handles[v]) && t.owner[t.handles[v]] == v
    {
      assert IsRunning(j.s, v) && Outstanding(j, j.handles[v]);
    }
  }

  /** Nobody starts, nobody stops, no report is handled. */
  lemma MatchedSame(j: Joint, t: Joint)
    requires Matched(j) && j.told <= |j.r.exits| && |t.s.nodes| == |j.s.nodes|
    requires forall v: nat :: IsRunning(t.s, v) <==> IsRunning(j.s, v)
    requires t.told == j.told && j.r.exits <= t.r.exits && t.r.nextHandle == j.r.nextHandle
    requires t.owner == j.owner && t.handles == j.handles
    ensures Matched(t)
  {
    forall h ensures Outstanding(t, h) <==> Outstanding(j, h) {}
    forall h | Outstanding(t, h) ensures HasRunner(t, h) {
      assert HasRunner(j, h) && IsRunning(j.s, j.owner[h]) && IsRunning(t.s, j.owner[h]);
    }
    forall v: nat | IsRunning(t.s, v)
      ensures v in t.handles && Outstanding(t, t.handles[v]) && t.owner[t.handles[v]] == v
    {
      assert IsRunning(j.s, v) && Outstanding(j, j.handles[v]);
    }
  }

  lemma StartKeeps(c: Config, first: State, j: Joint, i: nat, timeout: Option<int>)
    requires JointInv(c, first, j) && Inv(c, j.s) && Can(c, j, Start(i, timeout))
    ensures Matched(After(c, j, Start(i, timeout)))
  {
    var t, u := After(c, j, Start(i, timeout)), j.s.queue[i].node;
    EntryIsItsNode(c, j.s, i);
    Runner.RunKeepsInv(j.runnerLog);
    Runner.RunJustified(j.runnerLog);
    forall k: nat | k < j.told ensures j.r.exits[k].handle < j.r.nextHandle { ExitsAreDistinct(j.runnerLog, k); }
    forall v: nat ensures IsRunning(t.s, v) <==> IsRunning(j.s, v) || v == u {
      if v < |j.s.nodes| { RunningAfter(c, j.s, Step.Launch(i), v); }
    }
    MatchedStart(j, t, u);
  }

  lemma ToldKeeps(c: Config, first: State, j: Joint, kind: ResultKind, notBefore: int, unlocked: seq<ReadyEntry>)
    requires JointInv(c, first, j) && Inv(c, j.s) && Can(c, j, Told(kind, notBefore, unlocked))
    ensures Matched(After(c, j, Told(kind, notBefore, unlocked)))
  {
    var t, u := After(c, j, Told(kind, notBefore, unlocked)), NextReported(j).value;
    ExitsAreDistinct(j.runnerLog, j.told);
    forall v: nat ensures IsRunning(t.s, v) <==> IsRunning(j.s, v) && v != u {
      if v < |j.s.nodes| { RunningAfter(c, j.s, Finish(u, kind, notBefore, unlocked), v); }
    }
    MatchedTold(j, t, j.r.exits[j.told].handle);
  }

  /** A scheduler step that neither launches nor handles a report, or a step of the runner that accepts no launch. */
  lemma OthersKeep(c: Config, first: State, j: Joint, event: Event)
    requires JointInv(c, first, j) && Inv(c, j.s) && Can(c, j, event) && !event.Start? && !event.Told?
    ensures Matched(After(c, j, event)) && j.told <= |After(c, j, event).r.exits|
  {
    var t := After(c, j, event);
    if event.Inside? { InsideGrows(j.r, event.runnerStep); }
    forall v: nat ensures IsRunning(t.s, v) <==> IsRunning(j.s, v) {
      if v < |j.s.nodes| {
        match event
        case Alone(step) => RunningAfter(c, j.s, step, v);
        case CancelAll => RunningAfter(c, j.s, BeginCancel, v);
        case _ =>
      }
    }
    MatchedSame(j, t);
  }

  /** A report of a cancelled process was asked for by the scheduler, so it is cancelling. */
  lemma CancelledWhileCancelling(c: Config, first: State, j: Joint)
    requires JointInv(c, first, j) && j.told < |j.r.exits| && j.r.exits[j.told].outcome.ProcessCancelled?
    ensures BeginCancel in j.log
  {
    var h := j.r.exits[j.told].handle;
    assert Runner.Exit(h, ProcessCancelled) in j.r.exits;
    Runner.CancelledWasRequested(j.runnerLog, h);
    CancellingIsRecorded(c, first, j.log);
  }

  lemma HonestSnoc(steps: seq<Step>, step: Step)
    requires HonestRunner(steps) && (step.Finish? && step.kind.CancelledResult? ==> BeginCancel in steps)
    ensures HonestRunner(steps + [step])
  {
    var all := steps + [step];
    forall k | 0 <= k < |all| && all[k].Finish? && all[k].kind.CancelledResult? ensures BeginCancel in all[..k] {
      if k < |steps| { assert all[..k] == steps[..k]; } else { assert all[..k] == steps; }
    }
  }

  lemma StepIsLogged(c: Config, first: State, j: Joint, step: Step)
    requires Logged(c, first, j) && HonestRunner(j.log) && Shape(c, j.s) && Enabled(c, j.s, step)
    requires step.Finish? && step.kind.CancelledResult? ==> BeginCancel in j.log
    ensures Exec(c, first, ByScheduler(c, j, step).log) == Some(ByScheduler(c, j, step).s)
    ensures HonestRunner(ByScheduler(c, j, step).log)
  {
    ExecSnoc(c, first, j.log, j.s, step);
    HonestSnoc(j.log, step);
  }

  lemma KeepsLog(c: Config, first: State, j: Joint, event: Event)
    requires JointInv(c, first, j) && Can(c, j, event)
    ensures Exec(c, first, After(c, j, event).log) == Some(After(c, j, event).s)
    ensures HonestRunner(After(c, j, event).log)
  {
    match event
    case Start(i, timeout) => StepIsLogged(c, first, j, Step.Launch(i));
    case Told(kind, notBefore, unlocked) =>
      if kind.CancelledResult? { CancelledWhileCancelling(c, first, j); }
      StepIsLogged(c, first, j, Finish(NextReported(j).value, kind, notBefore, unlocked));
    case CancelAll => StepIsLogged(c, first, j, BeginCancel);
    case Alone(step) => StepIsLogged(c, first, j, step);
    case _ =>
  }

  lemma KeepsRunnerLog(c: Config, first: State, j: Joint, event: Event)
    requires Logged(c, first, j) && Can(c, j, event)
    ensures After(c, j, event).r == Runner.Exec(Runner.IDLE, After(c, j, event).runnerLog)
  {
    match event
    case Start(_, timeout) => Runner.ExecSnoc(Runner.IDLE, j.runnerLog, Runner.Accept(timeout));
    case Ask(v) => Runner.ExecSnoc(Runner.IDLE, j.runnerLog, Runner.Request(j.handles[v], true));
    case Inside(step) => Runner.ExecSnoc(Runner.IDLE, j.runnerLog, step);
    case _ =>
  }

  lemma KeepsAsked(c: Config, j: Joint, event: Event)
    requires AskedOnlyCancelling(j) && Can(c, j, event)
    ensures AskedOnlyCancelling(After(c, j, event))
  {
  }

  lemma EventKeepsInv(c: Config, first: State, j: Joint, event: Event)
    requires JointInv(c, first, j) && Can(c, j, event)
    ensures JointInv(c, first, After(c, j, event))
  {
    RunInv(c, first, j.log, j.s);
    KeepsLog(c, first, j, event);
    KeepsRunnerLog(c, first, j, event);
    KeepsAsked(c, j, event);
    match event
    case Start(i, timeout) => StartKeeps(c, first, j, i, timeout);
    case Told(kind, notBefore, unlocked) => ToldKeeps(c, first, j, kind, notBefore, unlocked);
    case _ => OthersKeep(c, first, j, event);
  }

  lemma {:induction false} TogetherKeepsInv(c: Config, first: State, events: seq<Event>)
    requires IsSeeded(c, first) && Together(c, first, events).Some?
    ensures JointInv(c, first, Together(c, first, events).value)
    decreases |events|
  {
    if events == [] {
      assert Exec(c, first, []) == Some(first);
      forall v: nat | v < |first.nodes| ensures !first.nodes[v].state.Running? {
        SeededInv(c, first);
      }
    } else {
      var front := events[..|events| - 1];
      TogetherKeepsInv(c, first, front);
      EventKeepsInv(c, first, Together(c, first, front).value, events[|events| - 1]);
    }
  }

  // ---- what follows for whole runs ----

  /** Queued for its launch, alive, or reported without the scheduler having handled the report. */
  ghost predicate Pending(j: Joint, h: nat) {
    || h in Runner.Queued(j.r) || h in j.r.children
    || exists k: nat :: j.told <= k < |j.r.exits| && j.r.exits[k].handle == h
  }

  lemma GivenOutExactly(steps: seq<Runner.Step>, h: nat)
    ensures var r := Runner.Exec(Runner.IDLE, steps);
      && (1 <= h < r.nextHandle <==> h in Runner.Queued(r) || h in r.children || h in Runner.ExitHandles(r.exits))
      && (h in Runner.ExitHandles(r.exits) ==> h !in Runner.Queued(r) && h !in r.children)
  {
    Runner.RunKeepsInv(steps);
    var r := Runner.Exec(Runner.IDLE, steps);
    assert h in Runner.Queued(r) <==> h in multiset(Runner.Queued(r));
    assert h in r.children <==> h in multiset(r.children.Keys);
    assert h in Runner.ExitHandles(r.exits) <==> h in multiset(Runner.ExitHandles(r.exits));
    assert Runner.Places(r)[h] == if 1 <= h < r.nextHandle then 1 else 0;
  }

  lemma OutstandingIsPending(c: Config, first: State, j: Joint, h: nat)
    requires JointInv(c, first, j)
    ensures Outstanding(j, h) <==> Pending(j, h)
  {
    GivenOutExactly(j.runnerLog, h);
    var hs := Runner.ExitHandles(j.r.exits);
    assert forall k: nat :: k < |hs| ==> hs[k] == j.r.exits[k].handle;
    if k: nat :| k < |j.r.exits| && j.r.exits[k].handle == h {
      assert hs[k] == h;
      ExitsAreDistinct(j.runnerLog, k);
    }
  }

  /** RUNNING tasks correspond one to one to the launches that are queued, alive or reported but not yet handled,
      whatever the two sides have done. */
  lemma RunningExactly(c: Config, first: State, events: seq<Event>)
    requires IsSeeded(c, first) && Together(c, first, events).Some?
    ensures var j := Together(c, first, events).value;
      && (forall v: nat :: IsRunning(j.s, v) ==>
            v in j.handles && Pending(j, j.handles[v]) && j.handles[v] in j.owner && j.owner[j.handles[v]] == v)
      && (forall h: nat :: Pending(j, h) ==>
            h in j.owner && IsRunning(j.s, j.owner[h]) && j.owner[h] in j.handles && j.handles[j.owner[h]] == h)
  {
    TogetherKeepsInv(c, first, events);
    var j := Together(c, first, events).value;
    forall h: nat ensures Outstanding(j, h) <==> Pending(j, h) { OutstandingIsPending(c, first, j, h); }
    forall h: nat | Pending(j, h) ensures HasRunner(j, h) { assert Outstanding(j, h); }
  }

  /** The next report always finds the task it is about RUNNING. */
  lemma ReportFindsRunning(c: Config, first: State, events: seq<Event>)
    requires IsSeeded(c, first) && Together(c, first, events).Some?
    ensures var j := Together(c, first, events).value;
      j.told < |j.r.exits| ==>
        NextReported(j).Some? && Finds(ProcessFinished(NextReported(j).value, j.r.exits[j.told].outcome), j.s)
  {
    TogetherKeepsInv(c, first, events);
    var j := Together(c, first, events).value;
    if j.told < |j.r.exits| {
      ExitsAreDistinct(j.runnerLog, j.told);
      assert Outstanding(j, j.r.exits[j.told].handle);
      assert HasRunner(j, j.r.exits[j.told].handle);
    }
  }

  /** When everything is settled, the runner is idle and no report is left over. */
  lemma SettledMeansIdle(c: Config, first: State, events: seq<Event>)
    requires IsSeeded(c, first) && Together(c, first, events).Some?
    requires Settled(Together(c, first, events).value.s)
    ensures var j := Together(c, first, events).value; j.r.active == 0 && j.told == |j.r.exits|
  {
    TogetherKeepsInv(c, first, events);
    var j := Together(c, first, events).value;
    RunInv(c, first, j.log, j.s);
    forall v: nat ensures !IsRunning(j.s, v) { assert IsRunning(j.s, v) ==> v in RunningNodes(j.s.nodes); }
    forall h ensures !Outstanding(j, h) {
      assert Outstanding(j, h) ==> HasRunner(j, h) && IsRunning(j.s, j.owner[h]);
    }
    if j.told < |j.r.exits| {
      ExitsAreDistinct(j.runnerLog, j.told);
      assert Outstanding(j, j.r.exits[j.told].handle);
    }
    Runner.IdleExactly(j.runnerLog);
    forall h: nat | 1 <= h < j.r.nextHandle ensures multiset(Runner.ExitHandles(j.r.exits))[h] == 1 {
      Runner.ReportedExactlyOnce(j.runnerLog, h);
      assert !Outstanding(j, h);
      var k: nat :| k < j.told && k < |j.r.exits| && j.r.exits[k].handle == h;
      assert Runner.ExitHandles(j.r.exits)[k] == h;
    }
  }

  /** Scheduler and runner together: every complete run ends with all tasks terminal, and it is SUCCEEDED exactly
      when no cancel was requested and every task is SUCCEEDED or CACHED. */
  lemma WholeSystemVerdict(c: Config, first: State, events: seq<Event>, requested: bool)
    requires IsSeeded(c, first) && Together(c, first, events).Some?
    requires Settled(Together(c, first, events).value.s)
    ensures var j := Together(c, first, events).value;
      && AllTerminal(j.s)
      && (Verdict(j.s, requested) == PipelineSucceeded <==> BeginCancel !in j.log && !requested && AllSuccessLike(j.s))
      && (Verdict(j.s, requested) == PipelineFailed <==> BeginCancel !in j.log && !requested && !AllSuccessLike(j.s))
  {
    TogetherKeepsInv(c, first, events);
    CompleteRunVerdict(c, first, Together(c, first, events).value.log, requested);
  }

  /** They ran to the end together, and nobody asked for a cancel. */
  ghost predicate EndedTogether(c: Config, first: State, events: seq<Event>, j: Joint) {
    IsSeeded(c, first) && Together(c, first, events) == Some(j) && Settled(j.s) && !j.s.cancelling
  }

  lemma EndedRanToEnd(c: Config, first: State, events: seq<Event>, j: Joint)
    requires EndedTogether(c, first, events, j)
    ensures RanToEnd(c, first, j.log, j.s)
  {
    TogetherKeepsInv(c, first, events);
    CancellingIsRecorded(c, first, j.log);
  }

  /** The end of every run that is not cancelled: SKIPPED are exactly the strict descendants of FAILED tasks, no FAILED
      task descends from another one, and all other tasks succeeded. */
  lemma WholeSystemOutcome(c: Config, first: State, events: seq<Event>, j: Joint, v: nat)
    requires EndedTogether(c, first, events, j) && v < |j.s.nodes|
    ensures j.s.nodes[v].state.Skipped? <==> FailedAbove(c, j.s, v)
    ensures j.s.nodes[v].state.Failed? ==> !FailedAbove(c, j.s, v)
    ensures IsSuccessLike(j.s.nodes[v].state) <==> !j.s.nodes[v].state.Failed? && !FailedAbove(c, j.s, v)
  {
    EndedRanToEnd(c, first, events, j);
    UncancelledOutcome(c, first, j.log, j.s, v);
  }

  /** Two such runs of the same pipeline end alike if every attempt goes the same way in both, however the scheduler
      and the reactor interleave and whatever the slots, the resources and the priorities are. */
  lemma WholeSystemDeterministic(c: Config, first: State, events: seq<Event>, j: Joint,
                                 d: Config, other: State, others: seq<Event>, k: Joint, fate: Fate)
    requires SamePipeline(c, d) && EndedTogether(c, first, events, j) && EndedTogether(d, other, others, k)
    requires Shows(j.s, fate) && Shows(k.s, fate)
    ensures |j.s.nodes| == |k.s.nodes| && forall v: nat :: v < |j.s.nodes| ==> EndsAlike(j.s, k.s, v)
    ensures forall requested :: Verdict(j.s, requested) == Verdict(k.s, requested)
  {
    EndedRanToEnd(c, first, events, j);
    EndedRanToEnd(d, other, others, k);
    SameFateSameOutcome(c, first, j.log, j.s, d, other, k.log, k.s, fate);
  }
}
