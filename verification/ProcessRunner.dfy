/** The reactor behind the process runner: commands, children, signals and exit reports.
    Every step is total: one that the reactor cannot take at that point changes nothing. */
module ProcessRunner {
  import opened Sequences
  import opened Domain
  import opened Kahn

  datatype Status = Code(code: int) | Signal(number: int) | OtherStatus

  datatype Command = Launch(handle: nat, timeout: Option<int>) | Terminate(handle: nat, asCancellation: bool) | Shutdown

  /** A running child: stage 1 means that the terminate signal was sent, stage 2 the kill signal. */
  datatype Child = Child(outOpen: bool, errOpen: bool, status: Option<Status>, deadline: Option<int>,
                         stage: nat, termSentAt: int, forced: Option<Outcome>)

  datatype Exit = Exit(handle: nat, outcome: Outcome)

  datatype State = State(queue: seq<Command>, batch: seq<Command>, children: map<nat, Child>, active: int,
                         nextHandle: nat, exits: seq<Exit>, stopping: bool)

  const IDLE := State([], [], map[], 0, 1, [], false)

  datatype Step =
    | Accept(timeout: Option<int>)
    | Request(handle: nat, asCancellation: bool)
    | Shut
    | Swap
    | Handle(started: bool, now: int)
    | CloseStream(handle: nat, isStdout: bool)
    | Reap(handle: nat, status: Status)
    | Enforce(handle: nat, now: int, grace: int)
    | Finalize(handle: nat)

  // ---- One child ----

  function NewChild(timeout: Option<int>, now: int): Child {
    var deadline := if timeout.Some? && timeout.value > 0 then Some(now + timeout.value) else None;
    Child(true, true, None, deadline, 0, 0, None)
  }

  /** A terminate request reaches only a child that still runs and was not signalled yet. */
  function Terminated(c: Child, asCancellation: bool, now: int): Child {
    if c.status.Some? || c.stage >= 1 then c
    else c.(stage := 1, termSentAt := now, forced := Some(if asCancellation then ProcessCancelled else TimedOut))
  }

  /** Deadline first, then the grace period after the terminate signal. */
  function Enforced(c: Child, now: int, grace: int): Child {
    if c.status.Some? then c
    else if c.stage == 0 && c.deadline.Some? && now >= c.deadline.value then
      c.(stage := 1, termSentAt := now, forced := Some(TimedOut))
    else if c.stage == 1 && now - c.termSentAt >= grace then c.(stage := 2)
    else c
  }

  /** Shutting down kills every child that has not been reaped, whatever it was signalled for before. */
  function Killed(c: Child): Child {
    if c.status.Some? then c else c.(stage := 2, forced := Some(ProcessCancelled))
  }

  function AllKilled(children: map<nat, Child>): map<nat, Child> {
    map h | h in children :: Killed(children[h])
  }

  predicate Done(c: Child) {
    c.status.Some? && !c.outOpen && !c.errOpen
  }

  function Reported(c: Child): Outcome {
    if c.forced.Some? then c.forced.value
    else if c.status.Some? && c.status.value.Code? then Exited(c.status.value.code)
    else Signalled
  }

  // ---- One step ----

  function HandleOne(s: State, started: bool, now: int): State
    requires s.batch != []
  {
    var rest := s.(batch := s.batch[1..]);
    match s.batch[0]
    case Launch(h, timeout) =>
      if started then rest.(children := s.children[h := NewChild(timeout, now)])
      else rest.(exits := s.exits + [Exit(h, SpawnFailed)], active := s.active - 1)
    case Terminate(h, asCancellation) =>
      if h in s.children then rest.(children := s.children[h := Terminated(s.children[h], asCancellation, now)])
      else rest
    case Shutdown => rest.(stopping := true, children := AllKilled(s.children))
  }

  function Apply(s: State, step: Step): State {
    match step
    case Accept(timeout) =>
      if s.stopping then s else s.(queue := s.queue + [Launch(s.nextHandle, timeout)], nextHandle := s.nextHandle + 1, active := s.active + 1)
    case Request(h, asCancellation) => s.(queue := s.queue + [Terminate(h, asCancellation)])
    case Shut => s.(queue := s.queue + [Shutdown])
    case Swap => if s.batch == [] then s.(batch := s.queue, queue := []) else s
    case Handle(started, now) => if s.batch == [] then s else HandleOne(s, started, now)
    case CloseStream(h, isStdout) =>
      if h !in s.children then s
      else if isStdout then s.(children := s.children[h := s.children[h].(outOpen := false)])
      else s.(children := s.children[h := s.children[h].(errOpen := false)])
    case Reap(h, status) =>
      if h in s.children && s.children[h].status.None?
      then s.(children := s.children[h := s.children[h].(status := Some(status))]) else s
    case Enforce(h, now, grace) =>
      if h in s.children then s.(children := s.children[h := Enforced(s.children[h], now, grace)]) else s
    case Finalize(h) =>
      if h in s.children && Done(s.children[h])
      then s.(children := s.children - {h}, exits := s.exits + [Exit(h, Reported(s.children[h]))], active := s.active - 1)
      else s
  }

  function Exec(s: State, steps: seq<Step>): State {
    if steps == [] then s else Apply(Exec(s, steps[..|steps| - 1]), steps[|steps| - 1])
  }

  lemma {:induction false} ExecConcat(s: State, a: seq<Step>, b: seq<Step>)
    ensures Exec(s, a + b) == Exec(Exec(s, a), b)
  {
    if b == [] {
      assert a + b == a;
    } else {
      assert (a + b)[..|a + b| - 1] == a + b[..|b| - 1];
      ExecConcat(s, a, b[..|b| - 1]);
    }
  }

  lemma ExecSnoc(s: State, steps: seq<Step>, step: Step)
    ensures Exec(s, steps + [step]) == Apply(Exec(s, steps), step)
  {
    assert (steps + [step])[..|steps|] == steps;
  }

  // ---- Where the accepted launches are ----

  function LaunchOf(command: Command): seq<nat> {
    if command.Launch? then [command.handle] else []
  }

  /** The handles of the launches among some commands, in order. */
  function Launches(commands: seq<Command>): seq<nat> {
    if commands == [] then [] else LaunchOf(commands[0]) + Launches(commands[1..])
  }

  lemma {:induction false} LaunchesAppend(a: seq<Command>, b: seq<Command>)
    ensures Launches(a + b) == Launches(a) + Launches(b)
  {
    if a == [] {
      assert a + b == b;
    } else {
      assert (a + b)[1..] == a[1..] + b;
      LaunchesAppend(a[1..], b);
      Associative(LaunchOf(a[0]), Launches(a[1..]), Launches(b));
    }
  }

  function Queued(s: State): seq<nat> {
    Launches(s.batch) + Launches(s.queue)
  }

  function ExitHandles(exits: seq<Exit>): (r: seq<nat>)
    ensures |r| == |exits|
  {
    seq(|exits|, i requires 0 <= i < |exits| => exits[i].handle)
  }

  /** Every place where a handle can be found. */
  ghost function Places(s: State): multiset<nat> {
    multiset(Queued(s)) + multiset(s.children.Keys) + multiset(ExitHandles(s.exits))
  }

  /** A handle that was given out is in exactly one place: queued, alive or reported. */
  ghost predicate PlacedOnce(s: State) {
    forall h: nat :: Places(s)[h] == if 1 <= h < s.nextHandle then 1 else 0
  }

  /** Signals and outcome of a child belong together. */
  predicate Consistent(c: Child) {
    && c.stage <= 2 && (c.stage == 0 <==> c.forced == None)
    && (c.forced.Some? ==> c.forced.value == TimedOut || c.forced.value == ProcessCancelled)
  }

  ghost predicate Inv(s: State) {
    && s.nextHandle >= 1 && PlacedOnce(s) && s.active == |Queued(s)| + |s.children|
    && forall h :: h in s.children ==> Consistent(s.children[h])
  }

  lemma ExitHandlesSnoc(exits: seq<Exit>, e: Exit)
    ensures ExitHandles(exits + [e]) == ExitHandles(exits) + [e.handle]
  {
  }

  lemma QueuedSnoc(s: State, command: Command)
    ensures Queued(s.(queue := s.queue + [command])) == Queued(s) + if command.Launch? then [command.handle] else []
  {
    LaunchesAppend(s.queue, [command]);
    assert [command][1..] == [];
  }

  lemma PlacesAccept(s: State, t: State)
    requires Queued(t) == Queued(s) + [s.nextHandle] && t.children == s.children && t.exits == s.exits
    ensures Places(t) == Places(s) + multiset{s.nextHandle}
  {
  }

  lemma PlacedAccept(s: State, t: State)
    requires PlacedOnce(s) && s.nextHandle >= 1 && t.nextHandle == s.nextHandle + 1
    requires Places(t) == Places(s) + multiset{s.nextHandle}
    ensures PlacedOnce(t)
  {
    forall h: nat ensures Places(t)[h] == if 1 <= h < t.nextHandle then 1 else 0 {
      assert Places(t)[h] == Places(s)[h] + if h == s.nextHandle then 1 else 0;
    }
  }

  lemma KeepsAccept(s: State, timeout: Option<int>)
    requires Inv(s) && !s.stopping
    ensures Inv(Apply(s, Accept(timeout)))
  {
    var t := Apply(s, Accept(timeout));
    QueuedSnoc(s, Launch(s.nextHandle, timeout));
    PlacesAccept(s, t);
    PlacedAccept(s, t);
  }

  /** Moving handles from place to place loses none and doubles none. */
  lemma KeepsPlaces(s: State, t: State)
    requires Inv(s) && Places(t) == Places(s) && t.nextHandle == s.nextHandle
    requires t.active == |Queued(t)| + |t.children|
    requires forall h :: h in t.children ==> Consistent(t.children[h])
    ensures Inv(t)
  {
  }

  lemma KeepsRequest(s: State, h: nat, asCancellation: bool)
    requires Inv(s)
    ensures Inv(Apply(s, Request(h, asCancellation)))
  {
    QueuedSnoc(s, Terminate(h, asCancellation));
    var t := Apply(s, Request(h, asCancellation));
    assert Queued(t) == Queued(s);
    KeepsPlaces(s, t);
  }

  lemma KeepsShut(s: State)
    requires Inv(s)
    ensures Inv(Apply(s, Shut))
  {
    QueuedSnoc(s, Shutdown);
    var t := Apply(s, Shut);
    assert Queued(t) == Queued(s);
    KeepsPlaces(s, t);
  }

  lemma KeepsSwap(s: State)
    requires Inv(s)
    ensures Inv(Apply(s, Swap))
  {
    var t := Apply(s, Swap);
    assert Queued(t) == Queued(s);
    KeepsPlaces(s, t);
  }

  lemma SizeOfKeys(children: map<nat, Child>)
    ensures |children.Keys| == |children|
  {
  }

  /** A child that changes stays where it is. */
  lemma KeepsChild(s: State, h: nat, c: Child)
    requires Inv(s) && h in s.children && Consistent(c)
    ensures Inv(s.(children := s.children[h := c]))
  {
    var t := s.(children := s.children[h := c]);
    assert t.children.Keys == s.children.Keys;
    SizeOfKeys(s.children);
    SizeOfKeys(t.children);
    assert Queued(t) == Queued(s);
    KeepsPlaces(s, t);
  }

  lemma PopLaunch(s: State)
    requires s.batch != [] && s.batch[0].Launch?
    ensures Queued(s) == [s.batch[0].handle] + Queued(s.(batch := s.batch[1..]))
    ensures multiset(Queued(s)) == multiset{s.batch[0].handle} + multiset(Queued(s.(batch := s.batch[1..])))
  {
  }

  lemma AddChild(children: map<nat, Child>, h: nat, c: Child)
    requires h !in children
    ensures multiset(children[h := c].Keys) == multiset(children.Keys) + multiset{h}
    ensures |children[h := c]| == |children| + 1
  {
    assert children[h := c].Keys == children.Keys + {h};
    SizeOfKeys(children);
    SizeOfKeys(children[h := c]);
  }

  lemma RemoveChild(children: map<nat, Child>, h: nat)
    requires h in children
    ensures multiset(children.Keys) == multiset((children - {h}).Keys) + multiset{h}
    ensures |children - {h}| == |children| - 1
  {
    assert children.Keys == (children - {h}).Keys + {h};
    SizeOfKeys(children);
    SizeOfKeys(children - {h});
  }

  lemma QueuedIsNoChild(s: State)
    requires Inv(s) && s.batch != [] && s.batch[0].Launch?
    ensures s.batch[0].handle !in s.children
  {
    PopLaunch(s);
    assert Places(s)[s.batch[0].handle] <= 1;
  }

  lemma KeepsStarted(s: State, now: int)
    requires Inv(s) && s.batch != [] && s.batch[0].Launch?
    ensures Inv(HandleOne(s, true, now))
  {
    var h, t := s.batch[0].handle, HandleOne(s, true, now);
    QueuedIsNoChild(s);
    PopLaunch(s);
    AddChild(s.children, h, NewChild(s.batch[0].timeout, now));
    assert Queued(t) == Queued(s.(batch := s.batch[1..]));
    KeepsPlaces(s, t);
  }

  lemma KeepsNotStarted(s: State, now: int)
    requires Inv(s) && s.batch != [] && s.batch[0].Launch?
    ensures Inv(HandleOne(s, false, now))
  {
    var h, t := s.batch[0].handle, HandleOne(s, false, now);
    PopLaunch(s);
    assert Queued(t) == Queued(s.(batch := s.batch[1..]));
    ExitHandlesSnoc(s.exits, Exit(h, SpawnFailed));
    KeepsPlaces(s, t);
  }

  lemma KeepsTerminate(s: State, started: bool, now: int)
    requires Inv(s) && s.batch != [] && s.batch[0].Terminate?
    ensures Inv(HandleOne(s, started, now))
  {
    var rest := s.(batch := s.batch[1..]);
    assert Queued(rest) == Queued(s);
    KeepsPlaces(s, rest);
    var h := s.batch[0].handle;
    if h in s.children {
      KeepsChild(rest, h, Terminated(s.children[h], s.batch[0].asCancellation, now));
    }
  }

  lemma KeepsShutdown(s: State, started: bool, now: int)
    requires Inv(s) && s.batch != [] && s.batch[0].Shutdown?
    ensures Inv(HandleOne(s, started, now))
  {
    var t := HandleOne(s, started, now);
    assert Queued(t) == Queued(s);
    assert t.children.Keys == s.children.Keys;
    SizeOfKeys(s.children);
    SizeOfKeys(t.children);
    KeepsPlaces(s, t);
  }

  lemma KeepsFinalize(s: State, h: nat)
    requires Inv(s) && h in s.children && Done(s.children[h])
    ensures Inv(Apply(s, Finalize(h)))
  {
    var t := Apply(s, Finalize(h));
    ExitHandlesSnoc(s.exits, Exit(h, Reported(s.children[h])));
    RemoveChild(s.children, h);
    assert Queued(t) == Queued(s);
    KeepsPlaces(s, t);
  }

  /** No step breaks the accounting. */
  lemma StepKeepsInv(s: State, step: Step)
    requires Inv(s)
    ensures Inv(Apply(s, step))
  {
    match step
    case Accept(timeout) => if !s.stopping { KeepsAccept(s, timeout); }
    case Request(h, asCancellation) => KeepsRequest(s, h, asCancellation);
    case Shut => KeepsShut(s);
    case Swap => KeepsSwap(s);
    case Handle(started, now) =>
      if s.batch != [] && s.batch[0].Launch? {
        if started { KeepsStarted(s, now); } else { KeepsNotStarted(s, now); }
      } else if s.batch != [] && s.batch[0].Terminate? {
        KeepsTerminate(s, started, now);
      } else if s.batch != [] {
        KeepsShutdown(s, started, now);
      }
    case CloseStream(h, isStdout) =>
      if h in s.children {
        var c := s.children[h];
        KeepsChild(s, h, if isStdout then c.(outOpen := false) else c.(errOpen := false));
      }
    case Reap(h, status) =>
      if h in s.children { KeepsChild(s, h, s.children[h].(status := Some(status))); }
    case Enforce(h, now, grace) =>
      if h in s.children { KeepsChild(s, h, Enforced(s.children[h], now, grace)); }
    case Finalize(h) =>
      if h in s.children && Done(s.children[h]) { KeepsFinalize(s, h); }
  }

  lemma {:induction false} RunKeepsInv(steps: seq<Step>)
    ensures Inv(Exec(IDLE, steps))
  {
    if steps == [] {
      assert Places(IDLE) == multiset{};
    } else {
      RunKeepsInv(steps[..|steps| - 1]);
      StepKeepsInv(Exec(IDLE, steps[..|steps| - 1]), steps[|steps| - 1]);
    }
  }

  // ---- Whole runs ----

  /** An accepted launch is waiting, alive, or reported exactly once; there is no fourth way. */
  lemma ReportedExactlyOnce(steps: seq<Step>, h: nat)
    ensures var s := Exec(IDLE, steps);
      1 <= h < s.nextHandle ==>
        multiset(ExitHandles(s.exits))[h] == if h in Queued(s) || h in s.children then 0 else 1
  {
    RunKeepsInv(steps);
    var s := Exec(IDLE, steps);
    if 1 <= h < s.nextHandle {
      assert Places(s)[h] == 1;
      assert h in Queued(s) <==> h in multiset(Queued(s));
      assert h in s.children <==> h in multiset(s.children.Keys);
    }
  }

  /** The counter is zero exactly when every accepted launch has been reported. */
  lemma IdleExactly(steps: seq<Step>)
    ensures var s := Exec(IDLE, steps);
      && s.active == |Queued(s)| + |s.children|
      && (s.active == 0 <==> forall h: nat :: 1 <= h < s.nextHandle ==> multiset(ExitHandles(s.exits))[h] == 1)
  {
    RunKeepsInv(steps);
    var s := Exec(IDLE, steps);
    forall h: nat | 1 <= h < s.nextHandle
      ensures multiset(ExitHandles(s.exits))[h] == if h in Queued(s) || h in s.children then 0 else 1
    {
      ReportedExactlyOnce(steps, h);
    }
    if s.active != 0 {
      var h := SomePending(s);
    } else {
      SizeOfKeys(s.children);
      assert s.children.Keys == {};
    }
  }

  lemma SomePending(s: State) returns (h: nat)
    requires Inv(s) && s.active != 0
    ensures 1 <= h < s.nextHandle && (h in Queued(s) || h in s.children)
  {
    if Queued(s) != [] {
      h := Queued(s)[0];
      assert h in multiset(Queued(s));
    } else {
      SizeOfKeys(s.children);
      h :| h in s.children.Keys;
      assert h in multiset(s.children.Keys);
    }
    assert Places(s)[h] >= 1;
  }

  /** What produced an exit report. */
  ghost predicate Produces(s: State, step: Step, e: Exit) {
    || (step.Finalize? && step.handle == e.handle && e.handle in s.children && Done(s.children[e.handle])
        && e.outcome == Reported(s.children[e.handle]))
    || (step.Handle? && !step.started && s.batch != [] && s.batch[0].Launch? && s.batch[0].handle == e.handle
        && e.outcome == SpawnFailed)
  }

  lemma ExitsGrow(s: State, step: Step)
    ensures Apply(s, step).exits == s.exits
         || exists e :: Apply(s, step).exits == s.exits + [e] && Produces(s, step, e)
  {
    if step.Finalize? && step.handle in s.children && Done(s.children[step.handle]) {
      var e := Exit(step.handle, Reported(s.children[step.handle]));
      assert Apply(s, step).exits == s.exits + [e] && Produces(s, step, e);
    } else if step.Handle? && !step.started && s.batch != [] && s.batch[0].Launch? {
      var e := Exit(s.batch[0].handle, SpawnFailed);
      assert Apply(s, step).exits == s.exits + [e] && Produces(s, step, e);
    }
  }

  /** Every report goes back to one step: a launch that could not start, or a child that was reaped and whose
      two streams were closed. */
  lemma {:induction false} ReportOrigin(steps: seq<Step>, e: Exit) returns (k: nat)
    requires e in Exec(IDLE, steps).exits
    ensures k < |steps| && Produces(Exec(IDLE, steps[..k]), steps[k], e)
  {
    var n := |steps| - 1;
    var front := steps[..n];
    if e in Exec(IDLE, front).exits {
      k := ReportOrigin(front, e);
      assert front[..k] == steps[..k];
    } else {
      k := n;
      ExitsGrow(Exec(IDLE, front), steps[n]);
    }
  }

  /** How a live child may change: signals only escalate, one stage at a time, the first signal fixes the outcome,
      streams stay closed and the wait status stays. */
  ghost predicate Follows(a: Child, b: Child) {
    && a.stage <= b.stage <= a.stage + 1
    && (a.forced.Some? ==> b.forced == a.forced)
    && (!a.outOpen ==> !b.outOpen) && (!a.errOpen ==> !b.errOpen)
    && (a.status.Some? ==> b.status == a.status && b.stage == a.stage)
    && a.deadline == b.deadline
  }

  /** The step carries out a shutdown. */
  predicate ShutsDown(s: State, step: Step) {
    step.Handle? && s.batch != [] && s.batch[0].Shutdown?
  }

  lemma ChildMoves(s: State, step: Step, h: nat)
    requires Inv(s) && h in s.children
    ensures var t := Apply(s, step);
      if h in t.children then
        if ShutsDown(s, step) then t.children[h] == Killed(s.children[h]) else Follows(s.children[h], t.children[h])
      else step == Finalize(h) && t.exits == s.exits + [Exit(h, Reported(s.children[h]))]
  {
    assert Consistent(s.children[h]);
    if step.Handle? && s.batch != [] { ChildHandled(s, step.started, step.now, h); }
  }

  lemma ChildHandled(s: State, started: bool, now: int, h: nat)
    requires Inv(s) && h in s.children && s.batch != []
    ensures var t := HandleOne(s, started, now);
      && h in t.children
      && if s.batch[0].Shutdown? then t.children[h] == Killed(s.children[h]) else Follows(s.children[h], t.children[h])
  {
    assert Consistent(s.children[h]);
    if s.batch[0].Launch? { QueuedIsNoChild(s); }
  }

  /** The outcome of h is settled: it is what the live child will report, or what was reported. */
  ghost predicate Fixed(s: State, h: nat, o: Outcome) {
    if h in s.children then s.children[h].forced == Some(o) else Exit(h, o) in s.exits
  }

  lemma FixedStep(s: State, step: Step, h: nat, o: Outcome)
    requires Inv(s) && Fixed(s, h, o)
    ensures Fixed(Apply(s, step), h, o) || (ShutsDown(s, step) && Fixed(Apply(s, step), h, ProcessCancelled))
  {
    if h in s.children {
      ChildMoves(s, step, h);
    } else {
      ExitsGrow(s, step);
      var i :| 0 <= i < |s.exits| && s.exits[i] == Exit(h, o);
      assert ExitHandles(s.exits)[i] == h;
      NeverAgain(s, step, h);
    }
  }

  /** Whoever signals a child first, deadline or request, fixes the outcome that will be reported; only shutting the
      runner down can still turn it into a cancellation. */
  lemma {:induction false} FirstSignalFixes(before: seq<Step>, later: seq<Step>, h: nat)
    requires h in Exec(IDLE, before).children && Exec(IDLE, before).children[h].forced.Some?
    ensures Fixed(Exec(IDLE, before + later), h, Exec(IDLE, before).children[h].forced.value)
         || (Shut in before + later && Fixed(Exec(IDLE, before + later), h, ProcessCancelled))
  {
    if later == [] {
      assert before + later == before;
    } else {
      var n := |later| - 1;
      FirstSignalFixes(before, later[..n], h);
      var mid := before + later[..n];
      assert before + later == mid + [later[n]];
      FixedMore(mid, later[n], h, Exec(IDLE, before).children[h].forced.value);
    }
  }

  lemma FixedMore(steps: seq<Step>, step: Step, h: nat, o: Outcome)
    requires Fixed(Exec(IDLE, steps), h, o) || (Shut in steps && Fixed(Exec(IDLE, steps), h, ProcessCancelled))
    ensures Fixed(Exec(IDLE, steps + [step]), h, o)
         || (Shut in steps + [step] && Fixed(Exec(IDLE, steps + [step]), h, ProcessCancelled))
  {
    var s := Exec(IDLE, steps);
    RunKeepsInv(steps);
    RunJustified(steps);
    ExecSnoc(IDLE, steps, step);
    assert ShutsDown(s, step) ==> s.batch[0].Shutdown? && Shut in steps;
    FixedStep(s, step, h, if Fixed(s, h, o) then o else ProcessCancelled);
  }

  /** A reported handle does not come back to life. */
  lemma NeverAgain(s: State, step: Step, h: nat)
    requires Inv(s) && h in ExitHandles(s.exits)
    ensures h !in Apply(s, step).children
  {
    StepKeepsInv(s, step);
    var t := Apply(s, step);
    ExitsGrow(s, step);
    assert h in ExitHandles(t.exits) by {
      var i :| 0 <= i < |s.exits| && s.exits[i].handle == h;
      assert t.exits[i] == s.exits[i];
      assert ExitHandles(t.exits)[i] == h;
    }
    assert h in multiset(ExitHandles(t.exits));
    assert Places(t)[h] <= 1;
  }

  // ---- Why an outcome was forced ----

  /** Somebody asked for it, or the deadline had passed when the signal was sent. */
  ghost predicate Justified(steps: seq<Step>, h: nat, c: Child) {
    && (c.forced == Some(ProcessCancelled) ==> Request(h, true) in steps || Shut in steps)
    && (c.forced == Some(TimedOut) ==>
          Request(h, false) in steps || (c.deadline.Some? && c.deadline.value <= c.termSentAt))
  }

  ghost predicate Asked(steps: seq<Step>, commands: seq<Command>) {
    forall i :: 0 <= i < |commands| ==>
      && (commands[i].Terminate? ==> Request(commands[i].handle, commands[i].asCancellation) in steps)
      && (commands[i].Shutdown? ==> Shut in steps)
  }

  ghost predicate AllJustified(steps: seq<Step>, s: State) {
    && Asked(steps, s.queue) && Asked(steps, s.batch) && (s.stopping ==> Shut in steps)
    && forall h :: h in s.children ==> Justified(steps, h, s.children[h])
  }

  lemma JustifiedMore(steps: seq<Step>, step: Step, s: State)
    requires AllJustified(steps, s)
    ensures AllJustified(steps + [step], s)
  {
    forall x | x in steps ensures x in steps + [step] {
    }
  }

  lemma JustifiedStep(steps: seq<Step>, step: Step, s: State)
    requires AllJustified(steps, s) && step in steps
    ensures AllJustified(steps, Apply(s, step))
  {
    if step.Handle? && s.batch != [] {
      assert s.batch[0].Terminate? ==> Request(s.batch[0].handle, s.batch[0].asCancellation) in steps;
      assert s.batch[0].Shutdown? ==> Shut in steps;
    }
  }

  lemma {:induction false} RunJustified(steps: seq<Step>)
    ensures AllJustified(steps, Exec(IDLE, steps))
  {
    if steps != [] {
      var n := |steps| - 1;
      RunJustified(steps[..n]);
      assert steps == steps[..n] + [steps[n]];
      JustifiedMore(steps[..n], steps[n], Exec(IDLE, steps[..n]));
      JustifiedStep(steps, steps[n], Exec(IDLE, steps[..n]));
    }
  }

  /** A cancelled process is reported only if its cancellation was requested before, or the runner is shut down. */
  lemma CancelledWasRequested(steps: seq<Step>, h: nat)
    requires Exit(h, ProcessCancelled) in Exec(IDLE, steps).exits
    ensures Request(h, true) in steps || Shut in steps
  {
    var k := ReportOrigin(steps, Exit(h, ProcessCancelled));
    RunJustified(steps[..k]);
    assert Justified(steps[..k], h, Exec(IDLE, steps[..k]).children[h]);
  }

  // ---- The end of the loop ----

  /** The loop ends when it has been told to and no child is left. */
  predicate LoopEnds(s: State) {
    s.stopping && s.children == map[]
  }

  /** When the loop ends, every accepted launch has been reported exactly once if and only if no launch was accepted
      after the commands were last taken. */
  lemma EndReportsAllExactly(steps: seq<Step>)
    requires LoopEnds(Exec(IDLE, steps)) && Exec(IDLE, steps).batch == []
    ensures var s := Exec(IDLE, steps);
      (forall h: nat :: 1 <= h < s.nextHandle ==> multiset(ExitHandles(s.exits))[h] == 1) <==> Launches(s.queue) == []
  {
    IdleExactly(steps);
    var s := Exec(IDLE, steps);
    assert Queued(s) == Launches(s.queue);
  }

  /** A launch that is accepted after the shutdown was taken, and before it is carried out, is never reported. */
  lemma ShutdownMayLoseLaunch(timeout: Option<int>, now: int)
    ensures var s := Exec(IDLE, [Shut] + [Swap] + [Accept(timeout)] + [Handle(false, now)]);
      && LoopEnds(s) && s.batch == [] && s.nextHandle == 2 && s.exits == [] && Launches(s.queue) == [1]
  {
    ExecSnoc(IDLE, [], Shut);
    assert [] + [Shut] == [Shut];
    ExecSnoc(IDLE, [Shut], Swap);
    ExecSnoc(IDLE, [Shut] + [Swap], Accept(timeout));
    var s := Exec(IDLE, [Shut] + [Swap] + [Accept(timeout)]);
    assert s.batch == [Shutdown] && s.queue == [Command.Launch(1, timeout)];
    ExecSnoc(IDLE, [Shut] + [Swap] + [Accept(timeout)], Handle(false, now));
    assert s.queue[1..] == [];
  }

  // ---- The reactor ----

  /** What a look at a child's pipes and wait status shows. */
  datatype Observation = Observation(outEnded: bool, errEnded: bool, status: Option<Status>)

  function Observed(c: Child, o: Observation): Child {
    if c.status.Some? then c
    else c.(outOpen := c.outOpen && !o.outEnded, errOpen := c.errOpen && !o.errEnded, status := o.status)
  }

  lemma CloseSteps(s: State, h: nat, isStdout: bool, ended: bool) returns (steps: seq<Step>)
    requires h in s.children
    ensures var c := s.children[h];
      Exec(s, steps) == s.(children := s.children[h :=
        if isStdout then c.(outOpen := c.outOpen && !ended) else c.(errOpen := c.errOpen && !ended)])
  {
    assert s.children == s.children[h := s.children[h]];
    steps := [];
    if ended {
      steps := [CloseStream(h, isStdout)];
      ExecSnoc(s, [], CloseStream(h, isStdout));
      assert [] + steps == steps;
    }
  }

  lemma ReapSteps(s: State, h: nat, status: Option<Status>) returns (steps: seq<Step>)
    requires h in s.children && s.children[h].status.None?
    ensures Exec(s, steps) == s.(children := s.children[h := s.children[h].(status := status)])
  {
    assert s.children == s.children[h := s.children[h]];
    steps := [];
    if status.Some? {
      steps := [Reap(h, status.value)];
      ExecSnoc(s, [], Reap(h, status.value));
      assert [] + steps == steps;
    }
  }

  lemma LookSteps(s: State, h: nat, seen: Observation) returns (steps: seq<Step>)
    requires h in s.children
    ensures Exec(s, steps) == s.(children := s.children[h := Observed(s.children[h], seen)])
  {
    if s.children[h].status.Some? {
      steps := [];
      assert s.children == s.children[h := s.children[h]];
    } else {
      var a := CloseSteps(s, h, true, seen.outEnded);
      var s1 := Exec(s, a);
      var b := CloseSteps(s1, h, false, seen.errEnded);
      var s2 := Exec(s1, b);
      var c := ReapSteps(s2, h, seen.status);
      ExecConcat(s, a, b);
      ExecConcat(s, a + b, c);
      steps := a + b + c;
      assert Exec(s, steps).children == s.children[h := Observed(s.children[h], seen)];
    }
  }

  class Reactor {
    const grace: int
    var queue: seq<Command>
    var batch: seq<Command>
    var children: map<nat, Child>
    var active: int
    var nextHandle: nat
    var exits: seq<Exit>
    var stopping: bool

    ghost function Now(): State
      reads this
    {
      State(queue, batch, children, active, nextHandle, exits, stopping)
    }

    constructor (grace: int)
      ensures this.grace == grace && Now() == IDLE
    {
      this.grace, queue, batch, children, active, nextHandle, exits := grace, [], [], map[], 0, 1, [];
      stopping := false;
    }

    /** A fresh handle, or 0 once the runner is stopping. */
    method Launch(timeout: Option<int>) returns (handle: nat)
      modifies this
      ensures handle == if old(stopping) then 0 else old(nextHandle)
      ensures Now() == Apply(old(Now()), Accept(timeout))
    {
      if stopping { return 0; }
      handle := nextHandle;
      nextHandle := nextHandle + 1;
      active := active + 1;
      queue := queue + [Command.Launch(handle, timeout)];
    }

    method RequestTerminate(handle: nat, asCancellation: bool)
      modifies this
      ensures Now() == Apply(old(Now()), Request(handle, asCancellation))
    {
      queue := queue + [Terminate(handle, asCancellation)];
    }

    /** What destruction asks for. */
    method RequestShutdown()
      modifies this
      ensures Now() == Apply(old(Now()), Shut)
    {
      queue := queue + [Shutdown];
    }

    /** Kills every child that has not been reaped. */
    method HandleShutdown()
      modifies this`stopping, this`children
      ensures stopping && children == AllKilled(old(children))
    {
      stopping := true;
      var todo := children.Keys;
      ghost var before := children;
      while todo != {}
        invariant stopping && todo <= children.Keys == before.Keys
        invariant forall h :: h in children ==> children[h] == if h in todo then before[h] else Killed(before[h])
      {
        var h :| h in todo;
        todo := todo - {h};
        if children[h].status.None? {
          children := children[h := children[h].(stage := 2, forced := Some(ProcessCancelled))];
        }
      }
      assert children == AllKilled(before);
    }

    method HandleLaunch(handle: nat, timeout: Option<int>, started: bool, now: int)
      modifies this`children, this`active, this`exits
      ensures children == if started then old(children)[handle := NewChild(timeout, now)] else old(children)
      ensures exits == if started then old(exits) else old(exits) + [Exit(handle, SpawnFailed)]
      ensures active == if started then old(active) else old(active) - 1
    {
      if !started {
        exits := exits + [Exit(handle, SpawnFailed)];
        active := active - 1;
        return;
      }
      var deadline := None;
      if timeout.Some? && timeout.value > 0 {
        deadline := Some(now + timeout.value);
      }
      children := children[handle := Child(true, true, None, deadline, 0, 0, None)];
    }

    method HandleTerminate(handle: nat, asCancellation: bool, now: int)
      modifies this`children
      ensures children == if handle in old(children)
        then old(children)[handle := Terminated(old(children)[handle], asCancellation, now)] else old(children)
    {
      if handle !in children {
        return;
      }
      var child := children[handle];
      if child.status.Some? || child.stage >= 1 {
        assert children == children[handle := child];
        return;
      }
      child := child.(stage := 1, termSentAt := now);
      child := child.(forced := Some(if asCancellation then ProcessCancelled else TimedOut));
      children := children[handle := child];
    }

    /** Takes the queued commands and carries them out in order. */
    method DrainCommands(starts: nat -> bool, clock: nat -> int) returns (ghost steps: seq<Step>)
      requires batch == []
      modifies this
      ensures Now() == Exec(old(Now()), steps) && batch == [] && queue == []
      ensures |steps| == 1 + |old(queue)| && steps[0] == Swap
    {
      batch, queue := queue, [];
      steps := [Swap];
      ghost var s := old(Now());
      ExecSnoc(s, [], Swap);
      assert [] + [Swap] == [Swap];
      while batch != []
        invariant Now() == Exec(s, steps) && queue == [] && steps != [] && steps[0] == Swap
        invariant |steps| + |batch| == 1 + |s.queue|
        decreases |batch|
      {
        ghost var step := DrainOne(starts, clock(|batch|), s, steps);
        steps := steps + [step];
      }
    }

    method DrainOne(starts: nat -> bool, now: int, ghost s: State, ghost steps: seq<Step>) returns (ghost step: Step)
      requires batch != [] && Now() == Exec(s, steps)
      modifies this
      ensures Now() == Exec(s, steps + [step]) && batch == old(batch)[1..] && queue == old(queue)
    {
      var started := HandleNext(starts, now);
      step := Handle(started, now);
      ExecSnoc(s, steps, step);
    }

    method HandleNext(starts: nat -> bool, now: int) returns (started: bool)
      requires batch != []
      modifies this
      ensures Now() == Apply(old(Now()), Handle(started, now))
    {
      var command := batch[0];
      started := command.Launch? && starts(command.handle);
      match command
      case Launch(handle, timeout) =>
        HandleLaunch(handle, timeout, started, now);
        batch := batch[1..];
        assert Now() == HandleOne(old(Now()), started, now);
      case Terminate(handle, asCancellation) =>
        HandleTerminate(handle, asCancellation, now);
        batch := batch[1..];
        assert Now() == HandleOne(old(Now()), started, now);
      case Shutdown =>
        HandleShutdown();
        batch := batch[1..];
        assert Now() == HandleOne(old(Now()), started, now);
    }

    /** Looks at every child that has not been reaped. */
    method ReapChildren(look: nat -> Observation) returns (ghost steps: seq<Step>)
      modifies this`children
      ensures Now() == Exec(old(Now()), steps)
      ensures children == map h | h in old(children) :: Observed(old(children)[h], look(h))
    {
      var todo := children.Keys;
      ghost var s := Now();
      steps := [];
      while todo != {}
        invariant todo <= children.Keys == s.children.Keys
        invariant forall h :: h in children ==>
          children[h] == if h in todo then s.children[h] else Observed(s.children[h], look(h))
        invariant Now() == Exec(s, steps)
      {
        var h :| h in todo;
        todo := todo - {h};
        ghost var looked := LookAt(h, look(h));
        ExecConcat(s, steps, looked);
        steps := steps + looked;
      }
    }

    method LookAt(h: nat, seen: Observation) returns (ghost steps: seq<Step>)
      requires h in children
      modifies this`children
      ensures Now() == Exec(old(Now()), steps)
      ensures children == old(children)[h := Observed(old(children)[h], seen)]
    {
      steps := LookSteps(Now(), h, seen);
      var child := children[h];
      if child.status.Some? {
        assert children == children[h := child];
        return;
      }
      if child.outOpen && seen.outEnded {
        child := child.(outOpen := false);
      }
      if child.errOpen && seen.errEnded {
        child := child.(errOpen := false);
      }
      if seen.status.Some? {
        child := child.(status := seen.status);
      }
      children := children[h := child];
    }

    method EnforceDeadlines(now: int) returns (ghost steps: seq<Step>)
      modifies this`children
      ensures Now() == Exec(old(Now()), steps)
      ensures children == map h | h in old(children) :: Enforced(old(children)[h], now, grace)
    {
      var todo := children.Keys;
      ghost var s := Now();
      steps := [];
      while todo != {}
        invariant todo <= children.Keys == s.children.Keys
        invariant forall h :: h in children ==>
          children[h] == if h in todo then s.children[h] else Enforced(s.children[h], now, grace)
        invariant Now() == Exec(s, steps)
      {
        var h :| h in todo;
        todo := todo - {h};
        EnforceOne(h, now);
        ExecSnoc(s, steps, Enforce(h, now, grace));
        steps := steps + [Enforce(h, now, grace)];
      }
    }

    method EnforceOne(h: nat, now: int)
      requires h in children
      modifies this`children
      ensures children == old(children)[h := Enforced(old(children)[h], now, grace)]
    {
      var child := children[h];
      assert children == children[h := child];
      if child.status.Some? {
        return;
      }
      if child.stage == 0 && child.deadline.Some? && now >= child.deadline.value {
        children := children[h := child.(stage := 1, termSentAt := now, forced := Some(TimedOut))];
      } else if child.stage == 1 && now - child.termSentAt >= grace {
        children := children[h := child.(stage := 2)];
      }
    }

    /** Reports and forgets every child that is reaped and whose streams are closed. */
    method FinalizeChildren() returns (ghost steps: seq<Step>)
      modifies this`children, this`exits, this`active
      ensures Now() == Exec(old(Now()), steps)
      ensures children == map h | h in old(children) && !Done(old(children)[h]) :: old(children)[h]
      ensures |steps| == |old(children)| - |children|
    {
      var done := set h | h in children && Done(children[h]);
      ghost var s := Now();
      steps := [];
      while done != {}
        invariant Now() == Exec(s, steps) && |steps| == |s.children| - |children|
        invariant forall h :: h in children <==> h in s.children && (!Done(s.children[h]) || h in done)
        invariant forall h :: h in children ==> children[h] == s.children[h]
        invariant forall h :: h in done ==> h in children && Done(children[h])
      {
        var h :| h in done;
        ExecSnoc(s, steps, Finalize(h));
        FinalizeOne(h);
        done := done - {h};
        steps := steps + [Finalize(h)];
      }
    }

    method FinalizeOne(h: nat)
      requires h in children && Done(children[h])
      modifies this`children, this`exits, this`active
      ensures Now() == Apply(old(Now()), Finalize(h)) && children == old(children) - {h} && |children| == |old(children)| - 1
    {
      RemoveChild(children, h);
      exits := exits + [Exit(h, Reported(children[h]))];
      children := children - {h};
      active := active - 1;
    }

    /** Polling found that a stream has ended. */
    method StreamEnded(h: nat, isStdout: bool)
      modifies this`children
      ensures Now() == Apply(old(Now()), CloseStream(h, isStdout))
    {
      if h !in children {
        return;
      }
      children := children[h := if isStdout then children[h].(outOpen := false) else children[h].(errOpen := false)];
    }

    /** The reactor's loop up to its wait for events, with both of its exits: the loop ends exactly when the runner is
        stopping and has no child left; every finished child has been reported. */
    method Turn(starts: nat -> bool, clock: nat -> int, look: nat -> Observation, now: int)
      returns (ended: bool, ghost steps: seq<Step>)
      requires batch == []
      modifies this
      ensures Now() == Exec(old(Now()), steps) && batch == []
      ensures ended <==> LoopEnds(Now())
      ensures forall h :: h in children ==> !Done(children[h])
    {
      ghost var s := Now();
      steps := DrainCommands(starts, clock);
      if stopping && children == map[] { return true, steps; }
      ghost var more := ServeChildren(look, now);
      ExecConcat(s, steps, more);
      steps := steps + more;
      ended := stopping && children == map[];
    }

    /** Reap, enforce, finalize. */
    method ServeChildren(look: nat -> Observation, now: int) returns (ghost steps: seq<Step>)
      modifies this`children, this`exits, this`active
      ensures Now() == Exec(old(Now()), steps)
      ensures forall h :: h in children ==> !Done(children[h])
    {
      ghost var s := Now();
      ghost var b := ReapChildren(look);
      ghost var c := EnforceDeadlines(now);
      ExecConcat(s, b, c);
      ghost var d := FinalizeChildren();
      ExecConcat(s, b + c, d);
      steps := b + c + d;
    }

    /** What polling found: streams that have ended, each looked up by the handle of its child. */
    method PollOnce(ended: seq<(nat, bool)>) returns (ghost steps: seq<Step>)
      modifies this`children
      ensures Now() == Exec(old(Now()), steps) && |steps| == |ended|
      ensures forall i :: 0 <= i < |ended| ==> steps[i] == CloseStream(ended[i].0, ended[i].1)
      ensures children.Keys == old(children.Keys)
    {
      steps := [];
      ghost var s := Now();
      for i := 0 to |ended|
        invariant Now() == Exec(s, steps) && |steps| == i && children.Keys == old(children.Keys)
        invariant forall j :: 0 <= j < i ==> steps[j] == CloseStream(ended[j].0, ended[j].1)
      {
        StreamEnded(ended[i].0, ended[i].1);
        ExecSnoc(s, steps, CloseStream(ended[i].0, ended[i].1));
        steps := steps + [CloseStream(ended[i].0, ended[i].1)];
      }
    }

    /** One whole pass of the reactor's loop; it waits for events only if the loop goes on. */
    method LoopOnce(starts: nat -> bool, clock: nat -> int, look: nat -> Observation, now: int, closed: seq<(nat, bool)>)
      returns (ended: bool, ghost steps: seq<Step>)
      requires batch == []
      modifies this
      ensures Now() == Exec(old(Now()), steps) && batch == []
      ensures ended <==> LoopEnds(Now())
    {
      ghost var s := Now();
      ended, steps := Turn(starts, clock, look, now);
      if !ended {
        ghost var polled := PollOnce(closed);
        ExecConcat(s, steps, polled);
        steps := steps + polled;
      }
    }
  }
}
