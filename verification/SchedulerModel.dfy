/** The scheduler as a state machine: what one run remembers, which steps it may take, and what
    each step does to every task. The imperative scheduler is proved to take exactly these steps. */
module SchedulerModel {
  import opened Domain
  import opened Digraph
  import opened Kahn
  import opened DagBuilder
  import opened ReadyQueues
  import opened ResourcePools

  datatype Config = Config(dag: Dag, tasks: seq<Task>, maxConcurrency: int, capacity: Resources)

  ghost predicate ValidConfig(c: Config) {
    ValidDag(c.dag) && |c.tasks| == |c.dag.nodes| && c.maxConcurrency >= 1
  }

  /** Every requirement is non-negative, as the pipeline validator demands. */
  ghost predicate NonNegativeTasks(c: Config) {
    forall v: nat :: v < |c.tasks| ==> NonNegative(c.tasks[v].resources)
  }

  /** Every task passed the validator's resource checks. */
  ghost predicate ResourceChecked(c: Config) {
    forall v: nat :: v < |c.tasks| ==>
      && c.tasks[v].resources.cpu >= 1 && NonNegative(c.tasks[v].resources)
      && FitsWithin(c.tasks[v].resources, c.capacity)
  }

  datatype Node = Node(state: TaskState, remaining: nat, attempts: nat, waiting: bool, notBefore: int,
                       reserved: Resources, hasReservation: bool)

  datatype Attempt = Attempt(number: int, finalState: TaskState, kind: ResultKind)

  /** The externally visible history of one task. */
  datatype TaskRun = TaskRun(state: TaskState, attempts: seq<Attempt>)

  datatype State = State(nodes: seq<Node>, runs: seq<TaskRun>, queue: seq<ReadyEntry>,
                         running: nat, used: Resources, cancelling: bool)

  // ---- steps ----

  datatype Step =
    | Launch(i: nat)                                   // start_process for queue entry i
    | CacheHit(i: nat, unlocked: seq<ReadyEntry>)      // try_start resolved by the cache
    | FailInline(i: nat, kind: ResultKind)             // missing input, or drained as unschedulable
    | Finish(v: nat, kind: ResultKind, notBefore: int, unlocked: seq<ReadyEntry>)
    | Promote(v: nat, stamp: int)                      // a retry timer has fired
    | BeginCancel

  function Request(c: Config, v: nat): Resources
    requires v < |c.tasks|
  {
    c.tasks[v].resources
  }

  function EntryFor(c: Config, v: nat, stamp: int): ReadyEntry
    requires v < |c.dag.nodes| && v < |c.tasks|
  {
    ReadyEntry(v, c.dag.nodes[v], c.tasks[v].priority, stamp)
  }

  /** es holds one entry per listed node, in order, each stamped at some time. */
  ghost predicate EntriesFor(c: Config, es: seq<ReadyEntry>, nodes: seq<nat>) {
    && |es| == |nodes|
    && forall k :: 0 <= k < |es| ==>
         nodes[k] < |c.dag.nodes| && nodes[k] < |c.tasks| && es[k] == EntryFor(c, nodes[k], es[k].readySince)
  }

  /** A dependent that the success of one more predecessor makes ready. */
  predicate Unlocks(node: Node, cancelling: bool) {
    node.remaining <= 1 && node.state.Pending? && !cancelling
  }

  /** One dependent after one more of its predecessors succeeded. */
  function Decremented(node: Node, cancelling: bool): Node {
    node.(remaining := if node.remaining > 0 then node.remaining - 1 else 0,
          state := if Unlocks(node, cancelling) then Ready else node.state)
  }

  predicate AllBelow(s: seq<nat>, n: nat) {
    forall w :: w in s ==> w < n
  }

  function UnlockedNodes(nodes: seq<Node>, cancelling: bool, out: seq<nat>): (r: seq<nat>)
    requires AllBelow(out, |nodes|)
    ensures forall w :: w in r <==> w in out && Unlocks(nodes[w], cancelling)
    ensures Distinct(out) ==> Distinct(r)
    decreases |out|
  {
    if out == [] then []
    else
      var front, w := out[..|out| - 1], out[|out| - 1];
      assert out == front + [w] && w in out && forall x :: x in front ==> x in out;
      UnlockedNodes(nodes, cancelling, front) + if Unlocks(nodes[w], cancelling) then [w] else []
  }

  function Propagated(nodes: seq<Node>, cancelling: bool, out: seq<nat>): seq<Node> {
    seq(|nodes|, w requires 0 <= w < |nodes| =>
          if w in out then Decremented(nodes[w], cancelling) else nodes[w])
  }

  /** Failing v: v is FAILED and everything strictly downstream of it SKIPPED. */
  ghost function Failing(succ: Adjacency, nodes: seq<Node>, v: nat): seq<Node>
    requires v < |nodes|
  {
    seq(|nodes|, w requires 0 <= w < |nodes| =>
          if Reaches(succ, v, w) then nodes[w].(state := Skipped, waiting := false)
          else if w == v then nodes[v].(state := Failed) else nodes[w])
  }

  function Recorded(nodes: seq<Node>, runs: seq<TaskRun>, v: nat, finalState: TaskState, kind: ResultKind): seq<TaskRun>
    requires v < |nodes| && v < |runs|
  {
    var number := if nodes[v].attempts < 1 then 1 else nodes[v].attempts;
    runs[v := runs[v].(attempts := runs[v].attempts + [Attempt(number, finalState, kind)])]
  }

  /** The history keeps showing each task's current state. */
  function Synced(runs: seq<TaskRun>, nodes: seq<Node>): seq<TaskRun>
    requires |runs| == |nodes|
  {
    seq(|runs|, w requires 0 <= w < |runs| => runs[w].(state := nodes[w].state))
  }

  ghost predicate Shape(c: Config, s: State) {
    && ValidConfig(c)
    && |s.nodes| == |s.runs| == |c.tasks|
    && forall e :: e in s.queue ==> e.node < |c.tasks|
  }

  predicate Waits(nodes: seq<Node>) {
    exists v: nat :: v < |nodes| && nodes[v].waiting
  }

  /** Queue entry j does not fit next to what is running. */
  ghost predicate BlockedAt(c: Config, s: State, j: nat) {
    && j < |s.queue| && s.queue[j].node < |c.tasks|
    && !Fits(s.used, Request(c, s.queue[j].node), c.capacity)
  }

  ghost predicate BlockedBefore(c: Config, s: State, i: nat) {
    forall j: nat :: j < i ==> BlockedAt(c, s, j)
  }

  /** The launch phase is acting on queue entry i: a slot is free and no earlier entry fits. */
  ghost predicate Considering(c: Config, s: State, i: nat) {
    !s.cancelling && i < |s.queue| && s.running < c.maxConcurrency && BlockedBefore(c, s, i)
  }

  ghost predicate Enabled(c: Config, s: State, step: Step)
    requires Shape(c, s)
  {
    match step
    case Launch(i) =>
      Considering(c, s, i) && Fits(s.used, Request(c, s.queue[i].node), c.capacity)
    case CacheHit(i, unlocked) =>
      && Considering(c, s, i)
      && var v := s.queue[i].node;
         && c.tasks[v].cacheEnabled
         && AllBelow(c.dag.succ[v], |s.nodes|)
         && EntriesFor(c, unlocked, UnlockedNodes(s.nodes, s.cancelling, c.dag.succ[v]))
    case FailInline(i, kind) =>
      || (kind.MissingInput? && Considering(c, s, i))
      || (kind.StartFailure? && !s.cancelling && i == 0 && s.queue != [] && s.running == 0
          && !Waits(s.nodes) && BlockedBefore(c, s, |s.queue|))
    case Finish(v, kind, _, unlocked) =>
      && v < |s.nodes| && s.nodes[v].state.Running?
      && AllBelow(c.dag.succ[v], |s.nodes|)
      && (kind.SucceededResult? ==>
            EntriesFor(c, unlocked, UnlockedNodes(s.nodes, s.cancelling, c.dag.succ[v])))
    case Promote(v, stamp) =>
      !s.cancelling && v < |s.nodes| && s.nodes[v].waiting && s.nodes[v].notBefore <= stamp
    case BeginCancel => !s.cancelling
  }

  predicate Retries(c: Config, s: State, v: nat, kind: ResultKind)
    requires v < |s.nodes| && v < |c.tasks|
  {
    IsRetryable(kind) && ShouldRetry(c.tasks[v].retry, s.nodes[v].attempts)
  }

  function Launched(c: Config, s: State, i: nat): State
    requires i < |s.queue| && s.queue[i].node < |s.nodes| == |s.runs| == |c.tasks|
  {
    var v := s.queue[i].node;
    var node := s.nodes[v].(state := Running, attempts := s.nodes[v].attempts + 1,
                            reserved := Request(c, v), hasReservation := true);
    var nodes := s.nodes[v := node];
    State(nodes, Synced(s.runs, nodes), RemoveId(s.queue, s.queue[i].taskId),
          s.running + 1, Plus(s.used, Request(c, v)), s.cancelling)
  }

  function HitCache(c: Config, s: State, i: nat, unlocked: seq<ReadyEntry>): State
    requires i < |s.queue| && s.queue[i].node < |s.nodes| == |s.runs| == |c.dag.succ|
  {
    var v := s.queue[i].node;
    var nodes := Propagated(s.nodes[v := s.nodes[v].(state := Cached)], s.cancelling, c.dag.succ[v]);
    s.(nodes := nodes,
       runs := Synced(Recorded(s.nodes, s.runs, v, Cached, SucceededResult), nodes),
       queue := RemoveId(InsertAll(s.queue, unlocked), s.queue[i].taskId))
  }

  ghost function FailedInline(c: Config, s: State, i: nat, kind: ResultKind): State
    requires i < |s.queue| && s.queue[i].node < |s.nodes| == |s.runs|
  {
    var v := s.queue[i].node;
    var nodes := Failing(c.dag.succ, s.nodes, v);
    s.(nodes := nodes, runs := Synced(Recorded(s.nodes, s.runs, v, Failed, kind), nodes),
       queue := RemoveId(s.queue, s.queue[i].taskId))
  }

  /** Slot and reservation handed back, attempt recorded; the task's next state is decided after this. */
  function Returned(s: State, v: nat, kind: ResultKind): State
    requires v < |s.nodes| == |s.runs|
  {
    var node := s.nodes[v];
    s.(nodes := s.nodes[v := node.(hasReservation := false)],
       runs := Recorded(s.nodes, s.runs, v, if kind.SucceededResult? then Succeeded else Failed, kind),
       running := if s.running > 0 then s.running - 1 else 0,
       used := if node.hasReservation then Released(s.used, node.reserved) else s.used)
  }

  ghost function Finished(c: Config, s: State, v: nat, kind: ResultKind, notBefore: int,
                          unlocked: seq<ReadyEntry>): State
    requires v < |s.nodes| == |s.runs| == |c.tasks| == |c.dag.succ|
  {
    var r := Returned(s, v, kind);
    if kind.SucceededResult? then
      var nodes := Propagated(r.nodes[v := r.nodes[v].(state := Succeeded)], s.cancelling, c.dag.succ[v]);
      r.(nodes := nodes, runs := Synced(r.runs, nodes), queue := InsertAll(s.queue, unlocked))
    else if s.cancelling || kind.CancelledResult? then
      var nodes := r.nodes[v := r.nodes[v].(state := Cancelled)];
      r.(nodes := nodes, runs := Synced(r.runs, nodes))
    else if Retries(c, s, v, kind) then
      var nodes := r.nodes[v := r.nodes[v].(state := Ready, waiting := true, notBefore := notBefore)];
      r.(nodes := nodes, runs := Synced(r.runs, nodes))
    else
      var nodes := Failing(c.dag.succ, r.nodes, v);
      r.(nodes := nodes, runs := Synced(r.runs, nodes))
  }

  function Promoted(c: Config, s: State, v: nat, stamp: int): State
    requires v < |s.nodes| == |c.tasks| == |c.dag.nodes|
  {
    s.(nodes := s.nodes[v := s.nodes[v].(waiting := false)], queue := Insert(s.queue, EntryFor(c, v, stamp)))
  }

  function CancelNode(node: Node): Node {
    if node.waiting || node.state.Pending? || node.state.Ready?
    then node.(state := Cancelled, waiting := false) else node
  }

  function CancelBegun(s: State): State
    requires |s.nodes| == |s.runs|
  {
    var nodes := seq(|s.nodes|, w requires 0 <= w < |s.nodes| => CancelNode(s.nodes[w]));
    s.(nodes := nodes, runs := Synced(s.runs, nodes), queue := [], cancelling := true)
  }

  ghost function Apply(c: Config, s: State, step: Step): (t: State)
    requires Shape(c, s) && Enabled(c, s, step)
    ensures |t.nodes| == |t.runs| == |s.nodes|
    ensures t.cancelling <==> s.cancelling || step.BeginCancel?
  {
    match step
    case Launch(i) => Launched(c, s, i)
    case CacheHit(i, unlocked) => HitCache(c, s, i, unlocked)
    case FailInline(i, kind) => FailedInline(c, s, i, kind)
    case Finish(v, kind, notBefore, unlocked) => Finished(c, s, v, kind, notBefore, unlocked)
    case Promote(v, stamp) => Promoted(c, s, v, stamp)
    case BeginCancel => CancelBegun(s)
  }

  // ---- whole runs ----

  function FreshNode(c: Config, v: nat): Node
    requires v < |c.dag.pred|
  {
    Node(if c.dag.pred[v] == [] then Ready else Pending, |c.dag.pred[v]|, 0, false, 0, NO_RESOURCES, false)
  }

  /** The state after the roots have been seeded; es are their queue entries. */
  function Seeded(c: Config, es: seq<ReadyEntry>): State {
    var nodes := seq(|c.dag.pred|, v requires 0 <= v < |c.dag.pred| => FreshNode(c, v));
    State(nodes, seq(|nodes|, v requires 0 <= v < |nodes| => TaskRun(nodes[v].state, [])),
          InsertAll([], es), 0, NO_RESOURCES, false)
  }

  ghost predicate SeededWith(c: Config, es: seq<ReadyEntry>, s: State) {
    ValidConfig(c) && EntriesFor(c, es, c.dag.roots) && s == Seeded(c, es)
  }

  ghost predicate IsSeeded(c: Config, s: State) {
    exists es :: SeededWith(c, es, s)
  }

  /** Running a list of steps from s; None if one of them is not possible. */
  ghost function Exec(c: Config, s: State, steps: seq<Step>): Option<State>
    decreases |steps|
  {
    if steps == [] then Some(s)
    else
      match Exec(c, s, steps[..|steps| - 1])
      case None => None
      case Some(t) =>
        var step := steps[|steps| - 1];
        if Shape(c, t) && Enabled(c, t, step) then Some(Apply(c, t, step)) else None
  }

  /** all_settled: nothing running, nothing ready, nobody behind a retry timer. */
  predicate Settled(s: State) {
    s.running == 0 && s.queue == [] && !Waits(s.nodes)
  }
}
