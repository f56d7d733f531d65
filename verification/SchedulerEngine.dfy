/** The scheduler itself: a class whose methods update the per-task table, the ready queue and the
    resource pool in place, proved to take exactly the steps of the state machine. */
module SchedulerEngine {
  import opened Sequences
  import opened Domain
  import opened Digraph
  import opened Kahn
  import opened DagBuilder
  import opened ReadyQueues
  import opened ResourcePools
  import opened SchedulerModel
  import opened SchedulerInvariant
  import opened SchedulerSteps
  import opened SchedulerTheorems
  import opened SchedulerProgress
  import opened SchedulerHistory
  import opened SchedulerRefinement
  import opened CachedRuns
  import opened CacheStores
  import opened TaskFiles

  class Scheduler {
    const config: Config
    const world: World
    const verifyOutputs: bool
    const declarations: Declarations
    const cache: CacheStore
    const ready: ReadyQueue
    const pool: ResourcePool
    var nodes: seq<Node>
    var runs: seq<TaskRun>
    var running: nat
    var cancelling: bool
    var tick: nat
    var looks: nat
    ghost var first: State
    ghost var log: seq<Step>
    ghost var kept: map<nat, Kept>

    ghost function View(): State
      reads this`nodes, this`runs, this`running, this`cancelling, ready, pool
    {
      State(nodes, runs, ready.entries, running, pool.used, cancelling)
    }

    /** Constructed, not run: every task PENDING with its counter at its in-degree. */
    ghost predicate Unstarted()
      reads this`nodes, this`runs, this`running, this`cancelling, this`first, this`log, this`kept, ready, pool
    {
      && ValidConfig(config) && pool.capacity == config.capacity
      && nodes == seq(|config.tasks|, v requires 0 <= v < |config.tasks| => InitialNode(config.dag, v))
      && runs == seq(|config.tasks|, _ => TaskRun(Pending, []))
      && View() == State(nodes, runs, [], 0, NO_RESOURCES, false) && log == [] && kept == map[]
    }

    constructor (dag: Dag, tasks: seq<Task>, maxConcurrency: int, capacity: Resources, verifyOutputs: bool,
                 declarations: Declarations, cache: CacheStore, world: World)
      requires ValidDag(dag) && |tasks| == |dag.nodes|
      ensures Unstarted() && looks == 0 && fresh(ready) && fresh(pool)
      ensures config == Config(dag, tasks, if maxConcurrency < 1 then 1 else maxConcurrency, capacity)
      ensures this.world == world && this.verifyOutputs == verifyOutputs
      ensures this.declarations == declarations && this.cache == cache
    {
      config := Config(dag, tasks, if maxConcurrency < 1 then 1 else maxConcurrency, capacity);
      this.world, this.verifyOutputs, this.declarations, this.cache := world, verifyOutputs, declarations, cache;
      ready := new ReadyQueue();
      pool := new ResourcePool(capacity);
      nodes := seq(|tasks|, v requires 0 <= v < |tasks| => InitialNode(dag, v));
      runs := seq(|tasks|, _ => TaskRun(Pending, []));
      running, cancelling, tick, looks := 0, false, 0, 0;
      log, kept := [], map[];
    }

    // ---- single fields ----

    method MarkState(v: nat, next: TaskState)
      requires v < |nodes| && InSync(nodes, runs)
      modifies this`nodes, this`runs
      ensures nodes == old(nodes)[v := old(nodes)[v].(state := next)]
      ensures InSync(nodes, runs) && SameAttempts(old(runs), runs)
    {
      if nodes[v].state != next {
        nodes := nodes[v := nodes[v].(state := next)];
        runs := runs[v := runs[v].(state := next)];
      }
    }

    method RecordAttempt(v: nat, finalState: TaskState, kind: ResultKind)
      requires v < |nodes| == |runs|
      modifies this`runs
      ensures runs == Recorded(nodes, old(runs), v, finalState, kind)
    {
      var number := if nodes[v].attempts < 1 then 1 else nodes[v].attempts;
      runs := runs[v := runs[v].(attempts := runs[v].attempts + [Attempt(number, finalState, kind)])];
    }

    method ReleaseReservation(v: nat)
      requires v < |nodes|
      modifies this`nodes, pool
      ensures nodes == old(nodes)[v := old(nodes)[v].(hasReservation := false)]
      ensures pool.used == if old(nodes)[v].hasReservation then Released(old(pool.used), old(nodes)[v].reserved)
                           else old(pool.used)
    {
      if nodes[v].hasReservation {
        pool.Release(nodes[v].reserved);
        nodes := nodes[v := nodes[v].(hasReservation := false)];
      }
    }

    // ---- skip_downstream ----

    /** One dependent w of `cur`: skipped and stacked unless it is finished already. */
    method SkipOne(w: nat, cur: nat, stack0: seq<nat>, ghost s: State, ghost v: nat, ghost before: seq<Node>)
      returns (stack: seq<nat>)
      requires FailedFrom(config, s, v, before) && InSync(nodes, runs)
      requires PartlySkipped(config.dag.succ, before, v, nodes)
      requires Covered(config.dag.succ, v, nodes, stack0 + [cur]) && Edge(config.dag.succ, cur, w)
      requires forall e :: e in ready.entries ==> e in s.queue
      modifies this`nodes, this`runs, ready
      ensures InSync(nodes, runs) && SameAttempts(old(runs), runs) && ready.entries == old(ready.entries)
      ensures PartlySkipped(config.dag.succ, before, v, nodes)
      ensures Covered(config.dag.succ, v, nodes, stack + [cur])
      ensures w < |nodes| && nodes[w].state.Skipped?
      ensures forall x: nat :: x < |nodes| && old(nodes)[x].state.Skipped? ==> nodes[x].state.Skipped?
      ensures PendingNodes(nodes) < PendingNodes(old(nodes)) || (nodes == old(nodes) && stack == stack0)
    {
      stack := stack0;
      assert cur in stack + [cur];
      assert Reached(config.dag.succ, v, nodes, cur);
      MeetsPendingOrSkipped(config, s, v, before, nodes, ready.entries, cur, w);
      if !IsTerminal(nodes[w].state) && !nodes[w].state.Running? {
        RemoveAbsentId(ready.entries, config.dag.nodes[w]);
        var removed := ready.Remove(config.dag.nodes[w]);
        MarkCovers(config.dag.succ, v, nodes, stack, w, nodes[w].(state := Skipped, waiting := false), cur);
        MarkKeepsPartly(config.dag.succ, before, v, nodes, w);
        ghost var marked := nodes[w := nodes[w].(state := Skipped, waiting := false)];
        nodes := nodes[w := nodes[w].(waiting := false)];
        MarkState(w, Skipped);
        assert nodes == marked;
        stack := stack + [w];
      }
    }

    /** One stack entry: marks the dependents of `cur` that are not finished yet and stacks them. */
    method SkipDependents(cur: nat, stack0: seq<nat>, ghost s: State, ghost v: nat, ghost before: seq<Node>)
      returns (stack: seq<nat>)
      requires FailedFrom(config, s, v, before) && InSync(nodes, runs)
      requires PartlySkipped(config.dag.succ, before, v, nodes)
      requires Covered(config.dag.succ, v, nodes, stack0 + [cur])
      requires forall e :: e in ready.entries ==> e in s.queue
      modifies this`nodes, this`runs, ready
      ensures InSync(nodes, runs) && SameAttempts(old(runs), runs) && ready.entries == old(ready.entries)
      ensures PartlySkipped(config.dag.succ, before, v, nodes)
      ensures Covered(config.dag.succ, v, nodes, stack)
      ensures PendingNodes(nodes) < PendingNodes(old(nodes)) || (nodes == old(nodes) && stack == stack0)
    {
      stack := stack0;
      assert cur in stack0 + [cur];
      assert Reached(config.dag.succ, v, nodes, cur);
      var out := config.dag.succ[cur];
      for k := 0 to |out|
        invariant InSync(nodes, runs) && SameAttempts(old(runs), runs) && ready.entries == old(ready.entries)
        invariant PartlySkipped(config.dag.succ, before, v, nodes)
        invariant Covered(config.dag.succ, v, nodes, stack + [cur])
        invariant SkippedUpTo(nodes, out, k)
        invariant PendingNodes(nodes) < PendingNodes(old(nodes)) || (nodes == old(nodes) && stack == stack0)
      {
        ghost var nodesK := nodes;
        stack := SkipOne(out[k], cur, stack, s, v, before);
        SkippedSnoc(nodesK, nodes, out, k);
      }
      forall w: nat | Edge(config.dag.succ, cur, w) ensures w < |nodes| && nodes[w].state.Skipped? {
        var j :| 0 <= j < |out| && out[j] == w;
      }
      CurrentCovered(config.dag.succ, v, nodes, stack, cur);
    }

    /** Marks everything strictly downstream of v SKIPPED; touches nothing else, not even the queue. */
    method SkipDownstream(v: nat, ghost s: State)
      requires FailedFrom(config, s, v, nodes) && InSync(nodes, runs)
      requires forall e :: e in ready.entries ==> e in s.queue
      modifies this`nodes, this`runs, ready
      ensures nodes == SkippedBelow(config.dag.succ, old(nodes), v)
      ensures InSync(nodes, runs) && SameAttempts(old(runs), runs) && ready.entries == old(ready.entries)
    {
      ghost var before := nodes;
      var stack := [v];
      CoveredAtStart(config, s, v, nodes);
      while stack != []
        invariant InSync(nodes, runs) && SameAttempts(old(runs), runs) && ready.entries == old(ready.entries)
        invariant PartlySkipped(config.dag.succ, before, v, nodes)
        invariant Covered(config.dag.succ, v, nodes, stack)
        decreases PendingNodes(nodes), |stack|
      {
        var cur := stack[|stack| - 1];
        var rest := stack[..|stack| - 1];
        assert stack == rest + [cur];
        stack := SkipDependents(cur, rest, s, v, before);
      }
      CoveredAtEnd(config, s, v, before, nodes);
    }

    // ---- on_task_succeeded ----

    /** Lowers one dependent's counter and queues it when it reaches zero. */
    method NotifyDependent(w: nat) returns (ghost added: seq<ReadyEntry>)
      requires ValidConfig(config) && w < |nodes| == |config.tasks| && InSync(nodes, runs)
      modifies this`nodes, this`runs, this`tick, ready
      ensures nodes == old(nodes)[w := Decremented(old(nodes)[w], cancelling)]
      ensures InSync(nodes, runs) && SameAttempts(old(runs), runs)
      ensures EntriesFor(config, added, if Unlocks(old(nodes)[w], cancelling) then [w] else []) && |added| <= 1
      ensures ready.entries == InsertAll(old(ready.entries), added)
    {
      added := [];
      if nodes[w].remaining > 0 {
        nodes := nodes[w := nodes[w].(remaining := nodes[w].remaining - 1)];
      }
      if nodes[w].remaining == 0 && nodes[w].state.Pending? && !cancelling {
        MarkState(w, Ready);
        var e := EntryFor(config, w, world.clock(tick));
        tick := tick + 1;
        ready.Push(e);
        added := [e];
        assert [e][..0] == [];
      }
    }

    /** Lowers every dependent's counter and queues those that reach zero. */
    method NotifyDependents(v: nat) returns (ghost unlocked: seq<ReadyEntry>)
      requires ValidConfig(config) && |nodes| == |config.tasks| && InSync(nodes, runs)
      requires v < |nodes| && AllBelow(config.dag.succ[v], |nodes|)
      modifies this`nodes, this`runs, this`tick, ready
      ensures nodes == Propagated(old(nodes), cancelling, config.dag.succ[v])
      ensures InSync(nodes, runs) && SameAttempts(old(runs), runs)
      ensures EntriesFor(config, unlocked, UnlockedNodes(old(nodes), cancelling, config.dag.succ[v]))
      ensures ready.entries == InsertAll(old(ready.entries), unlocked)
    {
      var out := config.dag.succ[v];
      ghost var nodes0, queue0 := nodes, ready.entries;
      unlocked := [];
      NotifiedNone(config, nodes, ready.entries, cancelling, out);
      for k := 0 to |out|
        invariant InSync(nodes, runs) && SameAttempts(old(runs), runs)
        invariant Notified(config, nodes0, queue0, cancelling, out, k, nodes, ready.entries, unlocked)
      {
        unlocked := NotifyNext(out, k, nodes0, queue0, unlocked);
      }
      NotifiedAll(config, nodes0, queue0, cancelling, out, nodes, ready.entries, unlocked);
    }

    method NotifyNext(out: seq<nat>, k: nat, ghost nodes0: seq<Node>, ghost queue0: seq<ReadyEntry>,
                      ghost before: seq<ReadyEntry>) returns (ghost unlocked: seq<ReadyEntry>)
      requires ValidConfig(config) && |nodes| == |config.tasks| && InSync(nodes, runs)
      requires k < |out| && AllBelow(out, |nodes|) && Distinct(out) && |nodes0| == |nodes|
      requires Notified(config, nodes0, queue0, cancelling, out, k, nodes, ready.entries, before)
      modifies this`nodes, this`runs, this`tick, ready
      ensures InSync(nodes, runs) && SameAttempts(old(runs), runs)
      ensures Notified(config, nodes0, queue0, cancelling, out, k + 1, nodes, ready.entries, unlocked)
    {
      assert out[k] in out;
      ghost var nodesK, queueK := nodes, ready.entries;
      ghost var added := NotifyDependent(out[k]);
      NotifiedSnoc(config, nodes0, queue0, cancelling, out, k, nodesK, queueK, before, added);
      unlocked := before + added;
    }

    /** Writes v's success into the cache: its outputs as they are now, under the key of its inputs as they are now. */
    method StoreOutcome(v: nat)
      requires v < |config.tasks| == |config.dag.nodes|
      modifies cache, this`kept, this`looks, this`tick
      ensures StoreDone(world, declarations, Caches(config, cache.enabled, v), v, config.dag.nodes[v],
                        old(cache.entries), old(kept), old(looks), cache.entries, kept, looks)
    {
      if !cache.enabled || !config.tasks[v].cacheEnabled { return; }
      var outputs := Snapshot(declarations, world.files(looks), v);
      var key := declarations.keyOf(world.files(looks + 1), v);
      var now := world.clock(tick);
      cache.Store(key, config.dag.nodes[v], CachedOutcome(0, outputs), now);
      assert cache.entries == WrittenOver(old(cache.entries), key, config.dag.nodes[v], outputs, now);
      kept := kept[v := Kept(looks + 1, key, outputs)];
      looks, tick := looks + 2, tick + 1;
    }

    /** A success that did not come from the cache is stored there; then the dependents are notified. */
    method OnTaskSucceeded(v: nat, fromCache: bool) returns (ghost unlocked: seq<ReadyEntry>)
      requires ValidConfig(config) && |nodes| == |config.tasks| && InSync(nodes, runs)
      requires v < |nodes| && AllBelow(config.dag.succ[v], |nodes|)
      modifies this`nodes, this`runs, this`tick, this`looks, this`kept, ready, cache
      ensures nodes == Propagated(old(nodes), cancelling, config.dag.succ[v])
      ensures InSync(nodes, runs) && SameAttempts(old(runs), runs)
      ensures EntriesFor(config, unlocked, UnlockedNodes(old(nodes), cancelling, config.dag.succ[v]))
      ensures ready.entries == InsertAll(old(ready.entries), unlocked)
      ensures fromCache ==> unchanged(cache, this`kept, this`looks)
      ensures !fromCache ==> StoreDone(world, declarations, Caches(config, cache.enabled, v), v, config.dag.nodes[v],
                                       old(cache.entries), old(kept), old(looks), cache.entries, kept, looks)
    {
      if !fromCache { StoreOutcome(v); }
      unlocked := NotifyDependents(v);
    }

    // ---- try_start ----

    /** Fails v, which has just been taken up from the queue, without launching it. */
    method ResolveFailed(v: nat, kind: ResultKind, ghost s: State, ghost i: nat)
      requires Inv(config, s) && !s.cancelling && i < |s.queue| && s.queue[i].node == v < |nodes|
      requires nodes == s.nodes && runs == s.runs && forall e :: e in ready.entries ==> e in s.queue
      modifies this`nodes, this`runs, ready
      ensures nodes == FailedInline(config, s, i, kind).nodes && runs == FailedInline(config, s, i, kind).runs
      ensures ready.entries == old(ready.entries)
    {
      EntryIsItsNode(config, s, i);
      InvInSync(config, s);
      RecordAttempt(v, Failed, kind);
      ghost var recorded := runs;
      MarkState(v, Failed);
      FailingIsSkippedBelow(config, s.nodes, v);
      SkipDownstream(v, s);
      SyncedIs(recorded, nodes, runs);
    }

    /** Takes v's result from the cache and releases its dependents. */
    method ResolveCached(v: nat) returns (ghost unlocked: seq<ReadyEntry>)
      requires ValidConfig(config) && |nodes| == |config.tasks| && InSync(nodes, runs)
      requires v < |nodes| && AllBelow(config.dag.succ[v], |nodes|)
      modifies this`nodes, this`runs, this`tick, this`looks, this`kept, ready, cache
      ensures var marked := old(nodes)[v := old(nodes)[v].(state := Cached)];
              && nodes == Propagated(marked, cancelling, config.dag.succ[v])
              && EntriesFor(config, unlocked, UnlockedNodes(marked, cancelling, config.dag.succ[v]))
      ensures |old(runs)| == |old(nodes)| == |nodes| == |runs|
      ensures runs == Synced(Recorded(old(nodes), old(runs), v, Cached, SucceededResult), nodes)
      ensures ready.entries == InsertAll(old(ready.entries), unlocked)
      ensures unchanged(cache, this`kept, this`looks)
    {
      RecordAttempt(v, Cached, SucceededResult);
      ghost var recorded := runs;
      MarkState(v, Cached);
      unlocked := OnTaskSucceeded(v, true);
      SyncedIs(recorded, nodes, runs);
    }

    method StartProcess(v: nat)
      requires v < |nodes| && InSync(nodes, runs)
      modifies this`nodes, this`runs, this`running, this`tick
      ensures nodes == old(nodes)[v := old(nodes)[v].(attempts := old(nodes)[v].attempts + 1, state := Running)]
      ensures InSync(nodes, runs) && SameAttempts(old(runs), runs) && running == old(running) + 1
    {
      nodes := nodes[v := nodes[v].(attempts := nodes[v].attempts + 1)];
      tick := tick + 1;
      MarkState(v, Running);
      running := running + 1;
    }

    /** The state as it will be once the entry just acted on has been dropped from the queue. */
    ghost function ViewWithout(id: string): State
      reads this`nodes, this`runs, this`running, this`cancelling, ready, pool
    {
      State(nodes, runs, RemoveId(ready.entries, id), running, pool.used, cancelling)
    }

    method LaunchNow(v: nat, ghost s: State, ghost i: nat)
      requires Inv(config, s) && i < |s.queue| && s.queue[i].node == v < |nodes|
      requires nodes == s.nodes && runs == s.runs && running == s.running
      modifies this`nodes, this`runs, this`running, this`tick
      ensures nodes == Launched(config, s, i).nodes && runs == Launched(config, s, i).runs
      ensures running == Launched(config, s, i).running
    {
      InvInSync(config, s);
      nodes := nodes[v := nodes[v].(reserved := config.tasks[v].resources, hasReservation := true)];
      StartProcess(v);
      SyncedIs(s.runs, nodes, runs);
    }

    method StartMissing(i: nat, ghost s: State) returns (ghost step: Step)
      requires Trying(i, s)
      modifies this`nodes, this`runs, ready
      ensures Taken(s, i, step) && step == FailInline(i, MissingInput)
    {
      RunInv(config, first, log, s);
      EntryIsItsNode(config, s, i);
      step := FailInline(i, MissingInput);
      ExecSnoc(config, first, log, s, step);
      ResolveFailed(ready.entries[i].node, MissingInput, s, i);
    }

    method StartCached(i: nat, ghost s: State) returns (ghost step: Step)
      requires Trying(i, s) && s.queue[i].node < |config.tasks| && config.tasks[s.queue[i].node].cacheEnabled
      modifies this`nodes, this`runs, this`tick, this`looks, this`kept, ready, cache
      ensures Taken(s, i, step) && step.CacheHit? && step.i == i
      ensures unchanged(cache, this`kept, this`looks)
    {
      StartFacts(config, first, log, s, i);
      var v := ready.entries[i].node;
      ghost var unlocked := ResolveCached(v);
      step := CacheHit(i, unlocked);
      HitLogged(config, first, log, s, i, v, unlocked, ViewWithout(s.queue[i].taskId));
    }

    method StartLaunch(i: nat, ghost s: State) returns (fits: bool, ghost step: Step)
      requires Trying(i, s) && pool.capacity == config.capacity
      modifies this`nodes, this`runs, this`running, this`tick, pool
      ensures fits ==> Taken(s, i, step) && step == Launch(i)
      ensures !fits ==> View() == s && BlockedAt(config, s, i)
    {
      RunInv(config, first, log, s);
      EntryIsItsNode(config, s, i);
      step := Launch(i);
      fits := pool.TryReserve(config.tasks[ready.entries[i].node].resources);
      if fits {
        ExecSnoc(config, first, log, s, step);
        LaunchNow(ready.entries[i].node, s, i);
      }
    }

    /** The launch phase looks at queue entry i of s, where the logged steps have led. */
    ghost predicate Trying(i: nat, s: State)
      reads this`nodes, this`runs, this`running, this`cancelling, this`first, this`log, ready, pool
    {
      s == View() && Considering(config, s, i) && IsSeeded(config, first) && Exec(config, first, log) == Some(s)
    }

    /** Entry i of s was acted on: one more step, which the log will show once the entry is dropped. */
    ghost predicate Taken(s: State, i: nat, step: Step)
      reads this`nodes, this`runs, this`running, this`cancelling, this`first, this`log, ready, pool
    {
      && i < |s.queue| && |nodes| == |config.tasks| && Launching(step)
      && Exec(config, first, log + [step]) == Some(ViewWithout(s.queue[i].taskId))
    }

    /** A look at the files, and at the cache as it was, decides what becomes of queue entry i: missing inputs fail
        it, else an entry that still validates resolves it, else it is launched. */
    ghost predicate Decides(look: nat, entries: Entries, s: State, i: nat, step: Step) {
      && i < |s.queue|
      && if !InputsPresent(declarations, world.files(look), s.queue[i].node) then step == FailInline(i, MissingInput)
         else if Serves(look, entries, s.queue[i].node) then step.CacheHit? && step.i == i
         else step == Launch(i)
    }

    /** v's key is looked up and its entry validates. */
    ghost predicate Serves(look: nat, entries: Entries, v: nat) {
      && Caches(config, cache.enabled, v)
      && Served(entries, world.files(look + 1), declarations.keyOf(world.files(look), v)).Some?
    }

    /** Probes v's inputs and, when they are there, asks the cache. */
    method Look(v: nat) returns (missing: bool, hit: bool)
      modifies cache, this`kept, this`looks, this`tick
      ensures LookDone(world, declarations, Caches(config, cache.enabled, v), v, old(cache.entries), old(kept), old(looks),
                       hit, cache.entries, kept, looks)
      ensures missing <==> !InputsPresent(declarations, world.files(old(looks)), v)
      ensures hit <==> !missing && Serves(old(looks), old(cache.entries), v)
    {
      var files := world.files(looks);
      looks := looks + 1;
      missing, hit := !InputsPresent(declarations, files, v), false;
      if !missing && cache.enabled && v < |config.tasks| && config.tasks[v].cacheEnabled {
        var key, now := declarations.keyOf(files, v), world.clock(tick);
        var served := cache.Lookup(world.files(looks), key, now);
        assert cache.entries == LookedUp(old(cache.entries), world.files(looks), key, now);
        looks, tick := looks + 1, tick + 1;
        if served.Some? {
          hit := true;
          kept := kept[v := Kept(looks - 1, key, served.value.outputs)];
        }
      }
    }

    /** Inputs, then cache, then resources, then launch. */
    method TryStart(i: nat, ghost s: State) returns (outcome: StartOutcome, ghost step: Step)
      requires Trying(i, s) && pool.capacity == config.capacity
      modifies this`nodes, this`runs, this`running, this`tick, this`looks, this`kept, ready, pool, cache
      ensures LookDone(world, declarations, Caches(config, cache.enabled, s.queue[i].node), s.queue[i].node,
                       old(cache.entries), old(kept), old(looks), !outcome.ResourceBlocked? && step.CacheHit?, cache.entries, kept, looks)
      ensures outcome.ResourceBlocked? ==>
                View() == s && BlockedAt(config, s, i)
                && InputsPresent(declarations, world.files(old(looks)), s.queue[i].node)
                && !Serves(old(looks), old(cache.entries), s.queue[i].node)
      ensures !outcome.ResourceBlocked? ==> Taken(s, i, step) && Decides(old(looks), old(cache.entries), s, i, step)
    {
      var v := ready.entries[i].node;
      StartFacts(config, first, log, s, i);
      var missing, hit := Look(v);
      if missing {
        step := StartMissing(i, s);
        outcome := ResolvedInline;
      } else if hit {
        step := StartCached(i, s);
        outcome := ResolvedInline;
      } else {
        var fits;
        fits, step := StartLaunch(i, s);
        outcome := if fits then LaunchedOutcome else ResourceBlocked;
      }
    }

    // ---- the cache alongside the run ----

    /** The cache remembers the successes of some steps. */
    ghost predicate WouldRemember(steps: seq<Step>)
      reads this`first, this`kept, this`looks, cache
    {
      var r := Exec(config, first, steps);
      r.Some? && forall t :: r == Some(t) ==> Holding(config, world, declarations, t, cache.enabled, cache.entries, kept, looks)
    }

    /** The cache remembers the successes of the logged steps. */
    ghost predicate Remembers()
      reads this`first, this`log, this`kept, this`looks, cache
    {
      WouldRemember(log)
    }

    /** Every task will be served from the cache. */
    ghost predicate ServesAll()
      reads this`looks, cache
    {
      cache.enabled && AllServed(config, world, declarations, cache.entries, looks)
    }

    // ---- launch_phase ----

    /** Between steps: the table is where the logged steps have led. */
    ghost predicate Valid()
      reads this`nodes, this`runs, this`running, this`cancelling, this`first, this`log, ready, pool
    {
      && pool.capacity == config.capacity && |nodes| == |config.tasks|
      && IsSeeded(config, first) && Exec(config, first, log) == Some(View())
    }

    lemma ValidInv()
      requires Valid()
      ensures Inv(config, View())
    {
      RunInv(config, first, log, View());
    }

    ghost predicate NothingFits()
      reads this`nodes, this`runs, this`running, this`cancelling, ready, pool
    {
      BlockedBefore(config, View(), |ready.entries|)
    }

    /** Enters a completed step in the log. A step that makes no task succeed leaves what the cache remembers alone. */
    ghost method LogStep(step: Step)
      requires pool.capacity == config.capacity && IsSeeded(config, first)
      requires Exec(config, first, log + [step]) == Some(View())
      modifies this`log
      ensures Valid() && log == old(log) + [step]
      ensures old(Remembers()) && !step.CacheHit? && !(step.Finish? && step.kind.SucceededResult?) ==> Remembers()
    {
      if Remembers() && !step.CacheHit? && !(step.Finish? && step.kind.SucceededResult?) {
        RememberedLog(config, first, log, step, cache.enabled, kept, kept);
      }
      log := log + [step];
    }

    /** One queue entry: tried, and dropped from the queue if that got anywhere. */
    method TryEntry(i: nat, ghost s: State) returns (outcome: StartOutcome, ghost step: Step)
      requires Trying(i, s) && pool.capacity == config.capacity
      modifies this`nodes, this`runs, this`running, this`tick, this`looks, this`log, this`kept, ready, pool, cache
      ensures outcome.ResourceBlocked? ==>
                View() == s && log == old(log) && BlockedAt(config, s, i)
      ensures !outcome.ResourceBlocked? ==>
                Valid() && log == old(log) + [step] && Launching(step) && Decides(old(looks), old(cache.entries), s, i, step)
      ensures old(Remembers()) ==> Remembers()
      ensures old(ServesAll()) ==> ServesAll() && !outcome.ResourceBlocked? && step.CacheHit?
    {
      var id := ready.entries[i].taskId;
      outcome, step := TryAndKeep(i, s);
      if !outcome.ResourceBlocked? { DropEntry(i, s, id, step); }
    }

    /** A try, with what it means for the cache. */
    method TryAndKeep(i: nat, ghost s: State) returns (outcome: StartOutcome, ghost step: Step)
      requires Trying(i, s) && pool.capacity == config.capacity
      modifies this`nodes, this`runs, this`running, this`tick, this`looks, this`kept, ready, pool, cache
      ensures outcome.ResourceBlocked? ==> View() == s && BlockedAt(config, s, i)
      ensures !outcome.ResourceBlocked? ==> Taken(s, i, step) && Decides(old(looks), old(cache.entries), s, i, step)
      ensures old(Remembers()) ==> WouldRemember(if outcome.ResourceBlocked? then log else log + [step])
      ensures old(ServesAll()) ==> ServesAll() && !outcome.ResourceBlocked? && step.CacheHit?
    {
      ghost var entries, kept0, looks0 := cache.entries, kept, looks;
      StartFacts(config, first, log, s, i);
      ghost var remembered, served := Remembers(), ServesAll();
      outcome, step := TryStart(i, s);
      ghost var hit := !outcome.ResourceBlocked? && step.CacheHit?;
      if served {
        ServedLook(config, world, declarations, Caches(config, cache.enabled, s.queue[i].node), s.queue[i].node,
                   entries, kept0, looks0, hit, cache.entries, kept, looks);
      }
      if remembered {
        RememberedLook(config, first, log, world, declarations, cache.enabled, s, i, entries, kept0, looks0,
                       outcome.ResourceBlocked?, step, cache.entries, kept, looks);
      }
    }

    /** Takes an entry that was acted on out of the queue. */
    method DropEntry(i: nat, ghost s: State, id: string, ghost step: Step)
      requires Taken(s, i, step) && id == s.queue[i].taskId
      requires pool.capacity == config.capacity && IsSeeded(config, first)
      modifies this`log, ready
      ensures Valid() && log == old(log) + [step]
      ensures old(WouldRemember(log + [step])) ==> Remembers()
      ensures old(ServesAll()) ==> ServesAll()
    {
      var removed := ready.Remove(id);
      log := log + [step];
    }

    /** One scan of the ready queue, best entry first, up to the first one that is not resource-blocked. */
    method ScanOnce() returns (changed: bool, ghost step: Step)
      requires Valid() && !cancelling && running < config.maxConcurrency
      modifies this`nodes, this`runs, this`running, this`tick, this`looks, this`log, this`kept, ready, pool, cache
      ensures Valid()
      ensures !changed ==> View() == old(View()) && log == old(log) && NothingFits()
      ensures changed ==> log == old(log) + [step] && Launching(step)
                          && exists look, entries, i :: Decides(look, entries, old(View()), i, step)
      ensures old(Remembers()) ==> Remembers()
      ensures old(ServesAll()) ==> ServesAll() && (old(ready.entries) != [] ==> changed && step.CacheHit?)
    {
      ghost var s := View();
      changed, step := false, BeginCancel;
      var i := 0;
      while i < |ready.entries|
        invariant i <= |s.queue| && View() == s && log == old(log) && BlockedBefore(config, s, i)
        invariant old(Remembers()) ==> Remembers()
        invariant old(ServesAll()) ==> ServesAll() && i == 0
      {
        StartFacts(config, first, log, s, i);
        ghost var look, entries := looks, cache.entries;
        var outcome;
        outcome, step := TryEntry(i, s);
        assert !outcome.ResourceBlocked? ==> Decides(look, entries, s, i, step);
        if !outcome.ResourceBlocked? {
          changed := true;
          return;
        }
        BlockedSnoc(config, s, i);
        i := i + 1;
      }
    }

    /** The earliest retry timer that is pending, if any. */
    method EarliestRetryDeadline() returns (deadline: Option<int>)
      ensures deadline.None? <==> !Waits(nodes)
      ensures deadline.Some? ==>
                && (exists v: nat :: v < |nodes| && nodes[v].waiting && nodes[v].notBefore == deadline.value)
                && (forall v: nat :: v < |nodes| && nodes[v].waiting ==> deadline.value <= nodes[v].notBefore)
    {
      deadline := None;
      for i := 0 to |nodes|
        invariant deadline.None? <==> forall v: nat :: v < i ==> !nodes[v].waiting
        invariant deadline.Some? ==>
                    && (exists v: nat :: v < i && nodes[v].waiting && nodes[v].notBefore == deadline.value)
                    && (forall v: nat :: v < i && nodes[v].waiting ==> deadline.value <= nodes[v].notBefore)
      {
        if nodes[i].waiting && (deadline.None? || nodes[i].notBefore < deadline.value) {
          deadline := Some(nodes[i].notBefore);
        }
      }
    }

    /** Fails the first queued task of t; the queue itself is drained already. */
    method FailNext(v: nat, ghost t: State)
      requires Inv(config, t) && !t.cancelling && t.queue != [] && t.queue[0].node == v < |nodes|
      requires nodes == t.nodes && runs == t.runs && ready.entries == []
      requires Exec(config, first, log) == Some(t) && Enabled(config, t, FailInline(0, StartFailure))
      requires IsSeeded(config, first)
      modifies this`nodes, this`runs, this`log, ready
      ensures nodes == FailedInline(config, t, 0, StartFailure).nodes && runs == FailedInline(config, t, 0, StartFailure).runs
      ensures ready.entries == [] && log == old(log) + [FailInline(0, StartFailure)]
      ensures Exec(config, first, log) == Some(FailedInline(config, t, 0, StartFailure))
      ensures old(Remembers()) ==> Remembers()
    {
      ResolveFailed(v, StartFailure, t, 0);
      ExecSnoc(config, first, log, t, FailInline(0, StartFailure));
      if Remembers() { RememberedLog(config, first, log, FailInline(0, StartFailure), cache.enabled, kept, kept); }
      log := log + [FailInline(0, StartFailure)];
    }

    /** The queue is drained and its first k tasks have failed; t is where the log has led, the rest still in its queue. */
    ghost predicate Draining(stuck: seq<ReadyEntry>, k: nat, t: State)
      reads this`nodes, this`runs, this`running, this`cancelling, this`first, this`log, ready, pool
    {
      && k <= |stuck| && ready.entries == [] && IsSeeded(config, first)
      && t == State(nodes, runs, stuck[k..], running, pool.used, cancelling)
      && Exec(config, first, log) == Some(t)
    }

    method FailOneStuck(stuck: seq<ReadyEntry>, k: nat, ghost t: State) returns (ghost t': State)
      requires k < |stuck| && Draining(stuck, k, t) && Stuck(config, t)
      modifies this`nodes, this`runs, this`log, ready
      ensures Draining(stuck, k + 1, t') && Stuck(config, t')
      ensures log == old(log) + [FailInline(0, StartFailure)]
      ensures old(Remembers()) ==> Remembers()
    {
      StuckNext(config, t);
      EntryIsItsNode(config, t, 0);
      FailNext(stuck[k].node, t);
      t' := FailedInline(config, t, 0, StartFailure);
      assert stuck[k..][1..] == stuck[k + 1..];
    }

    /** The safety net: nothing runs, nothing waits, nothing fits, so the queued tasks never will. */
    method FailStuck()
      requires Valid() && Stuck(config, View())
      modifies this`nodes, this`runs, this`log, ready
      ensures Valid() && ready.entries == [] && log == old(log) + DrainSteps(|old(ready.entries)|)
      ensures old(Remembers()) ==> Remembers()
    {
      ghost var t := View();
      var stuck := ready.Drain();
      for k := 0 to |stuck|
        invariant Draining(stuck, k, t) && Stuck(config, t)
        invariant log == old(log) + DrainSteps(k)
        invariant old(Remembers()) ==> Remembers()
      {
        DrainSnoc(old(log), k);
        t := FailOneStuck(stuck, k, t);
      }
    }

    /** Launches until every slot is taken or no ready task fits; then lets nothing wait for ever. */
    method LaunchPhase()
      requires Valid()
      modifies this`nodes, this`runs, this`running, this`tick, this`looks, this`log, this`kept, ready, pool, cache
      ensures Valid() && OnlyLaunching(old(log), log)
      ensures cancelling == old(cancelling) && (cancelling ==> View() == old(View()) && log == old(log))
      ensures !cancelling ==> running >= config.maxConcurrency || NothingFits()
      ensures Settled(View()) || running > 0 || Waits(nodes)
      ensures old(Remembers()) ==> Remembers()
      ensures old(ServesAll()) && !cancelling && OnlyHits(old(View())) ==>
                Settled(View()) && OnlyCacheHits(old(log), log)
                && forall v: nat :: v < |nodes| ==> nodes[v].state.Cached?
    {
      if cancelling {
        ValidInv();
        CancellingQueueEmpty(config, View());
        OnlyLaunchingNone(log);
        return;
      }
      LaunchLoop();
      if OnlyHits(View()) && ready.entries == [] { ValidInv(); AllCached(config, View()); }
      var deadline := EarliestRetryDeadline();
      if running == 0 && ready.entries != [] && deadline.None? {
        ValidInv();
        ghost var steps := log;
        ghost var n := |ready.entries|;
        FailStuck();
        DrainIsLaunching(steps, n);
        OnlyLaunchingTransitive(old(log), steps, log);
      }
    }

    method LaunchLoop()
      requires Valid() && !cancelling
      modifies this`nodes, this`runs, this`running, this`tick, this`looks, this`log, this`kept, ready, pool, cache
      ensures Valid() && OnlyLaunching(old(log), log) && !cancelling
      ensures running >= config.maxConcurrency || NothingFits()
      ensures old(Remembers()) ==> Remembers()
      ensures old(ServesAll()) && OnlyHits(old(View())) ==>
                OnlyHits(View()) && ready.entries == [] && OnlyCacheHits(old(log), log)
    {
      MaxIsPositive();
      OnlyLaunchingNone(log);
      ghost var hits := ServesAll() && OnlyHits(View());
      var changed := true;
      ghost var budget := StepsLeft(config, first, log, View());
      while changed
        invariant Valid() && !cancelling && OnlyLaunching(old(log), log)
        invariant budget == StepsLeft(config, first, log, View())
        invariant !changed ==> running >= config.maxConcurrency || NothingFits()
        invariant old(Remembers()) ==> Remembers()
        invariant hits ==> ServesAll() && OnlyHits(View()) && OnlyCacheHits(old(log), log) && (!changed ==> ready.entries == [])
        decreases budget, changed
      {
        changed := false;
        if running >= config.maxConcurrency { break; }
        ghost var s, steps := View(), log;
        ghost var step;
        changed, step := ScanOnce();
        if changed {
          LaunchStep(config, first, steps, s, step, View());
          OnlyLaunchingSnoc(old(log), steps, step);
          if hits { OnlyCacheHitsSnoc(old(log), steps, step); }
          budget := StepsLeft(config, first, log, View());
        }
      }
    }

    lemma MaxIsPositive()
      requires Valid()
      ensures config.maxConcurrency >= 1
    {
      ValidInv();
    }

    // ---- handle_process_finished ----

    /** Hands back the slot and the reservation and records the attempt. */
    method ReturnSlot(v: nat, kind: ResultKind)
      requires v < |nodes| && InSync(nodes, runs)
      modifies this`nodes, this`runs, this`running, pool
      ensures View() == Returned(old(View()), v, kind) && InSync(nodes, runs)
    {
      if running > 0 { running := running - 1; }
      ReleaseReservation(v);
      RecordAttempt(v, if kind.SucceededResult? then Succeeded else Failed, kind);
    }

    /** v becomes SUCCEEDED and its dependents hear of it. */
    method Succeed(v: nat) returns (ghost unlocked: seq<ReadyEntry>)
      requires ValidConfig(config) && |nodes| == |config.tasks| && InSync(nodes, runs)
      requires v < |nodes| && AllBelow(config.dag.succ[v], |nodes|)
      modifies this`nodes, this`runs, this`tick, this`looks, this`kept, ready, cache
      ensures var marked := old(nodes)[v := old(nodes)[v].(state := Succeeded)];
              && nodes == Propagated(marked, cancelling, config.dag.succ[v])
              && EntriesFor(config, unlocked, UnlockedNodes(marked, cancelling, config.dag.succ[v]))
      ensures |runs| == |old(runs)| == |nodes| && runs == Synced(old(runs), nodes)
      ensures ready.entries == InsertAll(old(ready.entries), unlocked)
      ensures StoreDone(world, declarations, Caches(config, cache.enabled, v), v, config.dag.nodes[v],
                        old(cache.entries), old(kept), old(looks), cache.entries, kept, looks)
    {
      MarkState(v, Succeeded);
      unlocked := OnTaskSucceeded(v, false);
      SyncedIs(old(runs), nodes, runs);
    }

    /** v's process has reported; slot and reservation are back, its next state is still to be decided. */
    ghost predicate Finishing(v: nat, kind: ResultKind, s: State)
      reads this`nodes, this`runs, this`running, this`cancelling, this`first, this`log, ready, pool
    {
      && pool.capacity == config.capacity && IsSeeded(config, first) && Exec(config, first, log) == Some(s)
      && v < |s.nodes| == |s.runs| == |config.tasks| && s.nodes[v].state.Running?
      && View() == Returned(s, v, kind) && InSync(nodes, runs)
    }

    method FinishSucceeded(v: nat, ghost s: State)
      requires Finishing(v, SucceededResult, s)
      modifies this`nodes, this`runs, this`tick, this`looks, this`log, this`kept, ready, cache
      ensures Valid() && OneReport(old(log), log, v, SucceededResult)
      ensures old(Remembers()) ==> Remembers()
    {
      FinishFacts(config, first, log, s, v);
      ghost var r, entries, kept0, looks0, remembered := View(), cache.entries, kept, looks, Remembers();
      ghost var unlocked := Succeed(v);
      ghost var step := Finish(v, SucceededResult, 0, unlocked);
      FinishOkLogged(config, first, log, s, v, r, unlocked, View());
      if remembered {
        RememberedSuccess(config, first, log, world, declarations, cache.enabled, s, step, entries, kept0, looks0,
                          cache.entries, kept, looks);
      }
      OneReportOnly(log, step);
      LogStep(step);
    }

    method FinishCancelled(v: nat, kind: ResultKind, ghost s: State)
      requires Finishing(v, kind, s)
      requires !kind.SucceededResult? && (cancelling || kind.CancelledResult?)
      modifies this`nodes, this`runs, this`log
      ensures Valid() && OneReport(old(log), log, v, kind)
      ensures old(Remembers()) ==> Remembers()
    {
      MarkCancelled(v, kind, s);
      OneReportOnly(log, Finish(v, kind, 0, []));
      LogStep(Finish(v, kind, 0, []));
    }

    method MarkCancelled(v: nat, ghost kind: ResultKind, ghost s: State)
      requires Finishing(v, kind, s)
      requires !kind.SucceededResult? && (cancelling || kind.CancelledResult?)
      modifies this`nodes, this`runs
      ensures Exec(config, first, log + [Finish(v, kind, 0, [])]) == Some(View())
      ensures old(Remembers()) ==> Remembers()
    {
      ghost var r := View();
      MarkState(v, Cancelled);
      SyncedIs(r.runs, nodes, runs);
      CancelledLogged(config, first, log, s, v, kind, r, View());
    }

    /** A retryable failure with budget left waits behind a timer; any other failure is final. */
    method OnTaskFailed(v: nat, kind: ResultKind, ghost s: State)
      requires Finishing(v, kind, s)
      requires !kind.SucceededResult? && !cancelling && !kind.CancelledResult?
      modifies this`nodes, this`runs, this`tick, this`log, ready
      ensures Valid() && OneReport(old(log), log, v, kind)
      ensures old(Remembers()) ==> Remembers()
    {
      if IsRetryable(kind) && ShouldRetry(config.tasks[v].retry, nodes[v].attempts) {
        ghost var steps := log;
        ghost var notBefore := Requeue(v, kind, s);
        ghost var stamp := world.clock(tick);
        PromoteBackoffReady();
        ReportThenPromotes(steps, Finish(v, kind, notBefore, []), log, stamp);
      } else {
        FinishFailed(v, kind, s);
      }
    }

    method Requeue(v: nat, kind: ResultKind, ghost s: State) returns (ghost notBefore: int)
      requires Finishing(v, kind, s)
      requires !kind.SucceededResult? && !cancelling && !kind.CancelledResult?
      requires v < |config.tasks| && Retries(config, s, v, kind)
      modifies this`nodes, this`runs, this`tick, this`log
      ensures notBefore == world.clock(old(tick)) + world.retryDelay(old(tick), v)
      ensures Valid() && log == old(log) + [Finish(v, kind, notBefore, [])]
      ensures old(Remembers()) ==> Remembers()
    {
      ghost var r := View();
      notBefore := WaitForRetry(v);
      ghost var t := r.(nodes := nodes, runs := runs);
      assert View() == t;
      RetryLogged(config, first, log, s, v, kind, notBefore, r, t);
      LogStep(Finish(v, kind, notBefore, []));
    }

    method WaitForRetry(v: nat) returns (ghost notBefore: int)
      requires v < |nodes| && InSync(nodes, runs)
      modifies this`nodes, this`runs, this`tick
      ensures notBefore == world.clock(old(tick)) + world.retryDelay(old(tick), v)
      ensures nodes == old(nodes)[v := old(nodes)[v].(state := Ready, waiting := true, notBefore := notBefore)]
      ensures |runs| == |old(runs)| && runs == Synced(old(runs), nodes)
    {
      var due := world.clock(tick) + world.retryDelay(tick, v);
      notBefore := due;
      tick := tick + 1;
      ghost var recorded := runs;
      nodes := nodes[v := nodes[v].(notBefore := due, waiting := true)];
      MarkState(v, Ready);
      SyncedIs(recorded, nodes, runs);
    }

    method FinishFailed(v: nat, kind: ResultKind, ghost s: State)
      requires Finishing(v, kind, s)
      requires !kind.SucceededResult? && !cancelling && !kind.CancelledResult?
      requires v < |config.tasks| && !Retries(config, s, v, kind)
      modifies this`nodes, this`runs, this`log, ready
      ensures Valid() && OneReport(old(log), log, v, kind)
      ensures old(Remembers()) ==> Remembers()
    {
      ghost var r := View();
      FailAndSkip(v, kind, s);
      FailureLogged(config, first, log, s, v, kind, r, View());
      OneReportOnly(log, Finish(v, kind, 0, []));
      LogStep(Finish(v, kind, 0, []));
    }

    method FailAndSkip(v: nat, ghost kind: ResultKind, ghost s: State)
      requires IsSeeded(config, first) && Exec(config, first, log) == Some(s)
      requires !s.cancelling && v < |s.nodes| == |s.runs| && s.nodes[v].state.Running?
      requires View() == Returned(s, v, kind) && InSync(nodes, runs)
      modifies this`nodes, this`runs, ready
      ensures nodes == SkippedBelow(config.dag.succ, old(nodes)[v := old(nodes)[v].(state := Failed)], v)
      ensures |runs| == |old(runs)| == |nodes| && runs == Synced(old(runs), nodes) && ready.entries == old(ready.entries)
    {
      RunInv(config, first, log, s);
      ghost var recorded := runs;
      MarkState(v, Failed);
      SkipDownstream(v, s);
      SyncedIs(recorded, nodes, runs);
    }

    /** Handles the report of v's process; the runner reports each launched process once, so v is RUNNING. */
    method HandleProcessFinished(v: nat, outcome: Outcome)
      requires Valid() && v < |nodes| && nodes[v].state.Running?
      modifies this`nodes, this`runs, this`running, this`tick, this`looks, this`log, this`kept, ready, pool, cache
      ensures Valid() && cancelling == old(cancelling)
      ensures OneReport(old(log), log, v, ReportKind(outcome, verifyOutputs, OutputsPresent(declarations, world.files(old(looks)), v)))
      ensures old(Remembers()) ==> Remembers()
    {
      ghost var s := View();
      var kind := CheckOutputs(v, outcome);
      TakeBack(v, kind);
      Decide(v, kind, s);
    }

    /** The slot comes back; nothing else happens yet. */
    method TakeBack(v: nat, kind: ResultKind)
      requires Valid() && v < |nodes| && nodes[v].state.Running?
      modifies this`nodes, this`runs, this`running, pool
      ensures Finishing(v, kind, old(View())) && cancelling == old(cancelling)
      ensures old(Remembers()) ==> Remembers()
    {
      FinishFacts(config, first, log, View(), v);
      ReturnSlot(v, kind);
    }

    /** What becomes of v after its report. */
    method Decide(v: nat, kind: ResultKind, ghost s: State)
      requires Finishing(v, kind, s)
      modifies this`nodes, this`runs, this`tick, this`looks, this`log, this`kept, ready, cache
      ensures Valid() && OneReport(old(log), log, v, kind)
      ensures old(Remembers()) ==> Remembers()
    {
      if kind.SucceededResult? {
        FinishSucceeded(v, s);
      } else if cancelling || kind.CancelledResult? {
        FinishCancelled(v, kind, s);
      } else {
        OnTaskFailed(v, kind, s);
      }
    }

    /** Classifies a report; a success is checked against the declared outputs. */
    method CheckOutputs(v: nat, outcome: Outcome) returns (kind: ResultKind)
      modifies this`looks
      ensures kind == ReportKind(outcome, verifyOutputs, OutputsPresent(declarations, world.files(old(looks)), v))
      ensures old(Remembers()) ==> Remembers()
    {
      kind := Classify(outcome);
      if kind.SucceededResult? && verifyOutputs {
        if !OutputsPresent(declarations, world.files(looks), v) { kind := MissingOutput; }
        looks := looks + 1;
      }
    }

    // ---- promote_backoff_ready ----

    method PromoteOne(i: nat, stamp: int)
      requires Valid() && !cancelling && i < |nodes| && nodes[i].waiting && nodes[i].notBefore <= stamp
      requires |config.dag.nodes| == |config.tasks|
      modifies this`nodes, this`log, ready
      ensures Valid() && nodes == old(nodes)[i := old(nodes)[i].(waiting := false)]
      ensures log == old(log) + [Promote(i, stamp)]
      ensures old(Remembers()) ==> Remembers()
    {
      PromoteLogged(config, first, log, View(), i, stamp);
      nodes := nodes[i := nodes[i].(waiting := false)];
      ready.Push(EntryFor(config, i, stamp));
      LogStep(Promote(i, stamp));
    }

    /** Queues every task whose retry timer has fired. */
    method PromoteBackoffReady()
      requires Valid()
      modifies this`nodes, this`tick, this`log, ready
      ensures Valid()
      ensures OnlyPromotes(old(log), log, world.clock(old(tick)))
      ensures !cancelling ==> NoneDue(nodes, |nodes|, world.clock(old(tick)))
      ensures cancelling ==> log == old(log)
      ensures old(Remembers()) ==> Remembers()
    {
      if cancelling { return; }
      SeededShape(config, first);
      var stamp := world.clock(tick);
      tick := tick + 1;
      for i := 0 to |nodes|
        invariant Valid() && |nodes| == |old(nodes)| && OnlyPromotes(old(log), log, stamp)
        invariant NoneDue(nodes, i, stamp)
        invariant old(Remembers()) ==> Remembers()
      {
        NoneDueSnoc(nodes, i, stamp);
        if nodes[i].waiting && nodes[i].notBefore <= stamp {
          OnlyPromotesSnoc(old(log), log, i, stamp);
          PromoteOne(i, stamp);
        }
      }
    }

    // ---- begin_cancel ----

    /** Cancels the queued tasks; `drained` is what the queue held. */
    method CancelQueued(drained: seq<ReadyEntry>)
      requires InSync(nodes, runs) && forall e :: e in drained ==> e.node < |nodes|
      modifies this`nodes, this`runs
      ensures InSync(nodes, runs) && SameAttempts(old(runs), runs)
      ensures QueueCancelled(drained, old(nodes), nodes)
    {
      for k := 0 to |drained|
        invariant InSync(nodes, runs) && SameAttempts(old(runs), runs)
        invariant QueueCancelled(drained[..k], old(nodes), nodes)
      {
        var e := drained[k];
        assert e in drained;
        assert drained[..k + 1] == drained[..k] + [e];
        MarkState(e.node, Cancelled);
        forall w: nat ensures Queued(drained[..k + 1], w) <==> Queued(drained[..k], w) || w == e.node {
          if w == e.node { assert e in drained[..k + 1]; }
          if Queued(drained[..k], w) { var f :| f in drained[..k] && f.node == w; assert f in drained[..k + 1]; }
        }
      }
      assert drained[..|drained|] == drained;
    }

    /** Cancels the tasks behind a retry timer and the pending ones. */
    method CancelWaiting()
      requires InSync(nodes, runs) && forall w: nat :: w < |nodes| && nodes[w].state.Ready? ==> nodes[w].waiting
      modifies this`nodes, this`runs
      ensures InSync(nodes, runs) && SameAttempts(old(runs), runs)
      ensures RestCancelled(old(nodes), nodes)
    {
      for i := 0 to |nodes|
        invariant InSync(nodes, runs) && SameAttempts(old(runs), runs) && |nodes| == |old(nodes)|
        invariant forall w: nat :: w < |nodes| ==>
                    nodes[w] == if w < i then CancelNode(old(nodes)[w]) else old(nodes)[w]
      {
        if nodes[i].waiting {
          nodes := nodes[i := nodes[i].(waiting := false)];
          MarkState(i, Cancelled);
        } else if nodes[i].state.Pending? {
          MarkState(i, Cancelled);
        }
      }
    }

    method CancelTasks(drained: seq<ReadyEntry>, ghost s: State)
      requires IsSeeded(config, first) && Exec(config, first, log) == Some(s) && !s.cancelling
      requires nodes == s.nodes && runs == s.runs && drained == s.queue
      modifies this`nodes, this`runs
      ensures Exec(config, first, log + [BeginCancel]) == Some(Stopped(s, nodes, runs))
    {
      CancelFacts(config, first, log, s);
      CancelQueued(drained);
      ghost var between := nodes;
      QueuedCoverReady(config, first, log, s, between);
      CancelWaiting();
      CancelIs(config, first, log, s, between, Stopped(s, nodes, runs));
    }

    /** Stops launching, asks for every running process to be terminated, and cancels everything else. */
    method CancelRun() returns (terminate: set<nat>)
      requires Valid() && !cancelling
      modifies this`nodes, this`runs, this`cancelling, this`log, ready
      ensures Valid() && log == old(log) + [BeginCancel]
      ensures terminate == RunningNodes(old(nodes))
      ensures old(Remembers()) ==> Remembers()
    {
      terminate := RunningNodes(nodes);
      StopAll();
      LogStep(BeginCancel);
    }

    method StopAll()
      requires Valid() && !cancelling
      modifies this`nodes, this`runs, this`cancelling, ready
      ensures Exec(config, first, log + [BeginCancel]) == Some(View())
      ensures old(Remembers()) ==> Remembers()
    {
      ghost var s := View();
      cancelling := true;
      var drained := ready.Drain();
      CancelTasks(drained, s);
      assert View() == Stopped(s, nodes, runs);
    }

    // ---- run ----

    method SeedOne(i: nat) returns (ghost added: seq<ReadyEntry>)
      requires ValidConfig(config) && i < |nodes| == |config.tasks| && InSync(nodes, runs)
      requires nodes[i] == InitialNode(config.dag, i)
      modifies this`nodes, this`runs, this`tick, ready
      ensures nodes == old(nodes)[i := FreshNode(config, i)]
      ensures InSync(nodes, runs) && SameAttempts(old(runs), runs)
      ensures |added| <= 1 && EntriesFor(config, added, if config.dag.pred[i] == [] then [i] else [])
      ensures ready.entries == InsertAll(old(ready.entries), added)
    {
      added := [];
      if nodes[i].remaining == 0 {
        MarkState(i, Ready);
        var e := EntryFor(config, i, world.clock(tick));
        tick := tick + 1;
        ready.Push(e);
        added := [e];
        assert [e][..0] == [];
      }
    }

    /** Marks the roots READY and queues them. */
    method SeedReady()
      requires Unstarted()
      modifies this`nodes, this`runs, this`tick, this`first, ready
      ensures Valid() && log == [] && View() == first && Remembers()
    {
      ghost var es := SeedQueue();
      first := View();
      SeededIs(config, first, es);
      NothingRemembered(config, first, world, declarations, cache.enabled, cache.entries, looks);
    }

    method SeedQueue() returns (ghost es: seq<ReadyEntry>)
      requires Unstarted()
      modifies this`nodes, this`runs, this`tick, ready
      ensures SeededUpTo(config, |nodes|, nodes, runs, ready.entries, es)
    {
      es := [];
      for i := 0 to |nodes|
        invariant SeededUpTo(config, i, nodes, runs, ready.entries, es)
      {
        ghost var nodesI, runsI, queueI := nodes, runs, ready.entries;
        ghost var added := SeedOne(i);
        SeededSnoc(config, i, nodesI, runsI, queueI, es, nodes, runs, added);
        es := es + added;
      }
    }

    method AllSettled() returns (settled: bool)
      ensures settled <==> Settled(View())
    {
      if running != 0 || ready.entries != [] { return false; }
      for i := 0 to |nodes|
        invariant forall v: nat :: v < i ==> !nodes[v].waiting
      {
        if nodes[i].waiting { return false; }
      }
      settled := true;
    }

    /** One event. The runner reports every launched process exactly once, so a report always finds its
        task RUNNING; reports that no runner can send are ignored. */
    method HandleEvent(event: Event)
      requires Valid()
      modifies this`cancelling, this`nodes, this`runs, this`running, this`tick, this`looks, this`log, this`kept, ready, pool, cache
      ensures Valid() && EventDone(event, old(log), old(View()), log, View())
      ensures Finds(event, old(View())) ==>
                OneReport(old(log), log, event.v,
                          ReportKind(event.outcome, verifyOutputs, OutputsPresent(declarations, world.files(old(looks)), event.v)))
      ensures old(Remembers()) ==> Remembers()
    {
      match event
      case CancelRequest =>
        if !cancelling { var terminate := CancelRun(); }
      case LogLine =>
      case ProcessFinished(v, outcome) =>
        if v < |nodes| && nodes[v].state.Running? {
          ghost var look, steps := looks, log;
          HandleProcessFinished(v, outcome);
          ReportIsDone(v, outcome, verifyOutputs, OutputsPresent(declarations, world.files(look), v), steps, log);
        }
    }

    method HandleBatch(batch: seq<Event>)
      requires Valid()
      modifies this`cancelling, this`nodes, this`runs, this`running, this`tick, this`looks, this`log, this`kept, ready, pool, cache
      ensures Valid() && Extends(old(log), log)
      ensures CancelRequest in batch ==> cancelling
      ensures CancelRequest !in batch ==> cancelling == old(cancelling)
      ensures old(cancelling) ==> cancelling
      ensures HonestRunner(old(log)) && HonestBatch(old(cancelling), batch) ==> HonestRunner(log)
      ensures log == old(log) ==> Deaf(old(View()), batch)
      ensures old(Remembers()) ==> Remembers()
    {
      ghost var s := View();
      Whole(batch);
      for k := 0 to |batch|
        invariant Valid() && BatchUpTo(batch, k, old(log), s, log, View())
        invariant old(Remembers()) ==> Remembers()
      {
        HandleNext(batch, k, old(log), s);
      }
    }

    method HandleNext(batch: seq<Event>, k: nat, ghost before: seq<Step>, ghost s: State)
      requires Valid() && k < |batch| && BatchUpTo(batch, k, before, s, log, View())
      modifies this`cancelling, this`nodes, this`runs, this`running, this`tick, this`looks, this`log, this`kept, ready, pool, cache
      ensures Valid() && BatchUpTo(batch, k + 1, before, s, log, View())
      ensures old(Remembers()) ==> Remembers()
    {
      ghost var mid, m := log, View();
      HandleEvent(batch[k]);
      BatchEvent(config, first, batch, k, before, s, mid, m, log, View());
    }

    /** The pipeline's final state, read off the counters. */
    method FinalState(requested: bool) returns (verdict: PipelineState)
      requires Valid()
      ensures verdict == Verdict(View(), requested)
    {
      ValidInv();
      InvInSync(config, View());
      var counts := CountStates(runs);
      assert counts.failed == Tally(counts, Failed);
      FailedCounted(nodes, runs);
      verdict := if cancelling || requested then PipelineCancelled
                 else if counts.failed > 0 then PipelineFailed else PipelineSucceeded;
    }

    /** The run is over. */
    method Conclude(requested: bool) returns (verdict: Option<PipelineState>)
      requires Valid() && Settled(View())
      ensures verdict == Some(Verdict(View(), requested))
      ensures cancelling <==> BeginCancel in log
      ensures HonestRunner(log) ==>
                && AllTerminal(View())
                && (verdict.value == PipelineSucceeded <==> BeginCancel !in log && !requested && AllSuccessLike(View()))
    {
      var final := FinalState(requested);
      CancellingIsRecorded(config, first, log);
      if HonestRunner(log) { CompleteRunVerdict(config, first, log, requested); }
      return Some(final);
    }

    /** One turn of the loop up to its wait: cancel if asked, launch what fits, see whether all is settled. */
    method Turn(cancelRequested: bool) returns (settled: bool)
      requires Valid()
      modifies this`cancelling, this`nodes, this`runs, this`running, this`tick, this`looks, this`log, this`kept, ready, pool, cache
      ensures Valid() && (cancelRequested ==> cancelling) && (!cancelRequested ==> cancelling == old(cancelling))
      ensures old(cancelling) ==> cancelling
      ensures settled <==> Settled(View())
      ensures !settled ==> running > 0 || Waits(nodes)
      ensures Extends(old(log), log) && (HonestRunner(old(log)) ==> HonestRunner(log))
      ensures old(Remembers()) ==> Remembers()
      ensures old(ServesAll()) && !cancelling && OnlyHits(old(View())) ==>
                settled && OnlyCacheHits(old(log), log) && forall v: nat :: v < |nodes| ==> nodes[v].state.Cached?
    {
      if cancelRequested && !cancelling { var terminate := CancelRun(); }
      ghost var steps := log;
      LaunchPhase();
      QuietTurn(old(log), steps, log);
      settled := AllSettled();
    }

    /** What happens between two launch phases: the events that arrived, and the retry timers that fired. */
    method Serve(batch: seq<Event>) returns (ghost stamp: int)
      requires Valid()
      modifies this`cancelling, this`nodes, this`runs, this`running, this`tick, this`looks, this`log, this`kept, ready, pool, cache
      ensures Valid() && Extends(old(log), log)
      ensures CancelRequest in batch ==> cancelling
      ensures CancelRequest !in batch ==> cancelling == old(cancelling)
      ensures old(cancelling) ==> cancelling
      ensures HonestRunner(old(log)) && HonestBatch(old(cancelling), batch) ==> HonestRunner(log)
      ensures log == old(log) ==> Idle(old(View()), batch, stamp)
      ensures old(Remembers()) ==> Remembers()
    {
      ghost var s := View();
      HandleBatch(batch);
      ghost var steps := log;
      stamp := world.clock(tick);
      PromoteBackoffReady();
      QuietServe(old(log), steps, log, stamp);
    }

    /** The whole run against any behaviour of the world: `idle` are the rounds in which nothing happened, `waits` is
        what the scheduler waited on in each round, and until when. If the runner reports cancelled processes only after
        a cancel request, a run that ends has every task terminal, and SUCCEEDED is its verdict exactly when nothing
        was cancelled and every task succeeded. */
    method Run(script: seq<Round>, requested: bool)
      returns (verdict: Option<PipelineState>, ghost idle: set<nat>, ghost waits: seq<(State, int)>)
      requires Unstarted()
      modifies this`cancelling, this`first, this`nodes, this`runs, this`running, this`tick, this`looks, this`log, this`kept, ready, pool, cache
      ensures Valid() && Remembers()
      ensures verdict.Some? ==> Settled(View()) && verdict.value == Verdict(View(), requested)
      ensures QuietUpTo(script, |script|) ==> BeginCancel !in log
      ensures HonestScript(script) && verdict.Some? ==>
                && AllTerminal(View())
                && (verdict.value == PipelineSucceeded <==> BeginCancel !in log && !requested && AllSuccessLike(View()))
      ensures |waits| <= |script| && IdleRounds(script, |waits|, idle, waits, |log|)
      ensures verdict.None? ==> |waits| == |script| <= Measure(config, first) + |idle|
      ensures old(ServesAll()) && script != [] && !script[0].cancelRequested && !requested ==>
                && verdict == Some(PipelineSucceeded) && Launches(log) == 0
                && forall v: nat :: v < |nodes| ==> nodes[v].state.Cached?
    {
      ghost var served := ServesAll() && script != [] && !script[0].cancelRequested && !requested;
      SeedReady();
      SeededOnlyHits(config, first);
      var settled;
      settled, idle, waits := Rounds(script, served);
      verdict := None;
      CancellingIsRecorded(config, first, log);
      LogBounded(config, first, log, View());
      if settled {
        verdict := Conclude(requested);
        if served { OnlyHitsLaunchNothing(log); }
      }
    }

    /** The rounds after seeding, up to the one whose launch phase leaves everything settled. */
    method Rounds(script: seq<Round>, ghost served: bool)
      returns (settled: bool, ghost idle: set<nat>, ghost waits: seq<(State, int)>)
      requires SoFar(script, 0, {}, []) && log == []
      requires served ==> ServesAll() && OnlyHits(View()) && !cancelling && script != [] && !script[0].cancelRequested
      modifies this`cancelling, this`nodes, this`runs, this`running, this`tick, this`looks, this`log, this`kept, ready, pool, cache
      ensures Valid() && Remembers() && (settled ==> Settled(View()))
      ensures QuietUpTo(script, |script|) ==> !cancelling
      ensures HonestScript(script) ==> HonestRunner(log)
      ensures |waits| <= |script| && IdleRounds(script, |waits|, idle, waits, |log|)
      ensures !settled ==> |waits| == |script|
      ensures served ==> settled && !cancelling && OnlyCacheHits([], log) && forall v: nat :: v < |nodes| ==> nodes[v].state.Cached?
    {
      settled, idle, waits := false, {}, [];
      for k := 0 to |script|
        invariant SoFar(script, k, idle, waits) && !settled
        invariant served ==> k == 0 && ServesAll() && OnlyHits(View()) && !cancelling && log == []
      {
        ghost var steps := |log|;
        settled := Turn(script[k].cancelRequested);
        if settled {
          QuietSoFar(script, k);
          IdleLater(script, k, idle, waits, steps, |log|);
          return;
        }
        idle, waits := Between(script, k, idle, waits);
      }
    }

    /** The run after its first k rounds. */
    ghost predicate SoFar(script: seq<Round>, k: nat, idle: set<nat>, waits: seq<(State, int)>)
      reads this`nodes, this`runs, this`running, this`cancelling, this`first, this`log, this`kept, this`looks, ready, pool, cache
      requires k <= |script|
    {
      && Valid() && Remembers()
      && (QuietUpTo(script, k) ==> !cancelling) && (AskedUpTo(script, k) ==> cancelling)
      && (HonestScript(script) ==> HonestRunner(log))
      && IdleRounds(script, k, idle, waits, |log|)
    }

    /** From the launch phase of round k to that of the next. */
    method Between(script: seq<Round>, k: nat, ghost idle: set<nat>, ghost waits: seq<(State, int)>)
      returns (ghost idle': set<nat>, ghost waits': seq<(State, int)>)
      requires k < |script| && Valid() && Remembers()
      requires QuietUpTo(script, k) && !script[k].cancelRequested ==> !cancelling
      requires AskedUpTo(script, k) || script[k].cancelRequested ==> cancelling
      requires HonestScript(script) ==> HonestRunner(log)
      requires IdleRounds(script, k, idle, waits, |log|)
      modifies this`cancelling, this`nodes, this`runs, this`running, this`tick, this`looks, this`log, this`kept, ready, pool, cache
      ensures SoFar(script, k + 1, idle', waits')
    {
      ghost var s, steps := View(), |log|;
      HonestRound(script, k, cancelling);
      ghost var stamp := Serve(script[k].batch);
      MoreAsked(script, k);
      IdleSnoc(script, k, idle, waits, steps, s, stamp, |log|);
      idle' := if |log| == steps then WithRound(idle, k) else idle;
      waits' := waits + [(s, stamp)];
    }
  }
}
