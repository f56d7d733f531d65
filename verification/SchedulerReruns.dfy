/** Running a pipeline again over the cache that an earlier run has filled. */
module SchedulerReruns {
  import opened Domain
  import opened DagBuilder
  import opened CacheStores
  import opened CachedRuns
  import opened SchedulerModel
  import opened SchedulerHistory
  import opened SchedulerProgress
  import opened SchedulerRefinement
  import opened SchedulerEngine
  import opened SchedulerTheorems
  import opened TaskFiles

  /** A run that took everything from the cache. */
  predicate AllFromCache(verdict: Option<PipelineState>, last: State, log: seq<Step>) {
    && verdict == Some(PipelineSucceeded) && Launches(log) == 0
    && forall v: nat :: v < |last.nodes| ==> last.nodes[v].state.Cached?
  }

  /** The cache is on for every task. */
  predicate CachesAll(tasks: seq<Task>, enabled: bool) {
    enabled && forall v: nat :: v < |tasks| ==> tasks[v].cacheEnabled
  }

  /** The first run succeeded, the cache is on, and nobody cancels the second run before it has looked at the cache. */
  ghost predicate Reusable(verdict: Option<PipelineState>, script: seq<Round>, scriptAgain: seq<Round>,
                           tasks: seq<Task>, enabled: bool) {
    && verdict == Some(PipelineSucceeded) && HonestScript(script) && CachesAll(tasks, enabled)
    && scriptAgain != [] && !scriptAgain[0].cancelRequested
  }

  /** Both worlds show these files and no others, with everything in place that the tasks declare. */
  ghost predicate FilesStay(world: World, again: World, d: Declarations, n: nat, files: Files) {
    && (forall t: nat :: world.files(t) == files && again.files(t) == files)
    && forall v: nat :: v < n ==> InputsPresent(d, files, v) && OutputsPresent(d, files, v)
  }

  /** Two runs of the same tasks, the second over the cache that the first leaves behind. If the first one succeeds
      and afterwards nobody changes the inputs or the recorded outputs of its successes, which `kept` lists, the second
      one takes everything from the cache. */
  method RunTwice(dag: Dag, tasks: seq<Task>, maxConcurrency: int, capacity: Resources, verifyOutputs: bool,
                  declarations: Declarations, cache: CacheStore, world: World, script: seq<Round>,
                  again: World, scriptAgain: seq<Round>)
    returns (verdict: Option<PipelineState>, verdictAgain: Option<PipelineState>,
             ghost kept: map<nat, Kept>, ghost last: State, ghost log: seq<Step>)
    requires ValidDag(dag) && |tasks| == |dag.nodes|
    modifies cache
    ensures |last.nodes| == |tasks| && Grounded(world, declarations, kept)
    ensures Reusable(verdict, script, scriptAgain, tasks, cache.enabled) ==>
              (Lasting(world, kept) && Unchanged(again, declarations, kept) ==> AllFromCache(verdictAgain, last, log))
    ensures Reusable(verdict, script, scriptAgain, tasks, cache.enabled) ==>
              forall files: Files :: FilesStay(world, again, declarations, |tasks|, files) ==>
                AllFromCache(verdictAgain, last, log)
  {
    var run := new Scheduler(dag, tasks, maxConcurrency, capacity, verifyOutputs, declarations, cache, world);
    ghost var idle, waits;
    verdict, idle, waits := run.Run(script, false);
    kept := run.kept;
    ghost var done, looks := run.View(), run.looks;
    var rerun := new Scheduler(dag, tasks, maxConcurrency, capacity, verifyOutputs, declarations, cache, again);
    ghost var served := Reusable(verdict, script, scriptAgain, tasks, cache.enabled)
                     && Lasting(world, kept) && Unchanged(again, declarations, kept);
    if served {
      NextRunServed(run.config, world, again, declarations, done, cache.entries, kept, looks);
      assert rerun.ServesAll();
    }
    verdictAgain, idle, waits := rerun.Run(scriptAgain, false);
    last, log := rerun.View(), rerun.log;
    forall files: Files | FilesStay(world, again, declarations, |tasks|, files)
      ensures Lasting(world, kept) && Unchanged(again, declarations, kept)
    {
      SameFilesReuse(world, again, declarations, kept, files);
    }
  }
}
