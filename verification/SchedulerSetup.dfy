/** Making a scheduler for a pipeline: every node of the graph needs a task definition. */
module SchedulerSetup {
  import opened Domain
  import opened DagBuilder
  import opened CacheStores
  import opened SchedulerModel
  import opened SchedulerRefinement
  import opened SchedulerEngine
  import opened TaskFiles

  datatype Definition = Definition(id: string, task: Task)

  /** The first definition with the id, as the pipeline finds it. */
  function FindTask(pipeline: seq<Definition>, id: string): (r: Option<Task>)
    ensures r.None? <==> forall i :: 0 <= i < |pipeline| ==> pipeline[i].id != id
  {
    if pipeline == [] then None
    else if pipeline[0].id == id then Some(pipeline[0].task)
    else
      assert forall i :: 1 <= i < |pipeline| ==> pipeline[i] == pipeline[1..][i - 1];
      FindTask(pipeline[1..], id)
  }

  /** The graph's nodes have these tasks, in order. */
  predicate Assigned(pipeline: seq<Definition>, nodes: seq<string>, tasks: seq<Task>) {
    |tasks| == |nodes| && forall v: nat :: v < |nodes| ==> FindTask(pipeline, nodes[v]) == Some(tasks[v])
  }

  /** Looks up every node's definition; stops at the first one that has none. */
  method Assign(pipeline: seq<Definition>, nodes: seq<string>) returns (tasks: seq<Task>, missing: Option<string>)
    ensures missing.None? ==> Assigned(pipeline, nodes, tasks)
    ensures missing.Some? ==> |tasks| < |nodes| && missing.value == nodes[|tasks|]
                              && FindTask(pipeline, missing.value).None? && Assigned(pipeline, nodes[..|tasks|], tasks)
  {
    tasks, missing := [], None;
    for i := 0 to |nodes|
      invariant |tasks| == i && Assigned(pipeline, nodes[..i], tasks)
    {
      var found := FindTask(pipeline, nodes[i]);
      if found.None? {
        return tasks, Some(nodes[i]);
      }
      tasks := tasks + [found.value];
      assert forall v: nat :: v < i ==> nodes[..i + 1][v] == nodes[..i][v];
    }
    assert nodes[..|nodes|] == nodes;
  }

  /** A scheduler with every task PENDING, or the id of the first node that has no definition. */
  method Create(dag: Dag, pipeline: seq<Definition>, maxConcurrency: int, capacity: Resources, verifyOutputs: bool,
                declarations: Declarations, cache: CacheStore, world: World)
    returns (scheduler: Option<Scheduler>, missing: Option<string>)
    requires ValidDag(dag)
    ensures scheduler.Some? <==> forall v: nat :: v < |dag.nodes| ==> FindTask(pipeline, dag.nodes[v]).Some?
    ensures scheduler.Some? <==> missing.None?
    ensures scheduler.Some? ==>
      && fresh(scheduler.value) && scheduler.value.Unstarted() && scheduler.value.looks == 0
      && scheduler.value.config.dag == dag && Assigned(pipeline, dag.nodes, scheduler.value.config.tasks)
      && scheduler.value.config.maxConcurrency == (if maxConcurrency < 1 then 1 else maxConcurrency)
      && scheduler.value.config.capacity == capacity && scheduler.value.cache == cache
    ensures missing.Some? ==> missing.value in dag.nodes && FindTask(pipeline, missing.value).None?
  {
    var tasks;
    tasks, missing := Assign(pipeline, dag.nodes);
    if missing.Some? {
      return None, missing;
    }
    var made := new Scheduler(dag, tasks, maxConcurrency, capacity, verifyOutputs, declarations, cache, world);
    scheduler := Some(made);
  }
}
