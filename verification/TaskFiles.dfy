/** The files that tasks declare, as the scheduler probes them for inputs, outputs and the cache. */
module TaskFiles {
  import opened Domain
  import opened CacheStores

  datatype Output = Output(logicalName: string, path: string, wantsChecksum: bool)

  /** What the tasks of a pipeline declare, and the cache key of each task as a function of the files it would read. */
  datatype Declarations = Declarations(inputs: seq<seq<string>>, outputs: seq<seq<Output>>, keyOf: (Files, nat) -> string)

  predicate InputsPresent(d: Declarations, files: Files, v: nat) {
    v < |d.inputs| ==> forall p :: p in d.inputs[v] ==> p in files
  }

  predicate OutputsPresent(d: Declarations, files: Files, v: nat) {
    v < |d.outputs| ==> forall o :: o in d.outputs[v] ==> o.path in files
  }

  function SnapshotOf(files: Files, o: Output): CachedArtifact {
    if o.path in files
    then CachedArtifact(o.logicalName, o.path, files[o.path].size, if o.wantsChecksum then files[o.path].digest else None)
    else CachedArtifact(o.logicalName, o.path, 0, None)
  }

  /** The declared outputs of a task as they are. */
  function Snapshot(d: Declarations, files: Files, v: nat): seq<CachedArtifact> {
    if v < |d.outputs|
    then seq(|d.outputs[v]|, i requires 0 <= i < |d.outputs[v]| => SnapshotOf(files, d.outputs[v][i]))
    else []
  }

  /** Outputs that are present and have not changed since validate; one that was missing never does. */
  lemma SnapshotValidExactly(d: Declarations, files: Files, v: nat)
    ensures AllValid(files, Snapshot(d, files, v)) <==> OutputsPresent(d, files, v)
  {
    var snap := Snapshot(d, files, v);
    if AllValid(files, snap) && v < |d.outputs| {
      forall o | o in d.outputs[v] ensures o.path in files {
        var i :| 0 <= i < |d.outputs[v]| && d.outputs[v][i] == o;
        assert StillValid(files, snap[i]);
      }
    } else if v < |d.outputs| && OutputsPresent(d, files, v) {
      forall i | 0 <= i < |snap| ensures StillValid(files, snap[i]) {
        assert d.outputs[v][i] in d.outputs[v];
      }
    }
  }

  /** When it is taken, a snapshot records exactly the declared paths; so a hit guarantees them as long as the
      declaration does not change. */
  lemma SnapshotRecordsDeclared(d: Declarations, files: Files, v: nat)
    requires v < |d.outputs|
    ensures Paths(Snapshot(d, files, v)) == set o | o in d.outputs[v] :: o.path
  {
    var snap := Snapshot(d, files, v);
    forall o | o in d.outputs[v] ensures o.path in Paths(snap) {
      var i :| 0 <= i < |d.outputs[v]| && d.outputs[v][i] == o;
      assert snap[i].path == o.path;
    }
    forall p | p in Paths(snap) ensures p in set o | o in d.outputs[v] :: o.path {
      var i :| 0 <= i < |snap| && snap[i].path == p;
      assert d.outputs[v][i] in d.outputs[v];
    }
  }
}
