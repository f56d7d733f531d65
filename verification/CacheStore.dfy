/** The task-result cache: an entry is served only while every output it recorded is still in place. */
module CacheStores {
  import opened Domain

  /** An output file as it was when the task succeeded. */
  datatype CachedArtifact = CachedArtifact(logicalName: string, path: string, size: int, checksum: Option<string>)

  datatype CachedOutcome = CachedOutcome(exitCode: int, outputs: seq<CachedArtifact>)

  datatype Entry = Entry(taskId: string, outcome: CachedOutcome, createdAt: int, lastUsedAt: int, hits: nat)

  /** A regular file as a probe sees it; the digest is missing when the content cannot be read. */
  datatype File = File(size: int, modified: int, digest: Option<string>)

  type Files = map<string, File>
  type Entries = map<string, Entry>

  /** A recorded checksum decides alone; without one the size does. */
  predicate StillValid(files: Files, snap: CachedArtifact) {
    && snap.path in files
    && if snap.checksum.Some? then files[snap.path].digest == snap.checksum else files[snap.path].size == snap.size
  }

  ghost predicate AllValid(files: Files, outputs: seq<CachedArtifact>) {
    forall i :: 0 <= i < |outputs| ==> StillValid(files, outputs[i])
  }

  // ---- The operations on values ----

  datatype Op =
    | Lookup(files: Files, key: string, now: int)
    | Store(key: string, taskId: string, outcome: CachedOutcome, now: int)

  function Touched(e: Entry, now: int): Entry {
    e.(lastUsedAt := now, hits := e.hits + 1)
  }

  /** A new entry, or an old one with a new outcome. */
  function Written(entries: Entries, key: string, taskId: string, outcome: CachedOutcome, now: int): Entry {
    if key in entries then entries[key].(outcome := outcome, lastUsedAt := now)
    else Entry(taskId, outcome, now, now, 0)
  }

  /** What a lookup serves. */
  ghost function Served(entries: Entries, files: Files, key: string): Option<CachedOutcome> {
    if key in entries && AllValid(files, entries[key].outcome.outputs) then Some(entries[key].outcome) else None
  }

  ghost function After(entries: Entries, op: Op): Entries {
    match op
    case Lookup(files, key, now) =>
      if key !in entries then entries
      else if AllValid(files, entries[key].outcome.outputs) then entries[key := Touched(entries[key], now)]
      else entries - {key}
    case Store(key, taskId, outcome, now) =>
      if outcome.exitCode != 0 then entries else entries[key := Written(entries, key, taskId, outcome, now)]
  }

  ghost function AfterAll(entries: Entries, ops: seq<Op>): Entries {
    if ops == [] then entries else After(AfterAll(entries, ops[..|ops| - 1]), ops[|ops| - 1])
  }

  // ---- The store ----

  class CacheStore {
    const enabled: bool
    var entries: Entries

    constructor (enabled: bool)
      ensures this.enabled == enabled && entries == map[]
    {
      this.enabled, entries := enabled, map[];
    }

    method Lookup(files: Files, key: string, now: int) returns (r: Option<CachedOutcome>)
      modifies this
      ensures r == if enabled then Served(old(entries), files, key) else None
      ensures entries == if enabled then After(old(entries), Op.Lookup(files, key, now)) else old(entries)
    {
      if !enabled || key !in entries {
        return None;
      }
      var outcome := entries[key].outcome;
      for i := 0 to |outcome.outputs|
        invariant entries == old(entries)
        invariant forall j :: 0 <= j < i ==> StillValid(files, outcome.outputs[j])
      {
        if !StillValid(files, outcome.outputs[i]) {
          entries := entries - {key};
          return None;
        }
      }
      entries := entries[key := Touched(entries[key], now)];
      return Some(outcome);
    }

    method Store(key: string, taskId: string, outcome: CachedOutcome, now: int)
      modifies this
      ensures entries == if enabled then After(old(entries), Op.Store(key, taskId, outcome, now)) else old(entries)
    {
      if !enabled || outcome.exitCode != 0 {
        return;
      }
      entries := entries[key := Written(entries, key, taskId, outcome, now)];
    }
  }

  // ---- Whole histories ----

  /** The operation puts an outcome under the key. */
  predicate Writes(op: Op, key: string) {
    op.Store? && op.key == key && op.outcome.exitCode == 0
  }

  /** The operation finds the outcome stale. */
  ghost predicate Refutes(op: Op, key: string, outcome: CachedOutcome) {
    op.Lookup? && op.key == key && !AllValid(op.files, outcome.outputs)
  }

  /** The i-th operation wrote what the key still holds: nobody wrote later, nobody found it stale later. */
  ghost predicate Current(ops: seq<Op>, key: string, i: nat) {
    && i < |ops| && Writes(ops[i], key)
    && forall j :: i < j < |ops| ==> !Writes(ops[j], key) && !Refutes(ops[j], key, ops[i].outcome)
  }

  lemma CurrentMore(ops: seq<Op>, op: Op, key: string, i: nat)
    requires i < |ops|
    ensures Current(ops + [op], key, i) <==>
      Current(ops, key, i) && !Writes(op, key) && !Refutes(op, key, ops[i].outcome)
  {
    var all := ops + [op];
    assert all[|ops|] == op;
    assert forall j :: 0 <= j < |ops| ==> all[j] == ops[j];
  }

  lemma CurrentLast(ops: seq<Op>, op: Op, key: string)
    ensures Current(ops + [op], key, |ops|) <==> Writes(op, key)
  {
  }

  /** In every history from an empty store, a key holds an outcome exactly when some operation wrote it and
      none later wrote again or found it stale. */
  lemma {:induction false} HoldsExactly(ops: seq<Op>, key: string, outcome: CachedOutcome)
    ensures key in AfterAll(map[], ops) && AfterAll(map[], ops)[key].outcome == outcome
       <==> exists i: nat :: Current(ops, key, i) && ops[i].outcome == outcome
  {
    if ops != [] {
      var init, op := ops[..|ops| - 1], ops[|ops| - 1];
      assert ops == init + [op];
      HoldsExactly(init, key, outcome);
      HeldBefore(init, op, key, outcome);
    }
  }

  ghost predicate Held(entries: Entries, key: string, outcome: CachedOutcome) {
    key in entries && entries[key].outcome == outcome
  }

  lemma HeldAfter(entries: Entries, op: Op, key: string, outcome: CachedOutcome)
    ensures Held(After(entries, op), key, outcome) <==>
      || (Writes(op, key) && op.outcome == outcome)
      || (Held(entries, key, outcome) && !Writes(op, key) && !Refutes(op, key, outcome))
  {
  }

  lemma HeldBefore(init: seq<Op>, op: Op, key: string, outcome: CachedOutcome)
    requires Held(AfterAll(map[], init), key, outcome) <==> exists i: nat :: Current(init, key, i) && init[i].outcome == outcome
    ensures Held(AfterAll(map[], init + [op]), key, outcome)
       <==> exists i: nat :: Current(init + [op], key, i) && (init + [op])[i].outcome == outcome
  {
    var ops := init + [op];
    assert ops[..|ops| - 1] == init;
    HeldAfter(AfterAll(map[], init), op, key, outcome);
    CurrentLast(init, op, key);
    forall i: nat | i < |init| ensures Current(ops, key, i) <==>
      Current(init, key, i) && !Writes(op, key) && !Refutes(op, key, init[i].outcome)
    {
      CurrentMore(init, op, key, i);
    }
    if Writes(op, key) && op.outcome == outcome {
      assert Current(ops, key, |init|);
    } else if Held(AfterAll(map[], init), key, outcome) && !Writes(op, key) && !Refutes(op, key, outcome) {
      var i: nat :| Current(init, key, i) && init[i].outcome == outcome;
      assert Current(ops, key, i);
    }
  }

  /** A lookup serves an outcome exactly when that outcome is current and every output it recorded is in place. */
  lemma ServedExactly(ops: seq<Op>, files: Files, key: string, outcome: CachedOutcome)
    ensures Served(AfterAll(map[], ops), files, key) == Some(outcome)
       <==> (exists i: nat :: Current(ops, key, i) && ops[i].outcome == outcome) && AllValid(files, outcome.outputs)
  {
    HoldsExactly(ops, key, outcome);
  }

  /** Whatever happened before, what is held, and so what is served, is a success. */
  lemma {:induction false} OnlySuccesses(ops: seq<Op>, key: string)
    requires key in AfterAll(map[], ops)
    ensures AfterAll(map[], ops)[key].outcome.exitCode == 0
  {
    HoldsExactly(ops, key, AfterAll(map[], ops)[key].outcome);
  }

  /** An outcome found stale once is not served again, even if the files come back, until the key is written again. */
  lemma StaleForGood(before: seq<Op>, lookup: Op, after: seq<Op>, files: Files)
    requires lookup.Lookup? && Served(AfterAll(map[], before), lookup.files, lookup.key) == None
    requires forall j :: 0 <= j < |after| ==> !Writes(after[j], lookup.key)
    ensures Served(AfterAll(map[], before + [lookup] + after), files, lookup.key) == None
  {
    StaleGone(before, lookup, after);
  }

  lemma {:induction false} StaleGone(before: seq<Op>, lookup: Op, after: seq<Op>)
    requires lookup.Lookup? && Served(AfterAll(map[], before), lookup.files, lookup.key) == None
    requires forall j :: 0 <= j < |after| ==> !Writes(after[j], lookup.key)
    ensures lookup.key !in AfterAll(map[], before + [lookup] + after)
  {
    var ops := before + [lookup] + after;
    if after == [] {
      assert ops[..|ops| - 1] == before;
    } else {
      var init := after[..|after| - 1];
      assert ops[..|ops| - 1] == before + [lookup] + init;
      StaleGone(before, lookup, init);
    }
  }

  // ---- Recorded outputs and declared outputs ----

  function Paths(outputs: seq<CachedArtifact>): set<string> {
    set i | 0 <= i < |outputs| :: outputs[i].path
  }

  lemma ValidWithout(files: Files, outputs: seq<CachedArtifact>, path: string)
    requires AllValid(files, outputs) && path !in Paths(outputs)
    ensures AllValid(files - {path}, outputs)
  {
    forall i | 0 <= i < |outputs| ensures StillValid(files - {path}, outputs[i]) {
      assert outputs[i].path in Paths(outputs);
      assert StillValid(files, outputs[i]);
    }
  }

  /** Validation looks at recorded outputs only: it guarantees that a declared output exists exactly when that
      output was recorded. */
  lemma ValidMeansPresentExactly(files: Files, outputs: seq<CachedArtifact>, declared: set<string>)
    requires AllValid(files, outputs)
    ensures (forall f: Files :: AllValid(f, outputs) ==> declared <= f.Keys) <==> declared <= Paths(outputs)
  {
    if declared <= Paths(outputs) {
      forall f: Files, p | AllValid(f, outputs) && p in declared ensures p in f.Keys {
        var i :| 0 <= i < |outputs| && outputs[i].path == p;
        assert StillValid(f, outputs[i]);
      }
    } else {
      var p :| p in declared && p !in Paths(outputs);
      ValidWithout(files, outputs, p);
      assert p !in (files - {p}).Keys;
    }
  }

  /** After any history, a hit for the key guarantees what the task declares now exactly when everything declared
      now was recorded when the entry was written. */
  lemma HitMeansPresentExactly(ops: seq<Op>, key: string, files: Files, declared: set<string>)
    requires Served(AfterAll(map[], ops), files, key).Some?
    ensures (forall f: Files :: Served(AfterAll(map[], ops), f, key).Some? ==> declared <= f.Keys)
       <==> declared <= Paths(Served(AfterAll(map[], ops), files, key).value.outputs)
  {
    var outputs := AfterAll(map[], ops)[key].outcome.outputs;
    ValidMeansPresentExactly(files, outputs, declared);
    forall f: Files ensures Served(AfterAll(map[], ops), f, key).Some? <==> AllValid(f, outputs) {
    }
  }

  /** An output added to the declaration after the entry was written may be missing, and the entry is served. */
  lemma DeclaredLaterMayBeMissing(ops: seq<Op>, key: string, taskId: string, now: int, recorded: CachedArtifact, added: string)
    requires added != recorded.path
    ensures var files: Files := map[recorded.path := File(recorded.size, 0, recorded.checksum)];
            var store := Op.Store(key, taskId, CachedOutcome(0, [recorded]), now);
      && Served(AfterAll(map[], ops + [store]), files, key) == Some(CachedOutcome(0, [recorded]))
      && !({recorded.path, added} <= files.Keys)
  {
    var all := ops + [Op.Store(key, taskId, CachedOutcome(0, [recorded]), now)];
    var files: Files := map[recorded.path := File(recorded.size, 0, recorded.checksum)];
    assert all[..|all| - 1] == ops;
    assert added !in files.Keys;
  }
}
