/** What the cache holds during a run: every success is remembered under its key, and it stays so for as long as
    nobody touches the files behind it. */
module CachedRuns {
  import opened CacheStores
  import opened Domain
  import opened SchedulerHistory
  import opened SchedulerInvariant
  import opened SchedulerModel
  import opened SchedulerRefinement
  import opened SchedulerSteps
  import opened SchedulerTheorems
  import opened ReadyQueues
  import opened TaskFiles

  /** A success as the cache remembers it: the last look at its files, its key and its outputs as recorded. */
  datatype Kept = Kept(look: nat, key: string, outputs: seq<CachedArtifact>)

  /** After a success nobody changes the outputs recorded for it. */
  ghost predicate Lasting(w: World, kept: map<nat, Kept>) {
    forall v, t: nat :: v in kept && t > kept[v].look ==> AllValid(w.files(t), kept[v].outputs)
  }

  /** Under v's key the cache holds the outputs of v, or of another success with the same key. */
  ghost predicate HeldFor(entries: Entries, kept: map<nat, Kept>, v: nat)
    requires v in kept
  {
    kept[v].key in entries && exists u :: u in kept && entries[kept[v].key].outcome.outputs == kept[u].outputs
  }

  /** Successes so far are in the cache, unless somebody has changed their outputs. */
  ghost predicate Stored(w: World, entries: Entries, kept: map<nat, Kept>, looks: nat) {
    && (forall v :: v in kept ==> kept[v].look < looks)
    && (Lasting(w, kept) ==> forall v :: v in kept ==> HeldFor(entries, kept, v))
  }

  /** What is kept of each success comes from the files: a hit served what validated under the key its inputs gave; a
      store recorded the declared outputs, under the key the inputs gave just after. */
  ghost predicate Grounded(w: World, d: Declarations, kept: map<nat, Kept>) {
    forall v :: v in kept ==> GroundedAt(w, d, v, kept[v])
  }

  ghost predicate GroundedAt(w: World, d: Declarations, v: nat, k: Kept) {
    && k.look > 0
    && ((k.key == d.keyOf(w.files(k.look - 1), v) && AllValid(w.files(k.look), k.outputs))
        || (k.key == d.keyOf(w.files(k.look), v) && k.outputs == Snapshot(d, w.files(k.look - 1), v)))
  }

  /** A success that the cache takes part in. */
  predicate Caches(c: Config, enabled: bool, v: nat) {
    enabled && v < |c.tasks| && c.tasks[v].cacheEnabled
  }

  /** Exactly the successes that the cache takes part in are kept. */
  ghost predicate Remembered(c: Config, s: State, enabled: bool, kept: map<nat, Kept>) {
    forall v: nat :: v in kept <==> v < |s.nodes| && IsSuccessLike(s.nodes[v].state) && Caches(c, enabled, v)
  }

  /** The cache has kept up with a run that is in state s. */
  ghost predicate Holding(c: Config, w: World, d: Declarations, s: State, enabled: bool,
                          entries: Entries, kept: map<nat, Kept>, looks: nat) {
    Remembered(c, s, enabled, kept) && Stored(w, entries, kept, looks) && Grounded(w, d, kept)
  }

  lemma LastingBefore(w: World, kept: map<nat, Kept>, v: nat, k: Kept)
    requires v !in kept && Lasting(w, kept[v := k])
    ensures Lasting(w, kept)
  {
    forall u, t: nat | u in kept && t > kept[u].look ensures AllValid(w.files(t), kept[u].outputs) {
      assert kept[v := k][u] == kept[u];
    }
  }

  /** A lookup that does not find an entry stale leaves its outcome alone. */
  lemma LookupOutcome(entries: Entries, files: Files, key: string, now: int, other: string)
    requires other in entries && (other == key ==> AllValid(files, entries[other].outcome.outputs))
    ensures var after := After(entries, Op.Lookup(files, key, now));
      other in after && after[other].outcome == entries[other].outcome
  {
  }

  /** The cache still holds for v what it held before. */
  lemma StillHeld(before: Entries, after: Entries, kept: map<nat, Kept>, more: map<nat, Kept>, v: nat)
    requires v in kept && HeldFor(before, kept, v)
    requires kept[v].key in after && after[kept[v].key].outcome == before[kept[v].key].outcome
    requires forall u :: u in kept ==> u in more && more[u] == kept[u]
    ensures HeldFor(after, more, v)
  {
    var u :| u in kept && before[kept[v].key].outcome.outputs == kept[u].outputs;
    assert u in more && after[more[v].key].outcome.outputs == more[u].outputs;
  }

  /** What the cache holds for a lasting success validates at any later look. */
  lemma HeldIsValid(w: World, entries: Entries, kept: map<nat, Kept>, looks: nat, t: nat, v: nat)
    requires Stored(w, entries, kept, looks) && Lasting(w, kept) && looks <= t && v in kept
    ensures kept[v].key in entries && AllValid(w.files(t), entries[kept[v].key].outcome.outputs)
  {
    assert HeldFor(entries, kept, v);
    var u :| u in kept && entries[kept[v].key].outcome.outputs == kept[u].outputs;
    assert t > kept[u].look;
  }

  /** A lookup deletes no success whose outputs last. */
  lemma LookupKeeps(w: World, entries: Entries, kept: map<nat, Kept>, looks: nat, t: nat, key: string, now: int)
    requires Stored(w, entries, kept, looks) && looks <= t
    ensures Stored(w, After(entries, Op.Lookup(w.files(t), key, now)), kept, t + 1)
  {
    if Lasting(w, kept) {
      forall v | v in kept ensures HeldFor(After(entries, Op.Lookup(w.files(t), key, now)), kept, v) {
        HeldIsValid(w, entries, kept, looks, t, v);
        LookupOutcome(entries, w.files(t), key, now, kept[v].key);
        StillHeld(entries, After(entries, Op.Lookup(w.files(t), key, now)), kept, kept, v);
      }
    }
  }

  /** One more success is in the cache under its key. */
  lemma KeepsMore(w: World, entries: Entries, kept: map<nat, Kept>, t: nat, v: nat, key: string, outputs: seq<CachedArtifact>)
    requires (forall u :: u in kept ==> kept[u].look < t) && v !in kept
    requires key in entries && entries[key].outcome.outputs == outputs
    requires Lasting(w, kept) ==> forall u :: u in kept && kept[u].key != key ==> HeldFor(entries, kept, u)
    ensures Stored(w, entries, kept[v := Kept(t, key, outputs)], t + 1)
  {
    var more := kept[v := Kept(t, key, outputs)];
    if Lasting(w, more) {
      LastingBefore(w, kept, v, more[v]);
      forall u | u in more ensures HeldFor(entries, more, u) {
        if more[u].key == key {
          assert v in more && entries[more[u].key].outcome.outputs == more[v].outputs;
        } else {
          StillHeld(entries, entries, kept, more, u);
        }
      }
    }
  }

  /** A hit keeps what it served. */
  lemma HitKeeps(w: World, entries: Entries, kept: map<nat, Kept>, looks: nat, t: nat, key: string, now: int, v: nat)
    requires Stored(w, entries, kept, looks) && looks <= t && v !in kept && Served(entries, w.files(t), key).Some?
    ensures Stored(w, After(entries, Op.Lookup(w.files(t), key, now)),
                   kept[v := Kept(t, key, entries[key].outcome.outputs)], t + 1)
  {
    LookupKeeps(w, entries, kept, looks, t, key, now);
    LookupOutcome(entries, w.files(t), key, now, key);
    KeepsMore(w, After(entries, Op.Lookup(w.files(t), key, now)), kept, t, v, key, entries[key].outcome.outputs);
  }

  /** A store keeps what it writes. */
  lemma StoreKeeps(w: World, entries: Entries, kept: map<nat, Kept>, looks: nat, t: nat, key: string, taskId: string,
                   outputs: seq<CachedArtifact>, now: int, v: nat)
    requires Stored(w, entries, kept, looks) && looks <= t && v !in kept
    ensures Stored(w, After(entries, Op.Store(key, taskId, CachedOutcome(0, outputs), now)),
                   kept[v := Kept(t, key, outputs)], t + 1)
  {
    var after := After(entries, Op.Store(key, taskId, CachedOutcome(0, outputs), now));
    if Lasting(w, kept) {
      forall u | u in kept && kept[u].key != key ensures HeldFor(after, kept, u) {
        StillHeld(entries, after, kept, kept, u);
      }
    }
    KeepsMore(w, after, kept, t, v, key, outputs);
  }

  // ---- one look at a queued task, one success ----

  ghost function LookedUp(entries: Entries, files: Files, key: string, now: int): Entries {
    After(entries, Op.Lookup(files, key, now))
  }

  ghost function WrittenOver(entries: Entries, key: string, taskId: string, outputs: seq<CachedArtifact>, now: int): Entries {
    After(entries, Op.Store(key, taskId, CachedOutcome(0, outputs), now))
  }

  ghost predicate SomeLookup(entries: Entries, files: Files, key: string, entries': Entries) {
    exists now :: entries' == LookedUp(entries, files, key, now)
  }

  ghost predicate SomeStore(entries: Entries, key: string, taskId: string, outputs: seq<CachedArtifact>, entries': Entries) {
    exists now :: entries' == WrittenOver(entries, key, taskId, outputs, now)
  }

  /** What a look at v's inputs and cache entry finds and leaves behind. */
  ghost predicate LookDone(w: World, d: Declarations, caches: bool, v: nat,
                           entries: Entries, kept: map<nat, Kept>, looks: nat,
                           hit: bool, entries': Entries, kept': map<nat, Kept>, looks': nat) {
    if !InputsPresent(d, w.files(looks), v) || !caches then
      !hit && entries' == entries && kept' == kept && looks' == looks + 1
    else
      var key := d.keyOf(w.files(looks), v);
      var served := Served(entries, w.files(looks + 1), key);
      && hit == served.Some? && looks' == looks + 2
      && SomeLookup(entries, w.files(looks + 1), key, entries')
      && kept' == if hit then kept[v := Kept(looks + 1, key, served.value.outputs)] else kept
  }

  /** What storing v's success leaves behind. */
  ghost predicate StoreDone(w: World, d: Declarations, caches: bool, v: nat, taskId: string,
                            entries: Entries, kept: map<nat, Kept>, looks: nat,
                            entries': Entries, kept': map<nat, Kept>, looks': nat) {
    if !caches then entries' == entries && kept' == kept && looks' == looks
    else
      var outputs, key := Snapshot(d, w.files(looks), v), d.keyOf(w.files(looks + 1), v);
      && looks' == looks + 2 && kept' == kept[v := Kept(looks + 1, key, outputs)]
      && SomeStore(entries, key, taskId, outputs, entries')
  }

  lemma LookKeeps(w: World, d: Declarations, caches: bool, v: nat, entries: Entries, kept: map<nat, Kept>, looks: nat,
                  hit: bool, entries': Entries, kept': map<nat, Kept>, looks': nat)
    requires LookDone(w, d, caches, v, entries, kept, looks, hit, entries', kept', looks')
    requires Stored(w, entries, kept, looks) && v !in kept
    ensures Stored(w, entries', kept', looks')
  {
    if InputsPresent(d, w.files(looks), v) && caches {
      var key := d.keyOf(w.files(looks), v);
      var now :| entries' == LookedUp(entries, w.files(looks + 1), key, now);
      if hit {
        HitKeeps(w, entries, kept, looks, looks + 1, key, now, v);
      } else {
        LookupKeeps(w, entries, kept, looks, looks + 1, key, now);
      }
    }
  }

  lemma SuccessKeeps(w: World, d: Declarations, caches: bool, v: nat, taskId: string,
                     entries: Entries, kept: map<nat, Kept>, looks: nat,
                     entries': Entries, kept': map<nat, Kept>, looks': nat)
    requires StoreDone(w, d, caches, v, taskId, entries, kept, looks, entries', kept', looks')
    requires Stored(w, entries, kept, looks) && v !in kept
    ensures Stored(w, entries', kept', looks')
  {
    if caches {
      var outputs, key := Snapshot(d, w.files(looks), v), d.keyOf(w.files(looks + 1), v);
      var now :| entries' == WrittenOver(entries, key, taskId, outputs, now);
      StoreKeeps(w, entries, kept, looks, looks + 1, key, taskId, outputs, now, v);
    }
  }

  lemma LookGrounds(w: World, d: Declarations, caches: bool, v: nat, entries: Entries, kept: map<nat, Kept>, looks: nat,
                    hit: bool, entries': Entries, kept': map<nat, Kept>, looks': nat)
    requires LookDone(w, d, caches, v, entries, kept, looks, hit, entries', kept', looks') && Grounded(w, d, kept)
    ensures Grounded(w, d, kept')
  {
  }

  lemma SuccessGrounds(w: World, d: Declarations, caches: bool, v: nat, taskId: string,
                       entries: Entries, kept: map<nat, Kept>, looks: nat,
                       entries': Entries, kept': map<nat, Kept>, looks': nat)
    requires StoreDone(w, d, caches, v, taskId, entries, kept, looks, entries', kept', looks') && Grounded(w, d, kept)
    ensures Grounded(w, d, kept')
  {
  }

  /** Over files that stay as they are, inputs and declared outputs in place, every success lasts and nothing
      changes for the next run. */
  lemma SameFilesReuse(w: World, next: World, d: Declarations, kept: map<nat, Kept>, files: Files)
    requires Grounded(w, d, kept)
    requires forall t: nat :: w.files(t) == files && next.files(t) == files
    requires forall v :: v in kept ==> InputsPresent(d, files, v) && OutputsPresent(d, files, v)
    ensures Lasting(w, kept) && Unchanged(next, d, kept)
  {
    forall v | v in kept ensures d.keyOf(files, v) == kept[v].key && AllValid(files, kept[v].outputs) {
      assert GroundedAt(w, d, v, kept[v]);
      assert w.files(kept[v].look) == files && w.files(kept[v].look - 1) == files;
      SnapshotValidExactly(d, files, v);
    }
    forall v, t: nat | v in kept
      ensures AllValid(w.files(t), kept[v].outputs) && AllValid(next.files(t), kept[v].outputs)
    {
      assert w.files(t) == files && next.files(t) == files;
    }
    forall v, t: nat | v in kept ensures InputsPresent(d, next.files(t), v) && d.keyOf(next.files(t), v) == kept[v].key {
      assert next.files(t) == files;
    }
  }

  // ---- when everything is in the cache ----

  /** v's inputs are there, and its entry validates whenever it is looked at. */
  ghost predicate ServedAt(w: World, d: Declarations, entries: Entries, looks: nat, v: nat, t: nat) {
    && InputsPresent(d, w.files(t), v) && d.keyOf(w.files(t), v) in entries
    && forall x: nat :: x >= looks ==> AllValid(w.files(x), entries[d.keyOf(w.files(t), v)].outcome.outputs)
  }

  /** From this look on every task of the pipeline is served from the cache. */
  ghost predicate AllServed(c: Config, w: World, d: Declarations, entries: Entries, looks: nat) {
    forall v: nat, t: nat :: v < |c.tasks| && t >= looks ==> c.tasks[v].cacheEnabled && ServedAt(w, d, entries, looks, v, t)
  }

  /** If the files stay as they are and each task's current key is served now, every task is served from now on. */
  lemma QuietFilesServe(c: Config, w: World, d: Declarations, entries: Entries, looks: nat)
    requires forall t: nat :: t >= looks ==> w.files(t) == w.files(looks)
    requires forall v: nat :: v < |c.tasks| ==>
      && c.tasks[v].cacheEnabled && InputsPresent(d, w.files(looks), v)
      && Served(entries, w.files(looks), d.keyOf(w.files(looks), v)).Some?
    ensures AllServed(c, w, d, entries, looks)
  {
    forall v: nat, t: nat | v < |c.tasks| && t >= looks ensures ServedAt(w, d, entries, looks, v, t) {
      assert w.files(t) == w.files(looks);
      forall x: nat | x >= looks ensures AllValid(w.files(x), entries[d.keyOf(w.files(t), v)].outcome.outputs) {
        assert w.files(x) == w.files(looks);
      }
    }
  }

  /** Then each look is a hit, and the next look will be one as well. */
  lemma ServedLook(c: Config, w: World, d: Declarations, caches: bool, v: nat, entries: Entries, kept: map<nat, Kept>, looks: nat,
                   hit: bool, entries': Entries, kept': map<nat, Kept>, looks': nat)
    requires AllServed(c, w, d, entries, looks) && v < |c.tasks| && (c.tasks[v].cacheEnabled ==> caches)
    requires LookDone(w, d, caches, v, entries, kept, looks, hit, entries', kept', looks')
    ensures hit && AllServed(c, w, d, entries', looks')
  {
    assert ServedAt(w, d, entries, looks, v, looks);
    var key := d.keyOf(w.files(looks), v);
    var now :| entries' == LookedUp(entries, w.files(looks + 1), key, now);
    forall u: nat, t: nat | u < |c.tasks| && t >= looks' ensures ServedAt(w, d, entries', looks', u, t) {
      assert ServedAt(w, d, entries, looks, u, t);
      LookupOutcome(entries, w.files(looks + 1), key, now, d.keyOf(w.files(t), u));
    }
    forall u: nat | u < |c.tasks| ensures c.tasks[u].cacheEnabled {
      assert ServedAt(w, d, entries, looks, u, looks);
    }
  }

  /** Nothing that a success rests on has changed: its inputs give the same key, its recorded outputs validate. */
  ghost predicate Unchanged(w: World, d: Declarations, kept: map<nat, Kept>) {
    forall v, t: nat :: v in kept ==>
      InputsPresent(d, w.files(t), v) && d.keyOf(w.files(t), v) == kept[v].key && AllValid(w.files(t), kept[v].outputs)
  }

  /** A run whose tasks all succeeded leaves a cache that serves the next run, if nothing has changed. */
  lemma NextRunServed(c: Config, w: World, next: World, d: Declarations, s: State, entries: Entries,
                      kept: map<nat, Kept>, looks: nat)
    requires Remembered(c, s, true, kept) && Stored(w, entries, kept, looks) && Lasting(w, kept)
    requires |s.nodes| == |c.tasks| && forall v: nat :: v < |s.nodes| ==> IsSuccessLike(s.nodes[v].state)
    requires forall v: nat :: v < |c.tasks| ==> c.tasks[v].cacheEnabled
    requires Unchanged(next, d, kept)
    ensures AllServed(c, next, d, entries, 0)
  {
    forall v: nat, t: nat | v < |c.tasks| ensures ServedAt(next, d, entries, 0, v, t) {
      assert v in kept && HeldFor(entries, kept, v);
      assert d.keyOf(next.files(t), v) == kept[v].key;
      var u :| u in kept && entries[kept[v].key].outcome.outputs == kept[u].outputs;
      forall x: nat ensures AllValid(next.files(x), entries[kept[v].key].outcome.outputs) {
        assert AllValid(next.files(x), kept[u].outputs);
      }
    }
  }

  // ---- steps of the scheduler ----

  /** The task that a step makes success-like, if any. */
  ghost function Winner(s: State, step: Step): Option<nat> {
    match step
    case CacheHit(i, _) => if i < |s.queue| then Some(s.queue[i].node) else None
    case Finish(v, kind, _, _) => if kind.SucceededResult? then Some(v) else None
    case _ => None
  }

  /** A step makes its winner success-like and no other task; success-like tasks stay so. */
  lemma SuccessesOfStep(c: Config, s: State, step: Step, v: nat)
    requires Inv(c, s) && Enabled(c, s, step) && v < |s.nodes|
    ensures IsSuccessLike(Apply(c, s, step).nodes[v].state)
       <==> IsSuccessLike(s.nodes[v].state) || Winner(s, step) == Some(v)
    ensures Winner(s, step) == Some(v) ==> !IsSuccessLike(s.nodes[v].state)
  {
    assert OkAt(c, s, v);
    StepMoves(c, s, step, v);
    WinnerMoves(c, s, step, v);
  }

  lemma WinnerMoves(c: Config, s: State, step: Step, v: nat)
    requires Inv(c, s) && Enabled(c, s, step) && v < |s.nodes|
    ensures IsSuccessLike(Apply(c, s, step).nodes[v].state) ==> IsSuccessLike(s.nodes[v].state) || Winner(s, step) == Some(v)
    ensures Winner(s, step) == Some(v) ==>
      !IsSuccessLike(s.nodes[v].state) && IsSuccessLike(Apply(c, s, step).nodes[v].state)
  {
    match step
    case CacheHit(i, unlocked) => HitWins(c, s, i, unlocked, v);
    case Launch(i) => EntryIsItsNode(c, s, i);
    case FailInline(i, kind) => EntryIsItsNode(c, s, i);
    case Finish(u, kind, notBefore, unlocked) => FinishWins(c, s, u, kind, notBefore, unlocked, v);
    case Promote(u, stamp) =>
    case BeginCancel =>
  }

  lemma HitWins(c: Config, s: State, i: nat, unlocked: seq<ReadyEntry>, v: nat)
    requires Inv(c, s) && Enabled(c, s, CacheHit(i, unlocked)) && v < |s.nodes|
    ensures IsSuccessLike(HitCache(c, s, i, unlocked).nodes[v].state) <==> IsSuccessLike(s.nodes[v].state) || s.queue[i].node == v
    ensures s.queue[i].node == v ==> !IsSuccessLike(s.nodes[v].state)
  {
    EntryIsItsNode(c, s, i);
    DependentFacts(c, s, s.queue[i].node);
  }

  lemma FinishWins(c: Config, s: State, u: nat, kind: ResultKind, notBefore: int, unlocked: seq<ReadyEntry>, v: nat)
    requires Inv(c, s) && Enabled(c, s, Finish(u, kind, notBefore, unlocked)) && v < |s.nodes|
    ensures IsSuccessLike(Finished(c, s, u, kind, notBefore, unlocked).nodes[v].state)
       ==> IsSuccessLike(s.nodes[v].state) || (kind.SucceededResult? && u == v)
    ensures kind.SucceededResult? && u == v ==>
      !IsSuccessLike(s.nodes[v].state) && IsSuccessLike(Finished(c, s, u, kind, notBefore, unlocked).nodes[v].state)
  {
    DependentFacts(c, s, u);
  }

  lemma RememberedStep(c: Config, s: State, step: Step, enabled: bool, kept: map<nat, Kept>, kept': map<nat, Kept>)
    requires Inv(c, s) && Enabled(c, s, step) && Remembered(c, s, enabled, kept)
    requires forall v: nat :: v in kept' <==> v in kept || (Winner(s, step) == Some(v) && Caches(c, enabled, v))
    ensures Remembered(c, Apply(c, s, step), enabled, kept')
    ensures forall v: nat :: Winner(s, step) == Some(v) ==> v !in kept
  {
    var t := Apply(c, s, step);
    forall v: nat | v < |s.nodes| ensures IsSuccessLike(t.nodes[v].state) <==>
      IsSuccessLike(s.nodes[v].state) || Winner(s, step) == Some(v)
    {
      SuccessesOfStep(c, s, step, v);
    }
    forall v: nat | Winner(s, step) == Some(v) ensures v !in kept && v < |s.nodes| {
      if v < |s.nodes| { SuccessesOfStep(c, s, step, v); }
    }
  }

  /** The logged steps and one more. */
  lemma RememberedLog(c: Config, first: State, log: seq<Step>, step: Step, enabled: bool,
                      kept: map<nat, Kept>, kept': map<nat, Kept>)
    requires IsSeeded(c, first) && Exec(c, first, log).Some? && Exec(c, first, log + [step]).Some?
    requires Remembered(c, Exec(c, first, log).value, enabled, kept)
    requires forall v: nat :: v in kept' <==>
      v in kept || (Winner(Exec(c, first, log).value, step) == Some(v) && Caches(c, enabled, v))
    ensures Remembered(c, Exec(c, first, log + [step]).value, enabled, kept')
    ensures forall v: nat :: Winner(Exec(c, first, log).value, step) == Some(v) ==> v !in kept
  {
    var s := Exec(c, first, log).value;
    RunInv(c, first, log, s);
    ExecLast(c, first, log + [step], log, step);
    RememberedStep(c, s, step, enabled, kept, kept');
  }

  /** Looking at queue entry i, and acting on it or not, keeps the cache in step with the run. */
  lemma RememberedLook(c: Config, first: State, log: seq<Step>, w: World, d: Declarations, enabled: bool, s: State, i: nat,
                       entries: Entries, kept: map<nat, Kept>, looks: nat, blocked: bool, step: Step,
                       entries': Entries, kept': map<nat, Kept>, looks': nat)
    requires IsSeeded(c, first) && Exec(c, first, log) == Some(s) && i < |s.queue| && s.queue[i].node < |c.tasks|
    requires Holding(c, w, d, s, enabled, entries, kept, looks)
    requires LookDone(w, d, Caches(c, enabled, s.queue[i].node), s.queue[i].node, entries, kept, looks,
                      !blocked && step.CacheHit?, entries', kept', looks')
    requires !blocked ==> Exec(c, first, log + [step]).Some? && !step.Finish? && (step.CacheHit? ==> step.i == i)
    ensures Holding(c, w, d, if blocked then s else Exec(c, first, log + [step]).value, enabled, entries', kept', looks')
  {
    var v := s.queue[i].node;
    RunInv(c, first, log, s);
    EntryIsItsNode(c, s, i);
    LookGrounds(w, d, Caches(c, enabled, v), v, entries, kept, looks, !blocked && step.CacheHit?, entries', kept', looks');
    LookKeeps(w, d, Caches(c, enabled, v), v, entries, kept, looks, !blocked && step.CacheHit?, entries', kept', looks');
    if !blocked { RememberedLog(c, first, log, step, enabled, kept, kept'); }
  }

  /** A success that is stored. */
  lemma RememberedSuccess(c: Config, first: State, log: seq<Step>, w: World, d: Declarations, enabled: bool, s: State, step: Step,
                          entries: Entries, kept: map<nat, Kept>, looks: nat,
                          entries': Entries, kept': map<nat, Kept>, looks': nat)
    requires IsSeeded(c, first) && Exec(c, first, log) == Some(s) && Exec(c, first, log + [step]).Some?
    requires step.Finish? && step.kind.SucceededResult? && step.v < |c.dag.nodes|
    requires Holding(c, w, d, s, enabled, entries, kept, looks)
    requires StoreDone(w, d, Caches(c, enabled, step.v), step.v, c.dag.nodes[step.v], entries, kept, looks, entries', kept', looks')
    ensures Holding(c, w, d, Exec(c, first, log + [step]).value, enabled, entries', kept', looks')
  {
    RememberedLog(c, first, log, step, enabled, kept, kept');
    SuccessGrounds(w, d, Caches(c, enabled, step.v), step.v, c.dag.nodes[step.v], entries, kept, looks, entries', kept', looks');
    SuccessKeeps(w, d, Caches(c, enabled, step.v), step.v, c.dag.nodes[step.v], entries, kept, looks, entries', kept', looks');
  }

  /** Before the first step there is nothing to remember. */
  lemma NothingRemembered(c: Config, first: State, w: World, d: Declarations, enabled: bool, entries: Entries, looks: nat)
    requires IsSeeded(c, first)
    ensures Holding(c, w, d, first, enabled, entries, map[], looks)
  {
    SeededOnlyHits(c, first);
    var es :| SeededWith(c, es, first);
  }
}
