/** The keys that tasks are cached under, from their definitions and the files that they read. */
module TaskKeys {
  import opened Domain
  import opened Sequences
  import opened CacheKeys
  import opened CacheStores
  import opened CachedRuns
  import opened SchedulerRefinement
  import opened TaskFiles
  import Sha256

  // ---- Numbers as text ----

  function Digit(d: nat): char
    requires d < 10
  {
    "0123456789"[d]
  }

  function Digits(n: nat): (r: string)
    ensures r != "" && '-' !in r && '|' !in r && (|r| == 1 <==> n < 10)
  {
    if n < 10 then [Digit(n)] else Digits(n / 10) + [Digit(n % 10)]
  }

  function Decimal(n: int): string {
    if n < 0 then "-" + Digits(-n) else Digits(n)
  }

  lemma DigitsDiffer(a: nat, b: nat)
    requires a < 10 && b < 10 && Digit(a) == Digit(b)
    ensures a == b
  {
  }

  lemma {:induction false} DigitsInjective(a: nat, b: nat)
    requires Digits(a) == Digits(b)
    ensures a == b
    decreases a
  {
    var s, t := Digits(a), Digits(b);
    assert s[|s| - 1] == Digit(a % 10) && t[|t| - 1] == Digit(b % 10);
    DigitsDiffer(a % 10, b % 10);
    if a >= 10 && b >= 10 {
      assert s[..|s| - 1] == Digits(a / 10) && t[..|t| - 1] == Digits(b / 10);
      DigitsInjective(a / 10, b / 10);
    }
  }

  lemma DecimalInjective(a: int, b: int)
    ensures Decimal(a) == Decimal(b) <==> a == b
    ensures '|' !in Decimal(a)
  {
    if Decimal(a) == Decimal(b) {
      assert Decimal(a)[0] == '-' <==> a < 0 by { assert a >= 0 ==> Decimal(a)[0] in Digits(a); }
      assert Decimal(b)[0] == '-' <==> b < 0 by { assert b >= 0 ==> Decimal(b)[0] in Digits(b); }
      if a < 0 {
        assert Decimal(a)[1..] == Digits(-a) && Decimal(b)[1..] == Digits(-b);
        DigitsInjective(-a, -b);
      } else {
        DigitsInjective(a, b);
      }
    }
  }

  // ---- The identity of an input ----

  datatype Input = Input(logicalName: string, path: string, wantsChecksum: bool)

  /** What a probe finds of an input that its identity depends on. */
  datatype Seen = Absent | Checksum(digest: string) | Stamp(size: int, modified: int)

  function Probe(files: Files, i: Input): Seen {
    if i.path !in files then Absent
    else if i.wantsChecksum && files[i.path].digest.Some? then Checksum(files[i.path].digest.value)
    else Stamp(files[i.path].size, files[i.path].modified)
  }

  function SeenText(seen: Seen): string {
    match seen
    case Absent => "absent"
    case Checksum(digest) => "sha256:" + digest
    case Stamp(size, modified) => "size:" + Decimal(size) + "|" + "mtime:" + Decimal(modified)
  }

  function Identity(files: Files, i: Input): string {
    i.logicalName + "|" + i.path + "|" + SeenText(Probe(files, i))
  }

  function Identities(files: Files, inputs: seq<Input>): (r: seq<string>)
    ensures |r| == |inputs|
  {
    seq(|inputs|, k requires 0 <= k < |inputs| => Identity(files, inputs[k]))
  }

  lemma StampsDiffer(size: int, modified: int, size': int, modified': int)
    requires SeenText(Stamp(size, modified)) == SeenText(Stamp(size', modified'))
    ensures size == size' && modified == modified'
  {
    DecimalInjective(size, size');
    DecimalInjective(size', size);
    DecimalInjective(modified, modified');
    TwoNumbers("size:", Decimal(size), "mtime:", Decimal(modified), Decimal(size'), Decimal(modified'));
  }

  lemma TwoNumbers(p: string, a: string, q: string, x: string, b: string, y: string)
    requires '|' !in a && '|' !in b && p + a + "|" + q + x == p + b + "|" + q + y
    ensures a == b && x == y
  {
    assert (p + a + "|" + q + x)[|p|..] == a + ['|'] + (q + x);
    assert (p + b + "|" + q + y)[|p|..] == b + ['|'] + (q + y);
    SplitFirst('|', a, q + x, b, q + y);
    assert (q + x)[|q|..] == x && (q + y)[|q|..] == y;
  }

  /** The text tells apart whatever a probe tells apart. */
  lemma SeenTextInjective(a: Seen, b: Seen)
    ensures SeenText(a) == SeenText(b) <==> a == b
  {
    if SeenText(a) == SeenText(b) {
      assert SeenText(a)[0] == SeenText(b)[0] && SeenText(a)[1] == SeenText(b)[1];
      match a
      case Absent =>
      case Checksum(digest) => assert SeenText(a)[7..] == digest && SeenText(b)[7..] == b.digest;
      case Stamp(size, modified) => StampsDiffer(size, modified, b.size, b.modified);
    }
  }

  lemma SameIdentityExactly(files: Files, now: Files, i: Input)
    ensures Identity(files, i) == Identity(now, i) <==> Probe(files, i) == Probe(now, i)
  {
    var p := i.logicalName + "|" + i.path + "|";
    assert Identity(files, i)[|p|..] == SeenText(Probe(files, i));
    assert Identity(now, i)[|p|..] == SeenText(Probe(now, i));
    SeenTextInjective(Probe(files, i), Probe(now, i));
  }

  // ---- The text follows the files ----

  /** Different inputs have different names, which the separator does not occur in. */
  ghost predicate Named(inputs: seq<Input>) {
    && (forall k :: 0 <= k < |inputs| ==> '|' !in inputs[k].logicalName)
    && forall j, k :: 0 <= j < k < |inputs| ==> inputs[j].logicalName != inputs[k].logicalName
  }

  lemma IdentityTellsName(files: Files, i: Input, now: Files, k: Input)
    requires '|' !in i.logicalName && '|' !in k.logicalName && Identity(files, i) == Identity(now, k)
    ensures i.logicalName == k.logicalName
  {
    SplitName(i.logicalName, i.path, SeenText(Probe(files, i)), k.logicalName, k.path, SeenText(Probe(now, k)));
  }

  lemma SplitName(a: string, p: string, s: string, b: string, q: string, t: string)
    requires '|' !in a && '|' !in b && a + "|" + p + "|" + s == b + "|" + q + "|" + t
    ensures a == b
  {
    assert a + "|" + p + "|" + s == a + ['|'] + (p + "|" + s);
    assert b + "|" + q + "|" + t == b + ['|'] + (q + "|" + t);
    SplitFirst('|', a, p + "|" + s, b, q + "|" + t);
  }

  /** Every input looks to a probe as it did. */
  ghost predicate LooksSame(files: Files, now: Files, inputs: seq<Input>) {
    forall k :: 0 <= k < |inputs| ==> Probe(files, inputs[k]) == Probe(now, inputs[k])
  }

  lemma SameIdentities(files: Files, now: Files, inputs: seq<Input>)
    requires LooksSame(files, now, inputs)
    ensures Identities(files, inputs) == Identities(now, inputs)
  {
    forall k | 0 <= k < |inputs| ensures Identity(files, inputs[k]) == Identity(now, inputs[k]) {
      assert Probe(files, inputs[k]) == Probe(now, inputs[k]);
    }
  }

  lemma SameMultisetLooksSame(files: Files, now: Files, inputs: seq<Input>)
    requires Named(inputs) && multiset(Identities(files, inputs)) == multiset(Identities(now, inputs))
    ensures LooksSame(files, now, inputs)
  {
    var a, b := Identities(files, inputs), Identities(now, inputs);
    forall k | 0 <= k < |inputs| ensures Probe(files, inputs[k]) == Probe(now, inputs[k]) {
      assert a[k] in multiset(b);
      var j :| 0 <= j < |b| && b[j] == a[k];
      IdentityTellsName(files, inputs[k], now, inputs[j]);
      assert j == k;
      SameIdentityExactly(files, now, inputs[k]);
    }
  }

  /** The key's text changes exactly when some declared input looks different: another checksum where one is wanted,
      another size or modification time otherwise, or it has come or gone. */
  lemma TextFollowsFiles(c: Command, inputs: seq<Input>, files: Files, now: Files)
    requires Named(inputs) && Clean(c, Identities(files, inputs)) && Clean(c, Identities(now, inputs))
    ensures Blob(c, Identities(files, inputs)) == Blob(c, Identities(now, inputs)) <==> LooksSame(files, now, inputs)
  {
    BlobExactly(c, Identities(files, inputs), c, Identities(now, inputs));
    if LooksSame(files, now, inputs) { SameIdentities(files, now, inputs); }
    if SameText(c, Identities(files, inputs), c, Identities(now, inputs)) { SameMultisetLooksSame(files, now, inputs); }
  }

  // ---- The keys of a pipeline ----

  function KeyAt(commands: seq<Command>, inputs: seq<seq<Input>>, files: Files, v: nat): string {
    if v < |commands| && v < |inputs| then CacheKey(commands[v], Identities(files, inputs[v])) else ""
  }

  function PathsOf(inputs: seq<Input>): (r: seq<string>)
    ensures |r| == |inputs|
  {
    seq(|inputs|, k requires 0 <= k < |inputs| => inputs[k].path)
  }

  /** What the scheduler is given: the declared paths, and the key of each task as the source computes it. */
  function Declared(commands: seq<Command>, inputs: seq<seq<Input>>, outputs: seq<seq<Output>>): Declarations {
    Declarations(seq(|inputs|, v requires 0 <= v < |inputs| => PathsOf(inputs[v])), outputs,
                 (files: Files, v: nat) => KeyAt(commands, inputs, files, v))
  }

  /** Since a success was kept, its inputs look the same and are there, and its outputs are as recorded. */
  ghost predicate Undisturbed(w: World, next: World, inputs: seq<seq<Input>>, v: nat, k: Kept) {
    && k.look > 0 && v < |inputs|
    && LooksSame(w.files(k.look - 1), w.files(k.look), inputs[v])
    && forall t: nat ::
         && LooksSame(w.files(k.look), next.files(t), inputs[v])
         && (forall i :: 0 <= i < |inputs[v]| ==> inputs[v][i].path in next.files(t))
         && AllValid(next.files(t), k.outputs)
  }

  lemma SameKey(commands: seq<Command>, inputs: seq<seq<Input>>, v: nat, files: Files, now: Files)
    requires v < |inputs| && LooksSame(files, now, inputs[v])
    ensures KeyAt(commands, inputs, files, v) == KeyAt(commands, inputs, now, v)
  {
    SameIdentities(files, now, inputs[v]);
  }

  /** What a caller sees of the files decides whether a run's successes can be used again. */
  lemma UndisturbedUnchanged(w: World, next: World, commands: seq<Command>, inputs: seq<seq<Input>>,
                             outputs: seq<seq<Output>>, kept: map<nat, Kept>)
    requires Grounded(w, Declared(commands, inputs, outputs), kept)
    requires forall v :: v in kept ==> Undisturbed(w, next, inputs, v, kept[v])
    ensures Unchanged(next, Declared(commands, inputs, outputs), kept)
  {
    var d := Declared(commands, inputs, outputs);
    forall v, t: nat | v in kept
      ensures InputsPresent(d, next.files(t), v) && d.keyOf(next.files(t), v) == kept[v].key
      ensures AllValid(next.files(t), kept[v].outputs)
    {
      assert Undisturbed(w, next, inputs, v, kept[v]) && GroundedAt(w, d, v, kept[v]);
      UndisturbedAt(w, next, commands, inputs, outputs, v, kept[v], t);
    }
  }

  lemma UndisturbedAt(w: World, next: World, commands: seq<Command>, inputs: seq<seq<Input>>, outputs: seq<seq<Output>>,
                      v: nat, k: Kept, t: nat)
    requires GroundedAt(w, Declared(commands, inputs, outputs), v, k) && Undisturbed(w, next, inputs, v, k)
    ensures InputsPresent(Declared(commands, inputs, outputs), next.files(t), v) && AllValid(next.files(t), k.outputs)
    ensures KeyAt(commands, inputs, next.files(t), v) == k.key
  {
    assert LooksSame(w.files(k.look), next.files(t), inputs[v]);
    SameKey(commands, inputs, v, w.files(k.look - 1), w.files(k.look));
    SameKey(commands, inputs, v, w.files(k.look), next.files(t));
  }
}
