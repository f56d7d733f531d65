/** The text whose hash keys the task-result cache: what it determines and what it ignores. */
module CacheKeys {
  import opened Sequences
  import opened TextOrder
  import Sha256

  const CACHE_KEY_PREFIX: string := "ffcache1"

  datatype TaskType = Python | Executable

  function TypeName(t: TaskType): string {
    match t case Python => "python" case Executable => "executable"
  }

  datatype EnvVar = EnvVar(name: string, value: string)

  /** The fields of a task definition that the key covers. */
  datatype Command = Command(kind: TaskType, program: string, script: string, arguments: seq<string>,
                             environment: seq<EnvVar>, workingDirectory: string)

  function EnvText(e: EnvVar): string {
    e.name + "=" + e.value
  }

  function EnvTexts(env: seq<EnvVar>): (r: seq<string>)
    ensures |r| == |env|
  {
    seq(|env|, i requires 0 <= i < |env| => EnvText(env[i]))
  }

  // ---- The text, as tagged lines ----

  datatype Tag = Version | Type | Program | Script | Arg | Env | Cwd | In

  function TagText(tag: Tag): string {
    match tag
    case Version => "v" case Type => "type" case Program => "program" case Script => "script"
    case Arg => "arg" case Env => "env" case Cwd => "cwd" case In => "in"
  }

  lemma TagsAreWords(tag: Tag)
    ensures '\t' !in TagText(tag) && '\n' !in TagText(tag)
  {
  }

  lemma TagsDiffer(a: Tag, b: Tag)
    ensures TagText(a) == TagText(b) <==> a == b
  {
    assert TagText(a)[0] == TagText(b)[0] <==> a == b;
  }

  datatype Record = Record(tag: Tag, value: string)

  function Line(r: Record): string {
    TagText(r.tag) + "\t" + r.value + "\n"
  }

  function Encode(records: seq<Record>): string {
    if records == [] then "" else Line(records[0]) + Encode(records[1..])
  }

  function Tagged(tag: Tag, values: seq<string>): (r: seq<Record>)
    ensures |r| == |values|
  {
    seq(|values|, i requires 0 <= i < |values| => Record(tag, values[i]))
  }

  function Head(c: Command): seq<Record> {
    [Record(Version, CACHE_KEY_PREFIX), Record(Type, TypeName(c.kind)),
     Record(Program, c.program), Record(Script, c.script)]
  }

  function Records(c: Command, inputs: seq<string>): seq<Record> {
    Head(c) + Tagged(Arg, c.arguments) + Tagged(Env, SortTexts(EnvTexts(c.environment)))
    + [Record(Cwd, c.workingDirectory)] + Tagged(In, SortTexts(inputs))
  }

  /** The canonical text; `inputs` are the one-line identities of the input artifacts. */
  function Blob(c: Command, inputs: seq<string>): string {
    Encode(Records(c, inputs))
  }

  lemma {:induction false} EncodeAppend(a: seq<Record>, b: seq<Record>)
    ensures Encode(a + b) == Encode(a) + Encode(b)
  {
    if a == [] {
      assert a + b == b;
    } else {
      assert (a + b)[1..] == a[1..] + b;
      EncodeAppend(a[1..], b);
    }
  }

  lemma EncodeOne(r: Record)
    ensures Encode([r]) == Line(r)
  {
    assert [r][1..] == [];
  }

  method AppendLine(text: string, tag: Tag, value: string) returns (r: string)
    ensures r == text + Encode([Record(tag, value)])
  {
    EncodeOne(Record(tag, value));
    r := text + TagText(tag);
    r := r + ['\t'];
    r := r + value;
    r := r + ['\n'];
  }

  method AppendLines(text: string, tag: Tag, values: seq<string>) returns (r: string)
    ensures r == text + Encode(Tagged(tag, values))
  {
    r := text;
    ghost var records := Tagged(tag, values);
    Whole(records);
    for i := 0 to |values|
      invariant r == text + Encode(records[..i])
    {
      EncodeSnoc(text, records, i);
      r := AppendLine(r, tag, values[i]);
    }
  }

  lemma EncodeSnoc(text: string, records: seq<Record>, i: nat)
    requires i < |records|
    ensures text + Encode(records[..i + 1]) == text + Encode(records[..i]) + Encode([records[i]])
  {
    EncodeAppend(records[..i], [records[i]]);
    assert records[..i + 1] == records[..i] + [records[i]];
    Associative(text, Encode(records[..i]), Encode([records[i]]));
  }

  function Bytes(text: string): seq<Sha256.byte> {
    seq(|text|, i requires 0 <= i < |text| => (text[i] as int % 256) as Sha256.byte)
  }

  method ComputeBlob(c: Command, inputs: seq<string>) returns (blob: string)
    ensures blob == Blob(c, inputs)
  {
    var head := AppendLine("", Version, CACHE_KEY_PREFIX);
    head := AppendLine(head, Type, TypeName(c.kind));
    head := AppendLine(head, Program, c.program);
    head := AppendLine(head, Script, c.script);
    HeadText(c);
    assert head == Encode(Head(c));
    var env := [];
    for i := 0 to |c.environment|
      invariant env == EnvTexts(c.environment)[..i]
    {
      env := env + [c.environment[i].name + "=" + c.environment[i].value];
    }
    assert env == EnvTexts(c.environment);
    blob := AppendLines(head, Arg, c.arguments);
    blob := AppendLines(blob, Env, SortTexts(env));
    blob := AppendLine(blob, Cwd, c.workingDirectory);
    blob := AppendLines(blob, In, SortTexts(inputs));
    BlobParts(c, inputs);
  }

  lemma HeadText(c: Command)
    ensures Encode(Head(c)) == "" + Encode([Record(Version, CACHE_KEY_PREFIX)]) + Encode([Record(Type, TypeName(c.kind))])
                               + Encode([Record(Program, c.program)]) + Encode([Record(Script, c.script)])
  {
    var v, t := [Record(Version, CACHE_KEY_PREFIX)], [Record(Type, TypeName(c.kind))];
    var p, s := [Record(Program, c.program)], [Record(Script, c.script)];
    assert Head(c) == v + t + p + s;
    EncodeAppend(v + t + p, s);
    EncodeAppend(v + t, p);
    EncodeAppend(v, t);
  }

  lemma BlobParts(c: Command, inputs: seq<string>)
    ensures Blob(c, inputs) == Encode(Head(c)) + Encode(Tagged(Arg, c.arguments))
                               + Encode(Tagged(Env, SortTexts(EnvTexts(c.environment))))
                               + Encode([Record(Cwd, c.workingDirectory)]) + Encode(Tagged(In, SortTexts(inputs)))
  {
    var a, e := Tagged(Arg, c.arguments), Tagged(Env, SortTexts(EnvTexts(c.environment)));
    var w, i := [Record(Cwd, c.workingDirectory)], Tagged(In, SortTexts(inputs));
    EncodeAppend(Head(c) + a + e + w, i);
    EncodeAppend(Head(c) + a + e, w);
    EncodeAppend(Head(c) + a, e);
    EncodeAppend(Head(c), a);
  }

  function CacheKey(c: Command, inputs: seq<string>): string {
    CACHE_KEY_PREFIX + ":" + Sha256.WrappedDigest(Bytes(Blob(c, inputs)))
  }

  method ComputeCacheKey(c: Command, inputs: seq<string>) returns (key: string)
    ensures key == CacheKey(c, inputs)
  {
    var blob := ComputeBlob(c, inputs);
    var hex := Sha256.Sha256Hex(Bytes(blob));
    key := CACHE_KEY_PREFIX + ":" + hex;
  }

  // ---- The text determines its lines ----

  lemma FirstAt(c: char, a: string, x: string, whole: string)
    requires c !in a && whole == a + [c] + x
    ensures |a| < |whole| && whole[|a|] == c && a == whole[..|a|] && x == whole[|a| + 1..]
    ensures forall k :: 0 <= k < |a| ==> whole[k] != c
  {
    forall k | 0 <= k < |a| ensures whole[k] != c { assert whole[k] == a[k]; }
  }

  lemma SplitFirst(c: char, a: string, x: string, b: string, y: string)
    requires c !in a && c !in b && a + [c] + x == b + [c] + y
    ensures a == b && x == y
  {
    FirstAt(c, a, x, a + [c] + x);
    FirstAt(c, b, y, a + [c] + x);
  }

  /** A line can be told from its neighbours. */
  ghost predicate Plain(r: Record) {
    '\n' !in r.value
  }

  ghost predicate AllPlain(records: seq<Record>) {
    forall i :: 0 <= i < |records| ==> Plain(records[i])
  }

  lemma {:induction false} EncodeInjective(a: seq<Record>, b: seq<Record>)
    requires AllPlain(a) && AllPlain(b) && Encode(a) == Encode(b)
    ensures a == b
  {
    if a != [] && b != [] {
      FirstLine(a[0], Encode(a[1..]), b[0], Encode(b[1..]));
      EncodeInjective(a[1..], b[1..]);
      assert a == [a[0]] + a[1..] && b == [b[0]] + b[1..];
    }
  }

  lemma FirstLine(r: Record, x: string, q: Record, y: string)
    requires Plain(r) && Plain(q) && Line(r) + x == Line(q) + y
    ensures r == q && x == y
  {
    TagsAreWords(r.tag);
    TagsAreWords(q.tag);
    var a, b := TagText(r.tag), TagText(q.tag);
    assert Line(r) + x == a + ['\t'] + (r.value + ['\n'] + x);
    assert Line(q) + y == b + ['\t'] + (q.value + ['\n'] + y);
    SplitFirst('\t', a, r.value + ['\n'] + x, b, q.value + ['\n'] + y);
    TagsDiffer(r.tag, q.tag);
    SplitFirst('\n', r.value, x, q.value, y);
  }

  // ---- The lines determine the fields ----

  function Values(records: seq<Record>, tag: Tag): seq<string> {
    if records == [] then []
    else (if records[0].tag == tag then [records[0].value] else []) + Values(records[1..], tag)
  }

  lemma {:induction false} ValuesAppend(a: seq<Record>, b: seq<Record>, tag: Tag)
    ensures Values(a + b, tag) == Values(a, tag) + Values(b, tag)
  {
    if a == [] {
      assert a + b == b;
    } else {
      assert (a + b)[1..] == a[1..] + b;
      ValuesAppend(a[1..], b, tag);
    }
  }

  lemma {:induction false} ValuesTagged(tag: Tag, values: seq<string>, wanted: Tag)
    ensures Values(Tagged(tag, values), wanted) == if tag == wanted then values else []
  {
    if values != [] {
      assert Tagged(tag, values)[1..] == Tagged(tag, values[1..]);
      ValuesTagged(tag, values[1..], wanted);
      assert values == [values[0]] + values[1..];
    }
  }

  lemma ValuesOne(r: Record, tag: Tag)
    ensures Values([r], tag) == if r.tag == tag then [r.value] else []
  {
    assert [r][1..] == [];
  }

  lemma ValuesHead(c: Command, tag: Tag)
    ensures Values(Head(c), tag) ==
      (if tag == Version then [CACHE_KEY_PREFIX] else []) + (if tag == Type then [TypeName(c.kind)] else [])
      + (if tag == Program then [c.program] else []) + (if tag == Script then [c.script] else [])
  {
    var v, t := [Record(Version, CACHE_KEY_PREFIX)], [Record(Type, TypeName(c.kind))];
    var p, s := [Record(Program, c.program)], [Record(Script, c.script)];
    assert Head(c) == v + t + p + s;
    ValuesAppend(v + t + p, s, tag);
    ValuesAppend(v + t, p, tag);
    ValuesAppend(v, t, tag);
    ValuesOne(v[0], tag);
    ValuesOne(t[0], tag);
    ValuesOne(p[0], tag);
    ValuesOne(s[0], tag);
  }

  lemma ValuesRecords(c: Command, inputs: seq<string>, tag: Tag)
    ensures Values(Records(c, inputs), tag) == Values(Head(c), tag)
      + (if tag == Arg then c.arguments else []) + (if tag == Env then SortTexts(EnvTexts(c.environment)) else [])
      + (if tag == Cwd then [c.workingDirectory] else []) + (if tag == In then SortTexts(inputs) else [])
  {
    var a, e := Tagged(Arg, c.arguments), Tagged(Env, SortTexts(EnvTexts(c.environment)));
    var w, i := [Record(Cwd, c.workingDirectory)], Tagged(In, SortTexts(inputs));
    ValuesAppend(Head(c) + a + e + w, i, tag);
    ValuesAppend(Head(c) + a + e, w, tag);
    ValuesAppend(Head(c) + a, e, tag);
    ValuesAppend(Head(c), a, tag);
    ValuesTagged(Arg, c.arguments, tag);
    ValuesTagged(Env, SortTexts(EnvTexts(c.environment)), tag);
    ValuesOne(w[0], tag);
    ValuesTagged(In, SortTexts(inputs), tag);
  }

  /** What the lines with a tag say. */
  function Shown(c: Command, inputs: seq<string>, tag: Tag): seq<string> {
    match tag
    case Version => [CACHE_KEY_PREFIX]
    case Type => [TypeName(c.kind)]
    case Program => [c.program]
    case Script => [c.script]
    case Arg => c.arguments
    case Env => SortTexts(EnvTexts(c.environment))
    case Cwd => [c.workingDirectory]
    case In => SortTexts(inputs)
  }

  lemma LinesShow(c: Command, inputs: seq<string>, tag: Tag)
    ensures Values(Records(c, inputs), tag) == Shown(c, inputs, tag)
  {
    ValuesHead(c, tag);
    ValuesRecords(c, inputs, tag);
  }

  lemma SameRecordsShowTheSame(c: Command, inputs: seq<string>, d: Command, others: seq<string>, tag: Tag)
    requires Records(c, inputs) == Records(d, others)
    ensures Shown(c, inputs, tag) == Shown(d, others, tag)
  {
    LinesShow(c, inputs, tag);
    LinesShow(d, others, tag);
  }

  /** The two agree on everything the key covers; lists that are sorted count as multisets. */
  ghost predicate SameText(c: Command, inputs: seq<string>, d: Command, others: seq<string>) {
    && c.kind == d.kind && c.program == d.program && c.script == d.script && c.arguments == d.arguments
    && multiset(EnvTexts(c.environment)) == multiset(EnvTexts(d.environment))
    && c.workingDirectory == d.workingDirectory && multiset(inputs) == multiset(others)
  }

  ghost predicate NoLineFeed(values: seq<string>) {
    forall i :: 0 <= i < |values| ==> '\n' !in values[i]
  }

  /** No field holds a line feed. */
  ghost predicate Clean(c: Command, inputs: seq<string>) {
    && '\n' !in c.program && '\n' !in c.script && '\n' !in c.workingDirectory
    && NoLineFeed(c.arguments) && NoLineFeed(EnvTexts(c.environment)) && NoLineFeed(inputs)
  }

  lemma SortClean(values: seq<string>)
    requires NoLineFeed(values)
    ensures NoLineFeed(SortTexts(values))
  {
    SortTextsIsSorted(values);
    forall i | 0 <= i < |SortTexts(values)| ensures '\n' !in SortTexts(values)[i] {
      assert SortTexts(values)[i] in multiset(values);
    }
  }

  lemma TaggedPlain(tag: Tag, values: seq<string>)
    requires NoLineFeed(values)
    ensures AllPlain(Tagged(tag, values))
  {
  }

  lemma PlainAppend(a: seq<Record>, b: seq<Record>)
    requires AllPlain(a) && AllPlain(b)
    ensures AllPlain(a + b)
  {
  }

  lemma CleanIsPlain(c: Command, inputs: seq<string>)
    requires Clean(c, inputs)
    ensures AllPlain(Records(c, inputs))
  {
    var a, e := Tagged(Arg, c.arguments), Tagged(Env, SortTexts(EnvTexts(c.environment)));
    var w, i := [Record(Cwd, c.workingDirectory)], Tagged(In, SortTexts(inputs));
    SortClean(EnvTexts(c.environment));
    SortClean(inputs);
    TaggedPlain(Arg, c.arguments);
    TaggedPlain(Env, SortTexts(EnvTexts(c.environment)));
    TaggedPlain(In, SortTexts(inputs));
    PlainAppend(Head(c), a);
    PlainAppend(Head(c) + a, e);
    PlainAppend(Head(c) + a + e, w);
    PlainAppend(Head(c) + a + e + w, i);
  }

  /** Agreeing on the covered fields is enough for equal texts, whatever the fields hold. */
  lemma SameTextSameBlob(c: Command, inputs: seq<string>, d: Command, others: seq<string>)
    requires SameText(c, inputs, d, others)
    ensures Blob(c, inputs) == Blob(d, others)
  {
    SortTextsForgetsOrder(EnvTexts(c.environment), EnvTexts(d.environment));
    SortTextsForgetsOrder(inputs, others);
  }

  lemma SameRecordsSameText(c: Command, inputs: seq<string>, d: Command, others: seq<string>)
    requires Records(c, inputs) == Records(d, others)
    ensures SameText(c, inputs, d, others)
  {
    forall tag: Tag ensures Shown(c, inputs, tag) == Shown(d, others, tag) {
      SameRecordsShowTheSame(c, inputs, d, others, tag);
    }
    assert Shown(c, inputs, Type) == Shown(d, others, Type) && Shown(c, inputs, Program) == Shown(d, others, Program);
    assert Shown(c, inputs, Script) == Shown(d, others, Script) && Shown(c, inputs, Arg) == Shown(d, others, Arg);
    assert Shown(c, inputs, Env) == Shown(d, others, Env) && Shown(c, inputs, Cwd) == Shown(d, others, Cwd);
    assert Shown(c, inputs, In) == Shown(d, others, In);
    assert [c.program][0] == [d.program][0] && [c.script][0] == [d.script][0];
    assert [c.workingDirectory][0] == [d.workingDirectory][0];
    assert TypeName(c.kind)[0] == TypeName(d.kind)[0];
    SortTextsForgetsOrder(EnvTexts(c.environment), EnvTexts(d.environment));
    SortTextsForgetsOrder(inputs, others);
  }

  /** Without line feeds the text determines the covered fields, and they determine the text. */
  lemma BlobExactly(c: Command, inputs: seq<string>, d: Command, others: seq<string>)
    requires Clean(c, inputs) && Clean(d, others)
    ensures Blob(c, inputs) == Blob(d, others) <==> SameText(c, inputs, d, others)
  {
    if Blob(c, inputs) == Blob(d, others) {
      CleanIsPlain(c, inputs);
      CleanIsPlain(d, others);
      EncodeInjective(Records(c, inputs), Records(d, others));
      SameRecordsSameText(c, inputs, d, others);
    } else if SameText(c, inputs, d, others) {
      SameTextSameBlob(c, inputs, d, others);
    }
  }

  // ---- Environment entries ----

  ghost predicate PlainNames(env: seq<EnvVar>) {
    forall i :: 0 <= i < |env| ==> '=' !in env[i].name
  }

  function Without(env: seq<EnvVar>, j: nat): seq<EnvVar>
    requires j < |env|
  {
    env[..j] + env[j + 1..]
  }

  lemma WithoutMultisets(env: seq<EnvVar>, j: nat)
    requires j < |env|
    ensures multiset(env) == multiset(Without(env, j)) + multiset{env[j]}
    ensures multiset(EnvTexts(env)) == multiset(EnvTexts(Without(env, j))) + multiset{EnvText(env[j])}
  {
    assert env == env[..j] + [env[j]] + env[j + 1..];
    var t := EnvTexts(env);
    assert EnvTexts(Without(env, j)) == t[..j] + t[j + 1..];
    assert t == t[..j] + [t[j]] + t[j + 1..];
  }

  lemma {:induction false} SameEntries(a: seq<EnvVar>, b: seq<EnvVar>)
    ensures multiset(a) == multiset(b) ==> multiset(EnvTexts(a)) == multiset(EnvTexts(b))
    decreases |a|
  {
    if multiset(a) == multiset(b) && a != [] {
      assert a[0] in multiset(b);
      var j :| 0 <= j < |b| && b[j] == a[0];
      WithoutMultisets(a, 0);
      WithoutMultisets(b, j);
      assert multiset(Without(a, 0)) == multiset(a) - multiset{a[0]};
      assert multiset(Without(b, j)) == multiset(b) - multiset{a[0]};
      SameEntries(Without(a, 0), Without(b, j));
    } else if multiset(a) == multiset(b) {
      assert |multiset(b)| == 0;
    }
  }

  lemma {:induction false} SameTextsSameEntries(a: seq<EnvVar>, b: seq<EnvVar>)
    requires PlainNames(a) && PlainNames(b) && multiset(EnvTexts(a)) == multiset(EnvTexts(b))
    ensures multiset(a) == multiset(b)
    decreases |a|
  {
    assert |multiset(EnvTexts(a))| == |a| && |multiset(EnvTexts(b))| == |b|;
    if a != [] {
      assert EnvTexts(a)[0] in multiset(EnvTexts(b));
      var j :| 0 <= j < |b| && EnvTexts(b)[j] == EnvTexts(a)[0];
      SplitFirst('=', a[0].name, a[0].value, b[j].name, b[j].value);
      WithoutMultisets(a, 0);
      WithoutMultisets(b, j);
      assert multiset(EnvTexts(Without(a, 0))) == multiset(EnvTexts(a)) - multiset{EnvText(a[0])};
      assert multiset(EnvTexts(Without(b, j))) == multiset(EnvTexts(b)) - multiset{EnvText(a[0])};
      SameTextsSameEntries(Without(a, 0), Without(b, j));
    }
  }

  /** Equal texts exactly for equal commands, up to the order of environment entries and inputs. */
  lemma BlobInjective(c: Command, inputs: seq<string>, d: Command, others: seq<string>)
    requires Clean(c, inputs) && Clean(d, others) && PlainNames(c.environment) && PlainNames(d.environment)
    ensures Blob(c, inputs) == Blob(d, others) <==>
      && c.kind == d.kind && c.program == d.program && c.script == d.script && c.arguments == d.arguments
      && multiset(c.environment) == multiset(d.environment)
      && c.workingDirectory == d.workingDirectory && multiset(inputs) == multiset(others)
  {
    BlobExactly(c, inputs, d, others);
    SameEntries(c.environment, d.environment);
    if SameText(c, inputs, d, others) { SameTextsSameEntries(c.environment, d.environment); }
  }

  /** The order of environment entries and of inputs never matters. */
  lemma OrderIgnored(c: Command, inputs: seq<string>, environment: seq<EnvVar>, others: seq<string>)
    requires multiset(environment) == multiset(c.environment) && multiset(others) == multiset(inputs)
    ensures Blob(c.(environment := environment), others) == Blob(c, inputs)
  {
    SameEntries(environment, c.environment);
    SameTextSameBlob(c.(environment := environment), others, c, inputs);
  }

  // ---- Where the text is ambiguous ----

  /** A line feed inside a field can imitate the next line: a program and a script trade places. */
  lemma LineFeedCollides(c: Command, inputs: seq<string>, a: string, b: string, x: string)
    ensures Blob(c.(program := a + "\nscript\t" + b, script := x), inputs)
         == Blob(c.(program := a, script := b + "\nscript\t" + x), inputs)
  {
    BlobAround(c, inputs, a + "\nscript\t" + b, x);
    BlobAround(c, inputs, a, b + "\nscript\t" + x);
    ProgramAndScript(a, b, x);
  }

  /** The records before and behind program and script do not depend on them. */
  lemma BlobAround(c: Command, inputs: seq<string>, program: string, script: string)
    ensures Blob(c.(program := program, script := script), inputs)
         == Encode(Records(c, inputs)[..2]) + Encode([Record(Program, program), Record(Script, script)])
            + Encode(Records(c, inputs)[4..])
  {
    var rs := Records(c.(program := program, script := script), inputs);
    var mid := [Record(Program, program), Record(Script, script)];
    assert rs[..2] == Records(c, inputs)[..2] && rs[4..] == Records(c, inputs)[4..] && rs[2..4] == mid;
    assert rs == rs[..2] + mid + rs[4..];
    EncodeAppend(rs[..2] + mid, rs[4..]);
    EncodeAppend(rs[..2], mid);
  }

  lemma ProgramAndScript(a: string, b: string, x: string)
    ensures Encode([Record(Program, a + "\nscript\t" + b), Record(Script, x)])
         == Encode([Record(Program, a), Record(Script, b + "\nscript\t" + x)])
  {
    var mid := "\nscript\t";
    EncodeTwo(Record(Program, a + mid + b), Record(Script, x));
    EncodeTwo(Record(Program, a), Record(Script, b + mid + x));
    assert "\n" + "script" + "\t" == mid;
    Regroup("program" + "\t", a, mid, b, x, "\n", "script", "\t");
  }

  lemma EncodeTwo(r: Record, q: Record)
    ensures Encode([r, q]) == Line(r) + Line(q)
  {
    assert [r, q][1..] == [q];
    EncodeOne(q);
  }

  lemma Regroup(p: string, a: string, mid: string, b: string, x: string, n: string, s: string, t: string)
    requires mid == n + s + t
    ensures (p + (a + mid + b) + n) + (s + t + x + n) == (p + a + n) + (s + t + (b + mid + x) + n)
  {
    var l := (p + (a + mid + b) + n) + (s + t + x + n);
    assert l == p + a + mid + b + (n + s + t) + x + n;
    var r := (p + a + n) + (s + t + (b + mid + x) + n);
    assert r == p + a + (n + s + t) + b + mid + x + n;
  }

  // A value that spells out the start of its own next line reads as two values.

  function TwoInOne(tag: Tag, a: string, b: string): string {
    a + "\n" + TagText(tag) + "\t" + b
  }

  lemma LineSplits(tag: Tag, a: string, b: string)
    ensures Encode([Record(tag, TwoInOne(tag, a, b))]) == Encode([Record(tag, a), Record(tag, b)])
  {
    EncodeOne(Record(tag, TwoInOne(tag, a, b)));
    EncodeTwo(Record(tag, a), Record(tag, b));
    SplitText(TagText(tag), a, b, "\n", "\t");
  }

  lemma SplitText(t: string, a: string, b: string, n: string, tab: string)
    ensures t + tab + (a + n + t + tab + b) + n == (t + tab + a + n) + (t + tab + b + n)
  {
    var l := t + tab + (a + n + t + tab + b) + n;
    assert l == t + tab + a + n + t + tab + b + n;
  }

  lemma TaggedSplits(tag: Tag, before: seq<string>, a: string, b: string, after: seq<string>)
    ensures Encode(Tagged(tag, before + [TwoInOne(tag, a, b)] + after)) == Encode(Tagged(tag, before + [a, b] + after))
  {
    var one, two := [TwoInOne(tag, a, b)], [a, b];
    TaggedParts(tag, before, one, after);
    TaggedParts(tag, before, two, after);
    assert Tagged(tag, one) == [Record(tag, TwoInOne(tag, a, b))];
    assert Tagged(tag, two) == [Record(tag, a), Record(tag, b)];
    LineSplits(tag, a, b);
  }

  lemma TaggedParts(tag: Tag, before: seq<string>, mid: seq<string>, after: seq<string>)
    ensures Encode(Tagged(tag, before + mid + after))
         == Encode(Tagged(tag, before)) + Encode(Tagged(tag, mid)) + Encode(Tagged(tag, after))
  {
    assert Tagged(tag, before + mid + after) == Tagged(tag, before) + Tagged(tag, mid) + Tagged(tag, after);
    EncodeAppend(Tagged(tag, before) + Tagged(tag, mid), Tagged(tag, after));
    EncodeAppend(Tagged(tag, before), Tagged(tag, mid));
  }

  /** One argument can pass for two, at any place. */
  lemma ArgumentCollides(c: Command, inputs: seq<string>, before: seq<string>, a: string, b: string, after: seq<string>)
    ensures Blob(c.(arguments := before + [TwoInOne(Arg, a, b)] + after), inputs)
         == Blob(c.(arguments := before + [a, b] + after), inputs)
  {
    BlobParts(c.(arguments := before + [TwoInOne(Arg, a, b)] + after), inputs);
    BlobParts(c.(arguments := before + [a, b] + after), inputs);
    assert Head(c.(arguments := before + [TwoInOne(Arg, a, b)] + after)) == Head(c);
    assert Head(c.(arguments := before + [a, b] + after)) == Head(c);
    TaggedSplits(Arg, before, a, b, after);
  }

  lemma SortedAlready(s: seq<string>)
    requires Ascending(TextAtMost, s)
    ensures SortTexts(s) == s
  {
    TextOrderIsTotal();
    SortTextsIsSorted(s);
    AscendingUnique(TextAtMost, SortTexts(s), s);
  }

  /** One input can pass for two, wherever the sorted order leaves the two side by side. */
  lemma InputCollides(c: Command, before: seq<string>, a: string, b: string, after: seq<string>)
    requires Ascending(TextAtMost, before + [TwoInOne(In, a, b)] + after)
    requires Ascending(TextAtMost, before + [a, b] + after)
    ensures Blob(c, before + [TwoInOne(In, a, b)] + after) == Blob(c, before + [a, b] + after)
  {
    SortedAlready(before + [TwoInOne(In, a, b)] + after);
    SortedAlready(before + [a, b] + after);
    BlobParts(c, before + [TwoInOne(In, a, b)] + after);
    BlobParts(c, before + [a, b] + after);
    TaggedSplits(In, before, a, b, after);
  }

  /** One environment entry can pass for two, wherever the sorted order leaves the two side by side. */
  lemma EnvironmentCollides(c: Command, inputs: seq<string>, one: seq<EnvVar>, two: seq<EnvVar>,
                            before: seq<string>, a: string, b: string, after: seq<string>)
    requires EnvTexts(one) == before + [TwoInOne(Env, a, b)] + after && Ascending(TextAtMost, EnvTexts(one))
    requires EnvTexts(two) == before + [a, b] + after && Ascending(TextAtMost, EnvTexts(two))
    ensures Blob(c.(environment := one), inputs) == Blob(c.(environment := two), inputs)
  {
    SortedAlready(EnvTexts(one));
    SortedAlready(EnvTexts(two));
    BlobParts(c.(environment := one), inputs);
    BlobParts(c.(environment := two), inputs);
    assert Head(c.(environment := one)) == Head(c) && Head(c.(environment := two)) == Head(c);
    TaggedSplits(Env, before, a, b, after);
  }

  // Environment entries and equals signs.

  predicate HoldsEquals(e: EnvVar) {
    '=' in e.name || '=' in e.value
  }

  ghost predicate SomeHoldsEquals(env: seq<EnvVar>) {
    exists i :: 0 <= i < |env| && HoldsEquals(env[i])
  }

  /** The boundary between name and value moves to another equals sign. */
  lemma OtherReading(e: EnvVar) returns (f: EnvVar)
    requires HoldsEquals(e)
    ensures f != e && EnvText(f) == EnvText(e)
  {
    if '=' in e.name {
      var k :| 0 <= k < |e.name| && e.name[k] == '=';
      f := EnvVar(e.name[..k], e.name[k + 1..] + "=" + e.value);
      assert e.name == e.name[..k] + "=" + e.name[k + 1..];
      assert EnvText(f) == e.name[..k] + "=" + e.name[k + 1..] + "=" + e.value;
      assert |f.name| < |e.name|;
    } else {
      var k :| 0 <= k < |e.value| && e.value[k] == '=';
      f := EnvVar(e.name + "=" + e.value[..k], e.value[k + 1..]);
      assert e.value == e.value[..k] + "=" + e.value[k + 1..];
      assert EnvText(e) == e.name + "=" + e.value[..k] + "=" + e.value[k + 1..];
      assert |f.name| > |e.name|;
    }
  }

  /** A text with one equals sign is read in one way. */
  lemma OneReading(e: EnvVar, f: EnvVar)
    requires !HoldsEquals(e) && EnvText(f) == EnvText(e)
    ensures '=' !in f.name
  {
    var text := EnvText(e);
    forall k | 0 <= k < |text| && k != |e.name| ensures text[k] != '=' {
      if k < |e.name| { assert text[k] == e.name[k]; } else { assert text[k] == e.value[k - |e.name| - 1]; }
    }
    assert EnvText(f)[|f.name|] == '=';
    forall k | 0 <= k < |f.name| ensures f.name[k] != '=' {
      assert EnvText(f)[k] == f.name[k];
    }
  }

  lemma ReplaceEntry(env: seq<EnvVar>, i: nat, f: EnvVar)
    requires i < |env| && f != env[i] && EnvText(f) == EnvText(env[i])
    ensures EnvTexts(env[i := f]) == EnvTexts(env) && multiset(env[i := f]) != multiset(env)
  {
    WithoutMultisets(env, i);
    WithoutMultisets(env[i := f], i);
    assert Without(env[i := f], i) == Without(env, i);
    assert multiset(env)[env[i]] == multiset(Without(env, i))[env[i]] + 1;
    assert multiset(env[i := f])[env[i]] == multiset(Without(env, i))[env[i]];
  }

  /** The texts of the other environment are texts of this one, each read in one way only. */
  lemma OnlyOneReading(env: seq<EnvVar>, other: seq<EnvVar>)
    requires !SomeHoldsEquals(env) && multiset(EnvTexts(env)) == multiset(EnvTexts(other))
    ensures multiset(env) == multiset(other)
  {
    forall j | 0 <= j < |other| ensures '=' !in other[j].name {
      assert EnvTexts(other)[j] in multiset(EnvTexts(env));
      var i :| 0 <= i < |env| && EnvTexts(env)[i] == EnvTexts(other)[j];
      assert !HoldsEquals(env[i]);
      OneReading(env[i], other[j]);
    }
    forall i | 0 <= i < |env| ensures '=' !in env[i].name {
      assert !HoldsEquals(env[i]);
    }
    SameTextsSameEntries(env, other);
  }

  /** A command shares its text with one whose environment differs. */
  ghost predicate EnvironmentAmbiguous(c: Command, inputs: seq<string>) {
    exists d: Command, others: seq<string> ::
      Clean(d, others) && Blob(d, others) == Blob(c, inputs) && multiset(d.environment) != multiset(c.environment)
  }

  /** Without line feeds, the environment is ambiguous exactly when some entry holds an equals sign of its own. */
  lemma EqualsSignCollidesExactly(c: Command, inputs: seq<string>)
    requires Clean(c, inputs)
    ensures EnvironmentAmbiguous(c, inputs) <==> SomeHoldsEquals(c.environment)
  {
    if SomeHoldsEquals(c.environment) {
      var i :| 0 <= i < |c.environment| && HoldsEquals(c.environment[i]);
      var f := OtherReading(c.environment[i]);
      ReplaceEntry(c.environment, i, f);
      var d := c.(environment := c.environment[i := f]);
      SameTextSameBlob(d, inputs, c, inputs);
      assert Clean(d, inputs) && Blob(d, inputs) == Blob(c, inputs);
    } else if EnvironmentAmbiguous(c, inputs) {
      var d: Command, others: seq<string> :|
        Clean(d, others) && Blob(d, others) == Blob(c, inputs) && multiset(d.environment) != multiset(c.environment);
      BlobExactly(d, others, c, inputs);
      OnlyOneReading(c.environment, d.environment);
    }
  }
}
