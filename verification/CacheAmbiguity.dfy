/** Which tasks share their key text with a different task: the exact condition on one task. */
module AmbiguousKeys {
  import opened Sequences
  import opened TextOrder
  import opened CacheKeys

  // ---- The text, as values between marks ----

  /** What stands in front of a value, from the end of the line before it. */
  function Mark(tag: Tag): string {
    "\n" + TagText(tag) + "\t"
  }

  function Marks(tag: Tag, values: seq<string>): string {
    if values == [] then "" else Mark(tag) + values[0] + Marks(tag, values[1..])
  }

  function Start(kind: TaskType): string {
    "v\t" + CACHE_KEY_PREFIX + "\ntype\t" + TypeName(kind) + "\nprogram\t"
  }

  /** The script and everything up to the working directory. */
  function ScriptPart(c: Command): string {
    c.script + Marks(Arg, c.arguments) + Marks(Env, SortTexts(EnvTexts(c.environment)))
  }

  function DirectoryPart(c: Command, inputs: seq<string>): string {
    c.workingDirectory + Marks(In, SortTexts(inputs))
  }

  function Three(program: string, script: string, directory: string): string {
    program + Mark(Script) + script + Mark(Cwd) + directory
  }

  lemma {:induction false} LinesAreMarks(tag: Tag, values: seq<string>)
    ensures "\n" + Encode(Tagged(tag, values)) == Marks(tag, values) + "\n"
  {
    if values != [] {
      LinesAreMarks(tag, values[1..]);
      assert Tagged(tag, values)[1..] == Tagged(tag, values[1..]);
      LineIsMark("\n", TagText(tag), "\t", values[0], Encode(Tagged(tag, values[1..])));
      Associative(Mark(tag) + values[0], Marks(tag, values[1..]), "\n");
    }
  }

  lemma LineIsMark(n: string, t: string, tab: string, v: string, rest: string)
    ensures n + (t + tab + v + n + rest) == (n + t + tab) + v + (n + rest)
  {
  }

  lemma FirstLines(c: Command)
    ensures Encode(Head(c)) == Start(c.kind) + c.program + Mark(Script) + c.script + "\n"
  {
    HeadText(c);
    EncodeOne(Record(Version, CACHE_KEY_PREFIX));
    EncodeOne(Record(Type, TypeName(c.kind)));
    EncodeOne(Record(Program, c.program));
    EncodeOne(Record(Script, c.script));
    FlattenHead(CACHE_KEY_PREFIX, TypeName(c.kind), c.program, c.script);
  }

  lemma FlattenHead(v: string, t: string, p: string, s: string)
    ensures "" + ("v" + "\t" + v + "\n") + ("type" + "\t" + t + "\n") + ("program" + "\t" + p + "\n") + ("script" + "\t" + s + "\n")
         == "v\t" + v + "\ntype\t" + t + "\nprogram\t" + p + ("\n" + "script" + "\t") + s + "\n"
  {
  }

  /** One more group of lines, behind a text that ends in a line feed. */
  lemma AddLines(text: string, tag: Tag, values: seq<string>)
    ensures (text + "\n") + Encode(Tagged(tag, values)) == text + Marks(tag, values) + "\n"
  {
    LinesAreMarks(tag, values);
    Associative(text, "\n", Encode(Tagged(tag, values)));
    Associative(text, Marks(tag, values), "\n");
  }

  lemma BlobIsThree(c: Command, inputs: seq<string>)
    ensures Blob(c, inputs) == Start(c.kind) + Three(c.program, ScriptPart(c), DirectoryPart(c, inputs)) + "\n"
  {
    var a, e, i := Marks(Arg, c.arguments), Marks(Env, SortTexts(EnvTexts(c.environment))), Marks(In, SortTexts(inputs));
    var head := Start(c.kind) + c.program + Mark(Script) + c.script;
    BlobParts(c, inputs);
    FirstLines(c);
    AddLines(head, Arg, c.arguments);
    AddLines(head + a, Env, SortTexts(EnvTexts(c.environment)));
    assert Tagged(Cwd, [c.workingDirectory]) == [Record(Cwd, c.workingDirectory)];
    assert Marks(Cwd, [c.workingDirectory]) == Mark(Cwd) + c.workingDirectory;
    AddLines(head + a + e, Cwd, [c.workingDirectory]);
    AddLines(head + a + e + (Mark(Cwd) + c.workingDirectory), In, SortTexts(inputs));
    Gather(Start(c.kind), c.program, Mark(Script), c.script, a, e, Mark(Cwd), c.workingDirectory, i);
  }

  lemma Gather(k: string, p: string, m: string, s: string, a: string, e: string, n: string, w: string, i: string)
    ensures k + p + m + s + a + e + (n + w) + i == k + (p + m + (s + a + e) + n + (w + i))
  {
  }

  lemma StartsDiffer(k: TaskType, x: string, l: TaskType, y: string)
    requires Start(k) + x == Start(l) + y
    ensures k == l && x == y
  {
    var at := |"v\t" + CACHE_KEY_PREFIX + "\ntype\t"|;
    assert (Start(k) + x)[at] == TypeName(k)[0] && (Start(l) + y)[at] == TypeName(l)[0];
    assert (Start(k) + x)[|Start(k)|..] == x && (Start(k) + y)[|Start(k)|..] == y;
  }

  /** Two tasks share their text exactly when they are of one kind and their three parts run together alike. */
  lemma SameBlobExactly(c: Command, inputs: seq<string>, d: Command, others: seq<string>)
    ensures Blob(c, inputs) == Blob(d, others) <==>
      && c.kind == d.kind
      && Three(c.program, ScriptPart(c), DirectoryPart(c, inputs)) == Three(d.program, ScriptPart(d), DirectoryPart(d, others))
  {
    BlobIsThree(c, inputs);
    BlobIsThree(d, others);
    var x := Three(c.program, ScriptPart(c), DirectoryPart(c, inputs));
    var y := Three(d.program, ScriptPart(d), DirectoryPart(d, others));
    if Start(c.kind) + x + "\n" == Start(d.kind) + y + "\n" {
      Associative(Start(c.kind), x, "\n");
      Associative(Start(d.kind), y, "\n");
      StartsDiffer(c.kind, x + "\n", d.kind, y + "\n");
      assert (x + "\n")[..|x|] == x && (y + "\n")[..|y|] == y;
    }
  }

  // ---- Where a mark can be ----

  lemma MarkShape(tag: Tag)
    ensures |Mark(tag)| >= 2 && Mark(tag)[0] == '\n' && forall k :: 1 <= k < |Mark(tag)| ==> Mark(tag)[k] != '\n'
  {
    TagsAreWords(tag);
  }

  lemma SameMark(t: Tag, b: string, u: Tag, y: string)
    requires Mark(t) + b == Mark(u) + y
    ensures t == u && b == y
  {
    TagsAreWords(t);
    TagsAreWords(u);
    assert (Mark(t) + b)[1..] == TagText(t) + ['\t'] + b;
    assert (Mark(u) + y)[1..] == TagText(u) + ['\t'] + y;
    SplitFirst('\t', TagText(t), b, TagText(u), y);
    TagsDiffer(t, u);
  }

  /** A mark that starts before another one ends before it, as its only line feed is in front. */
  lemma MarkEnds(a: string, t: Tag, b: string, x: string, u: Tag, y: string)
    requires a + Mark(t) + b == x + Mark(u) + y && |x| < |a|
    ensures |x| + |Mark(u)| <= |a|
  {
    MarkShape(t);
    MarkShape(u);
    var s := a + Mark(t) + b;
    assert s[|a|] == '\n';
    forall k | |x| < k < |x| + |Mark(u)| ensures s[k] != '\n' { assert s[k] == Mark(u)[k - |x|]; }
  }

  lemma MarkBefore(a: string, t: Tag, b: string, x: string, u: Tag, y: string)
    requires a + Mark(t) + b == x + Mark(u) + y && |x| < |a|
    ensures |x| + |Mark(u)| <= |a| && a == x + Mark(u) + a[|x| + |Mark(u)|..]
    ensures y == a[|x| + |Mark(u)|..] + Mark(t) + b
  {
    MarkEnds(a, t, b, x, u, y);
    Inside(a, Mark(t), b, x, Mark(u), y);
  }

  lemma Inside(a: string, m: string, b: string, x: string, n: string, y: string)
    requires a + m + b == x + n + y && |x| + |n| <= |a|
    ensures a == x + n + a[|x| + |n|..] && y == a[|x| + |n|..] + m + b
  {
    var s, k := a + m + b, |x| + |n|;
    assert s[..|a|][..k] == s[..k] == x + n;
    CutAt(a, k);
    assert s[k..] == a[k..] + m + b;
  }

  lemma Level(a: string, m: string, b: string, x: string, n: string, y: string)
    requires a + m + b == x + n + y && |x| == |a|
    ensures a == x && m + b == n + y
  {
    var s := a + m + b;
    assert s[..|a|] == a && s[..|x|] == x && s[|a|..] == m + b && s[|x|..] == n + y;
  }

  /** A mark in a text around a mark lies before it, is that mark, or lies behind it. */
  lemma Where(a: string, t: Tag, b: string, x: string, u: Tag, y: string)
    requires a + Mark(t) + b == x + Mark(u) + y
    ensures |x| < |a| ==> exists z :: a == x + Mark(u) + z && y == z + Mark(t) + b
    ensures |x| == |a| ==> t == u && x == a && b == y
    ensures |x| > |a| ==> exists z :: x == a + Mark(t) + z && b == z + Mark(u) + y
  {
    if |x| < |a| {
      MarkBefore(a, t, b, x, u, y);
    } else if |x| > |a| {
      MarkBefore(x, u, y, a, t, b);
    } else {
      Level(a, Mark(t), b, x, Mark(u), y);
      SameMark(t, b, u, y);
    }
  }

  /** A value that can be read as a shorter one, a mark, and a rest of some kind. */
  ghost predicate Reads(value: string, tag: Tag, rest: string -> bool) {
    exists a, b :: value == a + Mark(tag) + b && rest(b)
  }

  predicate Anything(text: string) {
    true
  }

  predicate HasEquals(text: string) {
    '=' in text
  }

  /** Nothing in the three parts imitates the marks between them. */
  ghost predicate Unmarked(p: string, s: string, w: string) {
    && !Reads(p, Script, Anything) && !Reads(s, Script, Anything)
    && !Reads(s, Cwd, Anything) && !Reads(w, Cwd, Anything)
  }

  lemma ReadsMark(value: string, a: string, tag: Tag, b: string, rest: string -> bool)
    requires value == a + Mark(tag) + b && rest(b)
    ensures Reads(value, tag, rest)
  {
  }

  lemma DirectoryAtItsMark(p: string, s: string, w: string, p': string, s': string, w': string)
    requires Unmarked(p, s, w) && Three(p, s, w) == Three(p', s', w')
    ensures p + Mark(Script) + s == p' + Mark(Script) + s' && w == w'
  {
    var a, x := p + Mark(Script) + s, p' + Mark(Script) + s';
    Where(a, Cwd, w, x, Cwd, w');
    if |x| < |a| {
      var z :| a == x + Mark(Cwd) + z && w' == z + Mark(Cwd) + w;
      Where(p, Script, s, x, Cwd, z);
      if |x| < |p| {
        var q :| p == x + Mark(Cwd) + q && z == q + Mark(Script) + s;
        assert p == p' + Mark(Script) + (s' + Mark(Cwd) + q);
        ReadsMark(p, p', Script, s' + Mark(Cwd) + q, Anything);
      } else {
        var q :| x == p + Mark(Script) + q && s == q + Mark(Cwd) + z;
        ReadsMark(s, q, Cwd, z, Anything);
      }
    } else if |x| > |a| {
      var z :| x == a + Mark(Cwd) + z && w == z + Mark(Cwd) + w';
      ReadsMark(w, z, Cwd, w', Anything);
    }
  }

  /** Then the three parts can be told from their text. */
  lemma SameThree(p: string, s: string, w: string, p': string, s': string, w': string)
    requires Unmarked(p, s, w) && Three(p, s, w) == Three(p', s', w')
    ensures p == p' && s == s' && w == w'
  {
    DirectoryAtItsMark(p, s, w, p', s', w');
    Where(p, Script, s, p', Script, s');
    if |p'| < |p| {
      var z :| p == p' + Mark(Script) + z && s' == z + Mark(Script) + s;
      ReadsMark(p, p', Script, z, Anything);
    } else if |p'| > |p| {
      var z :| p' == p + Mark(Script) + z && s == z + Mark(Script) + s';
      ReadsMark(s, z, Script, s', Anything);
    }
  }

  // ---- The exact condition ----

  /** No part of the task can be read as another part. */
  ghost predicate Alone(c: Command, inputs: seq<string>, isInput: string -> bool) {
    && c.arguments == [] && c.environment == [] && inputs == []
    && Unmarked(c.program, c.script, c.workingDirectory)
    && !Reads(c.script, Arg, Anything) && !Reads(c.script, Env, HasEquals)
    && !Reads(c.workingDirectory, In, isInput)
  }

  ghost predicate AllInputs(inputs: seq<string>, isInput: string -> bool) {
    forall i :: 0 <= i < |inputs| ==> isInput(inputs[i])
  }

  /** d, with other inputs, shares the text and differs in what the key covers. */
  ghost predicate Rival(c: Command, inputs: seq<string>, isInput: string -> bool, d: Command, others: seq<string>) {
    AllInputs(others, isInput) && Blob(d, others) == Blob(c, inputs) && !SameText(c, inputs, d, others)
  }

  ghost predicate Ambiguous(c: Command, inputs: seq<string>, isInput: string -> bool) {
    exists d, others :: Rival(c, inputs, isInput, d, others)
  }

  lemma {:induction false} MarksSnoc(tag: Tag, values: seq<string>)
    requires values != []
    ensures Marks(tag, values) == Marks(tag, values[..|values| - 1]) + Mark(tag) + values[|values| - 1]
  {
    var n := |values| - 1;
    if n > 0 {
      MarksSnoc(tag, values[1..]);
      assert values[1..][..n - 1] == values[..n][1..];
      var m := Mark(tag) + values[0];
      Associative(m, Marks(tag, values[1..n]) + Mark(tag), values[n]);
      Associative(m, Marks(tag, values[1..n]), Mark(tag));
    }
  }

  lemma SortedEntry(env: seq<EnvVar>)
    requires env != []
    ensures var es := SortTexts(EnvTexts(env)); |es| == |env| && '=' in es[0]
  {
    var es := SortTexts(EnvTexts(env));
    SortTextsIsSorted(EnvTexts(env));
    assert |es| == |multiset(es)| == |multiset(EnvTexts(env))| == |env|;
    assert es[0] in multiset(EnvTexts(env));
    var j :| 0 <= j < |env| && EnvTexts(env)[j] == es[0];
    assert EnvText(env[j])[|env[j].name|] == '=';
  }

  lemma SortKeeps(values: seq<string>)
    ensures |SortTexts(values)| == |values| && forall x :: x in SortTexts(values) <==> x in values
  {
    SortTextsIsSorted(values);
    assert |SortTexts(values)| == |multiset(SortTexts(values))| == |multiset(values)|;
    forall x ensures x in SortTexts(values) <==> x in values {
      assert x in multiset(SortTexts(values)) <==> x in multiset(values);
    }
  }

  /** Then no arguments and no entries hide at the end of the script. */
  lemma ScriptStandsAlone(script: string, d: Command)
    requires !Reads(script, Arg, Anything) && !Reads(script, Env, HasEquals) && ScriptPart(d) == script
    ensures d.arguments == [] && d.environment == [] && d.script == script
  {
    var a, es := Marks(Arg, d.arguments), SortTexts(EnvTexts(d.environment));
    if d.arguments != [] {
      var rest := d.arguments[0] + Marks(Arg, d.arguments[1..]) + Marks(Env, es);
      assert script == d.script + Mark(Arg) + rest;
      ReadsMark(script, d.script, Arg, rest, Anything);
    } else if d.environment != [] {
      SortedEntry(d.environment);
      var rest := es[0] + Marks(Env, es[1..]);
      assert script == d.script + Mark(Env) + rest;
      ReadsMark(script, d.script, Env, rest, HasEquals);
    } else {
      assert EnvTexts([]) == [];
    }
  }

  lemma DirectoryStandsAlone(directory: string, isInput: string -> bool, d: Command, others: seq<string>)
    requires !Reads(directory, In, isInput) && DirectoryPart(d, others) == directory && AllInputs(others, isInput)
    ensures others == [] && d.workingDirectory == directory
  {
    var ids := SortTexts(others);
    SortKeeps(others);
    if others != [] {
      MarksSnoc(In, ids);
      var n := |ids| - 1;
      assert directory == (d.workingDirectory + Marks(In, ids[..n])) + Mark(In) + ids[n];
      assert ids[n] in others;
      ReadsMark(directory, d.workingDirectory + Marks(In, ids[..n]), In, ids[n], isInput);
    }
  }

  lemma AloneIsUnambiguous(c: Command, inputs: seq<string>, isInput: string -> bool, d: Command, others: seq<string>)
    requires Alone(c, inputs, isInput) && AllInputs(others, isInput) && Blob(d, others) == Blob(c, inputs)
    ensures SameText(c, inputs, d, others)
  {
    assert EnvTexts([]) == [];
    assert ScriptPart(c) == c.script && DirectoryPart(c, inputs) == c.workingDirectory;
    SameBlobExactly(c, inputs, d, others);
    SameThree(c.program, c.script, c.workingDirectory, d.program, ScriptPart(d), DirectoryPart(d, others));
    ScriptStandsAlone(c.script, d);
    DirectoryStandsAlone(c.workingDirectory, isInput, d, others);
  }

  // ---- Everything else has a rival ----

  /** Equal parts, divided differently. */
  lemma RivalByParts(c: Command, inputs: seq<string>, isInput: string -> bool, d: Command, others: seq<string>)
    requires AllInputs(others, isInput) && c.kind == d.kind
    requires Three(c.program, ScriptPart(c), DirectoryPart(c, inputs)) == Three(d.program, ScriptPart(d), DirectoryPart(d, others))
    requires c.program != d.program || c.script != d.script || c.workingDirectory != d.workingDirectory
    ensures Ambiguous(c, inputs, isInput)
  {
    SameBlobExactly(c, inputs, d, others);
    assert Rival(c, inputs, isInput, d, others);
  }

  lemma Longer(a: string, m: string, b: string)
    ensures m != "" ==> a + m + b != a
  {
    assert |a + m + b| == |a| + |m| + |b|;
  }

  /** An argument can be part of the script, and part of the script an argument. */
  lemma ScriptAndArgument(c: Command, script: string, a: string, rest: seq<string>)
    ensures ScriptPart(c.(script := script + Mark(Arg) + a, arguments := rest))
         == ScriptPart(c.(script := script, arguments := [a] + rest))
  {
    var e := Marks(Env, SortTexts(EnvTexts(c.environment)));
    assert ([a] + rest)[1..] == rest;
    Associative(script, Mark(Arg) + a, Marks(Arg, rest));
    Associative(script, Mark(Arg), a);
  }

  lemma ArgumentsAreAmbiguous(c: Command, inputs: seq<string>, isInput: string -> bool)
    requires AllInputs(inputs, isInput) && (c.arguments != [] || Reads(c.script, Arg, Anything))
    ensures Ambiguous(c, inputs, isInput)
  {
    var d;
    if c.arguments != [] {
      var a, rest := c.arguments[0], c.arguments[1..];
      HeadAndTail(c.arguments);
      ScriptAndArgument(c, c.script, a, rest);
      d := c.(script := c.script + Mark(Arg) + a, arguments := rest);
      Longer(c.script, Mark(Arg), a);
      assert c == c.(script := c.script, arguments := [a] + rest);
    } else {
      var a, b :| c.script == a + Mark(Arg) + b && Anything(b);
      ScriptAndArgument(c, a, b, c.arguments);
      d := c.(script := a, arguments := [b] + c.arguments);
      Longer(a, Mark(Arg), b);
      assert c == c.(script := a + Mark(Arg) + b, arguments := c.arguments);
    }
    RivalByParts(c, inputs, isInput, d, inputs);
  }

  lemma OneLess(a: multiset<string>, x: string, b: multiset<string>)
    requires a + multiset{x} == multiset{x} + b
    ensures a == b
  {
    assert a == (a + multiset{x}) - multiset{x} && b == (multiset{x} + b) - multiset{x};
  }

  /** The entries without the one that sorts first. */
  lemma DropFirst(env: seq<EnvVar>) returns (rest: seq<EnvVar>)
    requires env != []
    ensures var es := SortTexts(EnvTexts(env)); es != [] && SortTexts(EnvTexts(rest)) == es[1..]
  {
    var es := SortTexts(EnvTexts(env));
    SortTextsIsSorted(EnvTexts(env));
    SortKeeps(EnvTexts(env));
    assert es[0] in EnvTexts(env);
    var j :| 0 <= j < |env| && EnvTexts(env)[j] == es[0];
    rest := Without(env, j);
    WithoutMultisets(env, j);
    HeadAndTail(es);
    OneLess(multiset(EnvTexts(rest)), es[0], multiset(es[1..]));
    SortedAlready(es[1..]);
    SortTextsForgetsOrder(EnvTexts(rest), es[1..]);
  }

  /** Without arguments, an entry can be part of the script. */
  lemma ScriptAndEntry(c: Command, script: string, one: seq<EnvVar>, rest: seq<EnvVar>)
    requires var es := SortTexts(EnvTexts(one)); es != [] && SortTexts(EnvTexts(rest)) == es[1..]
    ensures ScriptPart(c.(script := script + Mark(Env) + SortTexts(EnvTexts(one))[0], arguments := [], environment := rest))
         == ScriptPart(c.(script := script, arguments := [], environment := one))
  {
    var es := SortTexts(EnvTexts(one));
    assert script + "" == script && script + Mark(Env) + es[0] + "" == script + Mark(Env) + es[0];
    Associative(script, Mark(Env) + es[0], Marks(Env, es[1..]));
    Associative(script, Mark(Env), es[0]);
  }

  lemma EntryOf(text: string) returns (e: EnvVar)
    requires HasEquals(text)
    ensures EnvText(e) == text
  {
    var k :| 0 <= k < |text| && text[k] == '=';
    e := EnvVar(text[..k], text[k + 1..]);
    assert text == text[..k] + "=" + text[k + 1..];
  }

  lemma EntriesAreAmbiguous(c: Command, inputs: seq<string>, isInput: string -> bool)
    requires AllInputs(inputs, isInput) && c.arguments == []
    requires c.environment != [] || Reads(c.script, Env, HasEquals)
    ensures Ambiguous(c, inputs, isInput)
  {
    var d;
    if c.environment != [] {
      var rest := DropFirst(c.environment);
      var first := SortTexts(EnvTexts(c.environment))[0];
      ScriptAndEntry(c, c.script, c.environment, rest);
      d := c.(script := c.script + Mark(Env) + first, arguments := [], environment := rest);
      Longer(c.script, Mark(Env), first);
      assert c == c.(script := c.script, arguments := [], environment := c.environment);
    } else {
      var a, b :| c.script == a + Mark(Env) + b && HasEquals(b);
      var e := EntryOf(b);
      assert EnvTexts([e]) == [b] && EnvTexts([]) == [];
      SortedAlready([b]);
      ScriptAndEntry(c, a, [e], []);
      d := c.(script := a, arguments := [], environment := [e]);
      Longer(a, Mark(Env), b);
      assert c == c.(script := a + Mark(Env) + b, arguments := [], environment := []);
    }
    RivalByParts(c, inputs, isInput, d, inputs);
  }

  /** An input can be part of the working directory, and part of the working directory an input. */
  lemma InputsAreAmbiguous(c: Command, inputs: seq<string>, isInput: string -> bool)
    requires AllInputs(inputs, isInput) && (inputs != [] || Reads(c.workingDirectory, In, isInput))
    ensures Ambiguous(c, inputs, isInput)
  {
    var w, ids := c.workingDirectory, SortTexts(inputs);
    SortKeeps(inputs);
    SortTextsIsSorted(inputs);
    if inputs != [] {
      var d := c.(workingDirectory := w + Mark(In) + ids[0]);
      SortedAlready(ids[1..]);
      Associative(w, Mark(In) + ids[0], Marks(In, ids[1..]));
      Associative(w, Mark(In), ids[0]);
      Longer(w, Mark(In), ids[0]);
      forall i | 0 <= i < |ids[1..]| ensures isInput(ids[1..][i]) { assert ids[i + 1] in inputs; }
      assert ScriptPart(d) == ScriptPart(c);
      RivalByParts(c, inputs, isInput, d, ids[1..]);
    } else {
      var a, b :| w == a + Mark(In) + b && isInput(b);
      var d := c.(workingDirectory := a);
      SortedAlready([b]);
      assert Marks(In, [b]) == Mark(In) + b;
      Associative(a, Mark(In), b);
      Longer(a, Mark(In), b);
      assert ScriptPart(d) == ScriptPart(c);
      RivalByParts(c, inputs, isInput, d, [b]);
    }
  }

  lemma ScriptMarkIsAmbiguous(c: Command, inputs: seq<string>, isInput: string -> bool)
    requires AllInputs(inputs, isInput)
    requires Reads(c.program, Script, Anything) || Reads(c.script, Script, Anything)
    ensures Ambiguous(c, inputs, isInput)
  {
    var m, d := Mark(Script), c;
    assert m == "\nscript\t";
    if Reads(c.program, Script, Anything) {
      var a, b :| c.program == a + m + b && Anything(b);
      d := c.(program := a, script := b + m + c.script);
      LineFeedCollides(c, inputs, a, b, c.script);
      assert c == c.(program := a + "\nscript\t" + b, script := c.script);
      Longer(a, m, b);
    } else {
      var a, b :| c.script == a + m + b && Anything(b);
      d := c.(program := c.program + m + a, script := b);
      LineFeedCollides(c, inputs, c.program, a, b);
      assert c == c.(program := c.program, script := a + "\nscript\t" + b);
      Longer(c.program, m, a);
    }
    assert Rival(c, inputs, isInput, d, inputs);
  }

  /** Without arguments and entries, script and working directory can trade places. */
  lemma ScriptAndDirectory(c: Command, inputs: seq<string>, a: string, b: string, w: string)
    requires c.arguments == [] && c.environment == []
    ensures Blob(c.(script := a + Mark(Cwd) + b, workingDirectory := w), inputs)
         == Blob(c.(script := a, workingDirectory := b + Mark(Cwd) + w), inputs)
  {
    var one, two := c.(script := a + Mark(Cwd) + b, workingDirectory := w), c.(script := a, workingDirectory := b + Mark(Cwd) + w);
    assert EnvTexts([]) == [];
    assert ScriptPart(one) == a + Mark(Cwd) + b && ScriptPart(two) == a;
    SameBlobExactly(one, inputs, two, inputs);
    Trade(c.program + Mark(Script), a, Mark(Cwd), b, w, Marks(In, SortTexts(inputs)));
  }

  lemma Trade(p: string, a: string, m: string, b: string, w: string, i: string)
    ensures p + (a + m + b) + m + (w + i) == p + a + m + (b + m + w + i)
  {
  }

  lemma DirectoryMarkIsAmbiguous(c: Command, inputs: seq<string>, isInput: string -> bool)
    requires AllInputs(inputs, isInput) && c.arguments == [] && c.environment == []
    requires Reads(c.script, Cwd, Anything) || Reads(c.workingDirectory, Cwd, Anything)
    ensures Ambiguous(c, inputs, isInput)
  {
    var m, d := Mark(Cwd), c;
    if Reads(c.script, Cwd, Anything) {
      var a, b :| c.script == a + m + b && Anything(b);
      d := c.(script := a, workingDirectory := b + m + c.workingDirectory);
      ScriptAndDirectory(c, inputs, a, b, c.workingDirectory);
      assert c == c.(script := a + m + b, workingDirectory := c.workingDirectory);
      Longer(a, m, b);
    } else {
      var a, b :| c.workingDirectory == a + m + b && Anything(b);
      d := c.(script := c.script + m + a, workingDirectory := b);
      ScriptAndDirectory(c, inputs, c.script, a, b);
      assert c == c.(script := c.script, workingDirectory := a + m + b);
      Longer(c.script, m, a);
    }
    assert Rival(c, inputs, isInput, d, inputs);
  }

  /** Which tasks share their text with a different one: all but those without arguments, environment entries and
      inputs in which nothing imitates a mark. `isInput` tells which texts identify inputs. */
  lemma AmbiguousExactly(c: Command, inputs: seq<string>, isInput: string -> bool)
    requires AllInputs(inputs, isInput)
    ensures Ambiguous(c, inputs, isInput) <==> !Alone(c, inputs, isInput)
  {
    if Alone(c, inputs, isInput) {
      forall d, others | AllInputs(others, isInput) && Blob(d, others) == Blob(c, inputs)
        ensures SameText(c, inputs, d, others)
      {
        AloneIsUnambiguous(c, inputs, isInput, d, others);
      }
    } else if c.arguments != [] || Reads(c.script, Arg, Anything) {
      ArgumentsAreAmbiguous(c, inputs, isInput);
    } else if c.environment != [] || Reads(c.script, Env, HasEquals) {
      EntriesAreAmbiguous(c, inputs, isInput);
    } else if inputs != [] || Reads(c.workingDirectory, In, isInput) {
      InputsAreAmbiguous(c, inputs, isInput);
    } else if Reads(c.program, Script, Anything) || Reads(c.script, Script, Anything) {
      ScriptMarkIsAmbiguous(c, inputs, isInput);
    } else {
      DirectoryMarkIsAmbiguous(c, inputs, isInput);
    }
  }
}
