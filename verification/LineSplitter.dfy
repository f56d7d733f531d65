/** Cutting a child's output stream into lines as it arrives in arbitrary reads. */
module LineSplitter {
  import opened Sequences

  const MAX_PARTIAL_LINE: nat := 1024 * 1024

  // ---- What a stream's lines are, one character at a time ----

  /** The lines delivered so far and the text behind the last line feed. */
  datatype Split = Split(lines: seq<string>, partial: string)

  function NothingRead(): Split { Split([], "") }

  function StripCr(line: string): string {
    if line != "" && line[|line| - 1] == '\r' then line[..|line| - 1] else line
  }

  function Next(s: Split, c: char): Split {
    if c == '\n' then Split(s.lines + [StripCr(s.partial)], "") else Split(s.lines, s.partial + [c])
  }

  function Feed(s: Split, text: string): Split {
    if text == "" then s else Next(Feed(s, text[..|text| - 1]), text[|text| - 1])
  }

  /** An unterminated line over the cap is delivered as it stands. */
  function Capped(s: Split): Split {
    if |s.partial| > MAX_PARTIAL_LINE then Split(s.lines + [s.partial], "") else s
  }

  /** The effect of one read. */
  function Receive(s: Split, chunk: string): Split {
    Capped(Feed(s, chunk))
  }

  function ReceiveAll(s: Split, chunks: seq<string>): Split {
    if chunks == [] then s else Receive(ReceiveAll(s, chunks[..|chunks| - 1]), chunks[|chunks| - 1])
  }

  /** All lines once the stream has ended: a last unterminated line is delivered verbatim. */
  function AtEof(s: Split): seq<string> {
    if s.partial == "" then s.lines else s.lines + [s.partial]
  }

  // ---- Feeding ----

  lemma {:induction false} FeedConcat(s: Split, a: string, b: string)
    ensures Feed(s, a + b) == Feed(Feed(s, a), b)
  {
    if b == "" {
      assert a + b == a;
    } else {
      assert (a + b)[..|a + b| - 1] == a + b[..|b| - 1];
      FeedConcat(s, a, b[..|b| - 1]);
    }
  }

  lemma {:induction false} FeedPlain(lines: seq<string>, partial: string, text: string)
    requires '\n' !in text
    ensures Feed(Split(lines, partial), text) == Split(lines, partial + text)
  {
    if text != "" {
      FeedPlain(lines, partial, text[..|text| - 1]);
      assert partial + text[..|text| - 1] + [text[|text| - 1]] == partial + text;
    } else {
      assert partial + text == partial;
    }
  }

  lemma FeedLine(lines: seq<string>, text: string)
    requires '\n' !in text
    ensures Feed(Split(lines, ""), text + "\n") == Split(lines + [StripCr(text)], "")
  {
    FeedPlain(lines, "", text);
    assert "" + text == text;
    assert (text + "\n")[..|text|] == text;
  }

  /** The next complete line of a text whose first `start` characters are delivered. */
  lemma DeliverOne(before: seq<string>, lines: seq<string>, text: string, start: nat, nl: nat)
    requires start <= nl < |text| && text[nl] == '\n' && '\n' !in text[start..nl]
    requires Split(lines, "") == Feed(Split(before, ""), text[..start])
    ensures Split(lines + [StripCr(text[start..nl])], "") == Feed(Split(before, ""), text[..nl + 1])
  {
    var line := text[start..nl];
    FeedLine(lines, line);
    CutOut(text, start, nl);
    assert [text[nl]] == "\n";
    FeedConcat(Split(before, ""), text[..start], line + "\n");
  }

  /** What follows the last line feed. */
  lemma DeliverRest(before: seq<string>, lines: seq<string>, text: string, start: nat)
    requires start <= |text| && '\n' !in text[start..]
    requires Split(lines, "") == Feed(Split(before, ""), text[..start])
    ensures Split(lines, text[start..]) == Feed(Split(before, ""), text)
  {
    var rest := text[start..];
    FeedPlain(lines, "", rest);
    assert "" + rest == rest;
    CutAt(text, start);
    FeedConcat(Split(before, ""), text[..start], rest);
  }

  lemma {:induction false} FeedKeepsPartial(s: Split, text: string)
    requires '\n' !in s.partial
    ensures '\n' !in Feed(s, text).partial
  {
    if text != "" { FeedKeepsPartial(s, text[..|text| - 1]); }
  }

  // ---- The reader ----

  datatype Read = Data(bytes: string) | Eof | WouldBlock | Interrupted | Failed

  class Stream {
    var partial: string
    var delivered: seq<string>
    var open: bool

    ghost predicate Valid()
      reads this
    {
      '\n' !in partial && |partial| <= MAX_PARTIAL_LINE
    }

    ghost function Now(): Split
      reads this
    {
      Split(delivered, partial)
    }

    constructor ()
      ensures Valid() && open && Now() == NothingRead()
    {
      partial, delivered, open := "", [], true;
    }

    method FindLineFeed(start: nat) returns (at: nat)
      requires start <= |partial|
      ensures start <= at <= |partial| && '\n' !in partial[start..at]
      ensures at < |partial| ==> partial[at] == '\n'
    {
      at := start;
      while at < |partial| && partial[at] != '\n'
        invariant start <= at <= |partial| && '\n' !in partial[start..at]
      {
        assert partial[start..at + 1] == partial[start..at] + [partial[at]];
        at := at + 1;
      }
    }

    /** Delivers the held text from start up to the line feed at nl. */
    method DeliverLine(start: nat, nl: nat)
      requires start <= nl < |partial|
      modifies this`delivered
      ensures delivered == old(delivered) + [StripCr(partial[start..nl])]
    {
      var end := nl;
      if end > start && partial[end - 1] == '\r' {
        end := end - 1;
      }
      ghost var line := partial[start..nl];
      assert start < nl ==> line[|line| - 1] == partial[nl - 1];
      assert partial[start..end] == StripCr(line);
      delivered := delivered + [partial[start..end]];
    }

    /** Delivers every complete line of the held text and keeps what follows the last line feed. */
    method DeliverLines()
      modifies this`partial, this`delivered
      ensures Now() == Feed(Split(old(delivered), ""), old(partial))
      ensures '\n' !in partial
    {
      var start := 0;
      var nl := FindLineFeed(start);
      ghost var before := delivered;
      while nl < |partial|
        invariant start <= nl <= |partial| && partial == old(partial)
        invariant '\n' !in partial[start..nl]
        invariant nl < |partial| ==> partial[nl] == '\n'
        invariant Split(delivered, "") == Feed(Split(before, ""), partial[..start])
        decreases |partial| - start
      {
        DeliverOne(before, delivered, partial, start, nl);
        DeliverLine(start, nl);
        start := nl + 1;
        nl := FindLineFeed(start);
      }
      assert partial[start..nl] == partial[start..];
      DeliverRest(before, delivered, partial, start);
      partial := partial[start..];
    }

    method EmitLines(chunk: string)
      requires Valid()
      modifies this`partial, this`delivered
      ensures Valid() && Now() == Receive(old(Now()), chunk)
    {
      FeedPlain(delivered, "", partial);
      assert "" + partial == partial;
      FeedConcat(Split(delivered, ""), partial, chunk);
      partial := partial + chunk;
      DeliverLines();
      if |partial| > MAX_PARTIAL_LINE {
        delivered := delivered + [partial];
        partial := "";
      }
    }

    /** Reads until the stream has nothing more for now; false means that it is closed. */
    method Drain(results: seq<Read>) returns (stillOpen: bool)
      requires Valid() && open
      modifies this
      ensures Valid() && stillOpen == open == !Closes(Consumed(results))
      ensures Now() == Drained(old(Now()), Consumed(results))
    {
      var i := 0;
      ghost var all := Consumed(results);
      ConsumedEnds(results);
      while i < |results|
        invariant i <= |results| && Valid() && open
        invariant all == results[..i] + Consumed(results[i..])
        invariant Now() == Drained(old(Now()), results[..i])
        invariant !Closes(results[..i])
      {
        var n := results[i];
        ConsumedStep(results, i);
        TakeMore(results, i);
        Whole(results[..i + 1]);
        i := i + 1;
        match n
        case Data(bytes) =>
          EmitLines(bytes);
        case Eof =>
          if partial != "" {
            delivered := delivered + [partial];
            partial := "";
          }
          open := false;
          return false;
        case WouldBlock =>
          return true;
        case Interrupted =>
        case Failed =>
          open := false;
          return false;
      }
      Whole(results);
      return true;
    }

    /** The reactor reads again whenever there may be something, as long as the stream is open. */
    method DrainOften(calls: seq<seq<Read>>)
      requires Valid() && open
      modifies this
      ensures Valid() && open == !Closes(ConsumedAll(calls))
      ensures Now() == Drained(old(Now()), ConsumedAll(calls))
    {
      ghost var taken: seq<Read> := [];
      Whole(calls);
      for i := 0 to |calls|
        invariant Valid() && open && !Closes(taken)
        invariant ConsumedAll(calls) == taken + ConsumedAll(calls[i..])
        invariant Now() == Drained(old(Now()), taken)
      {
        assert calls[i..][1..] == calls[i + 1..];
        ghost var more := Consumed(calls[i]);
        DrainedConcat(old(Now()), taken, more);
        Associative(taken, more, ConsumedAll(calls[i + 1..]));
        var stillOpen := Drain(calls[i]);
        taken := taken + more;
        if !stillOpen { return; }
      }
      assert calls[|calls|..] == [] && taken + [] == taken;
    }
  }

  /** After this result nothing more is read in the same call. */
  predicate Stops(read: Read) {
    read.Eof? || read.WouldBlock? || read.Failed?
  }

  /** The results of one call that are looked at. */
  function Consumed(results: seq<Read>): seq<Read> {
    if results == [] then [] else if Stops(results[0]) then [results[0]] else [results[0]] + Consumed(results[1..])
  }

  lemma ConsumedEnds(results: seq<Read>)
    ensures results[..0] + Consumed(results[0..]) == Consumed(results)
    ensures results[..|results|] + Consumed(results[|results|..]) == results
  {
    assert results[0..] == results && results[..0] == [];
    Whole(results);
    assert results[|results|..] == [] && results + [] == results;
  }

  lemma ConsumedStep(results: seq<Read>, i: nat)
    requires i < |results|
    ensures results[..i] + Consumed(results[i..])
         == results[..i + 1] + (if Stops(results[i]) then [] else Consumed(results[i + 1..]))
  {
    assert results[i..][1..] == results[i + 1..];
    TakeMore(results, i);
    if Stops(results[i]) {
      assert results[..i + 1] + [] == results[..i + 1];
    } else {
      Associative(results[..i], [results[i]], Consumed(results[i + 1..]));
    }
  }

  /** The last result closed the stream. */
  predicate Closes(results: seq<Read>) {
    results != [] && (results[|results| - 1].Eof? || results[|results| - 1].Failed?)
  }

  /** The results of all calls up to the one that closes the stream. */
  function ConsumedAll(calls: seq<seq<Read>>): seq<Read> {
    if calls == [] then []
    else if Closes(Consumed(calls[0])) then Consumed(calls[0])
    else Consumed(calls[0]) + ConsumedAll(calls[1..])
  }

  /** The effect of a run of read results: only data moves text, only the end of the stream flushes it. */
  function Drained(s: Split, results: seq<Read>): Split {
    if results == [] then s else
      var before := Drained(s, results[..|results| - 1]);
      match results[|results| - 1]
      case Data(bytes) => Receive(before, bytes)
      case Eof => Split(AtEof(before), "")
      case _ => before
  }

  /** The data among read results. */
  function DataOf(results: seq<Read>): seq<string> {
    if results == [] then [] else
      var before := DataOf(results[..|results| - 1]);
      match results[|results| - 1] case Data(bytes) => before + [bytes] case _ => before
  }

  /** Before the end of the stream, interrupted and empty-handed reads leave no trace. */
  lemma {:induction false} DrainedIsReceived(s: Split, results: seq<Read>)
    requires Eof !in results
    ensures Drained(s, results) == ReceiveAll(s, DataOf(results))
  {
    if results != [] {
      var init := results[..|results| - 1];
      DrainedIsReceived(s, init);
      var before := DataOf(init);
      match results[|results| - 1]
      case Data(bytes) => assert (before + [bytes])[..|before|] == before;
      case _ =>
    }
  }

  /** A stream read to its end, in however many calls, delivers the lines of its data. */
  lemma DrainedToTheEnd(results: seq<Read>)
    requires Eof !in results
    ensures Drained(NothingRead(), results + [Eof]) == Split(AtEof(ReceiveAll(NothingRead(), DataOf(results))), "")
  {
    assert (results + [Eof])[..|results|] == results;
    DrainedIsReceived(NothingRead(), results);
  }

  /** Calls one after another do what one call on all their results does. */
  lemma {:induction false} DrainedConcat(s: Split, a: seq<Read>, b: seq<Read>)
    ensures Drained(s, a + b) == Drained(Drained(s, a), b)
  {
    if b == [] {
      assert a + b == a;
    } else {
      assert (a + b)[..|a + b| - 1] == a + b[..|b| - 1];
      DrainedConcat(s, a, b[..|b| - 1]);
    }
  }

  // ---- Read boundaries ----

  /** The unterminated tail of the stream that the first k reads make up. */
  function TailAfter(chunks: seq<string>, k: nat): string
    requires k <= |chunks|
  {
    Feed(NothingRead(), Concat(chunks[..k])).partial
  }

  /** No read but the last one leaves an unterminated tail over the cap. */
  ghost predicate TailsFit(chunks: seq<string>) {
    forall k: nat :: k < |chunks| ==> |TailAfter(chunks, k)| <= MAX_PARTIAL_LINE
  }

  lemma TailAfterPrefix(chunks: seq<string>, n: nat, k: nat)
    requires k <= n <= |chunks|
    ensures TailAfter(chunks[..n], k) == TailAfter(chunks, k)
  {
    assert chunks[..n][..k] == chunks[..k];
  }

  /** While the tails fit, the reads together do what one read of the whole text does. */
  lemma {:induction false} FittingIsWhole(chunks: seq<string>)
    requires TailsFit(chunks)
    ensures ReceiveAll(NothingRead(), chunks) == Capped(Feed(NothingRead(), Concat(chunks)))
  {
    if chunks != [] {
      var n := |chunks| - 1;
      forall k: nat | k < n ensures |TailAfter(chunks[..n], k)| <= MAX_PARTIAL_LINE { TailAfterPrefix(chunks, n, k); }
      FittingIsWhole(chunks[..n]);
      assert |TailAfter(chunks, n)| <= MAX_PARTIAL_LINE;
      FeedConcat(NothingRead(), Concat(chunks[..n]), chunks[n]);
    }
  }

  /** A read that returns data returns some. */
  ghost predicate NonEmpty(chunks: seq<string>) {
    forall i :: 0 <= i < |chunks| ==> chunks[i] != ""
  }

  /** `s` has delivered more lines than `u`, and the end of the stream will not make up for it. */
  ghost predicate Ahead(s: Split, u: Split) {
    |s.lines| > |u.lines| && (s.partial == "" && u.partial != "" ==> |s.lines| > |u.lines| + 1)
  }

  lemma {:induction false} FeedAhead(s: Split, u: Split, text: string)
    requires |s.lines| > |u.lines| && text != ""
    ensures Ahead(Feed(s, text), Feed(u, text))
  {
    var init := text[..|text| - 1];
    if init != "" {
      FeedAhead(s, u, init);
    }
  }

  lemma ReceiveAhead(s: Split, u: Split, chunk: string)
    requires |s.lines| > |u.lines| && chunk != ""
    ensures Ahead(Receive(s, chunk), Feed(u, chunk))
  {
    FeedAhead(s, u, chunk);
  }

  lemma LastRead(chunks: seq<string>, n: nat)
    requires n + 1 == |chunks|
    ensures ReceiveAll(NothingRead(), chunks) == Receive(ReceiveAll(NothingRead(), chunks[..n]), chunks[n])
    ensures Feed(NothingRead(), Concat(chunks)) == Feed(Feed(NothingRead(), Concat(chunks[..n])), chunks[n])
  {
    FeedConcat(NothingRead(), Concat(chunks[..n]), chunks[n]);
  }

  /** One line cut short is never repaired: the counts of lines stay apart. */
  lemma {:induction false} CutStaysAhead(chunks: seq<string>, k: nat)
    requires k < |chunks| && NonEmpty(chunks)
    requires |ReceiveAll(NothingRead(), chunks[..k]).lines| > |Feed(NothingRead(), Concat(chunks[..k])).lines|
    ensures Ahead(ReceiveAll(NothingRead(), chunks), Feed(NothingRead(), Concat(chunks)))
  {
    var n := |chunks| - 1;
    var init := chunks[..n];
    if k < n {
      assert init[..k] == chunks[..k];
      CutStaysAhead(init, k);
    }
    LastRead(chunks, n);
    ReceiveAhead(ReceiveAll(NothingRead(), init), Feed(NothingRead(), Concat(init)), chunks[n]);
  }

  /** The first tail over the cap is delivered as a line of its own. */
  lemma {:induction false} FirstCut(chunks: seq<string>) returns (k: nat)
    requires !TailsFit(chunks)
    ensures k < |chunks|
    ensures |ReceiveAll(NothingRead(), chunks[..k]).lines| > |Feed(NothingRead(), Concat(chunks[..k])).lines|
  {
    var n := |chunks| - 1;
    var init := chunks[..n];
    if TailsFit(init) {
      forall j: nat | j < n ensures |TailAfter(chunks, j)| <= MAX_PARTIAL_LINE {
        TailAfterPrefix(chunks, n, j);
        assert |TailAfter(init, j)| <= MAX_PARTIAL_LINE;
      }
      k := n;
      FittingIsWhole(init);
    } else {
      k := FirstCut(init);
      assert init[..k] == chunks[..k];
    }
  }

  /** Read boundaries are invisible exactly when no read before the last leaves a tail over the cap. */
  lemma BoundariesInvisibleExactly(chunks: seq<string>)
    requires NonEmpty(chunks)
    ensures AtEof(ReceiveAll(NothingRead(), chunks)) == AtEof(Feed(NothingRead(), Concat(chunks))) <==> TailsFit(chunks)
  {
    if TailsFit(chunks) {
      FittingIsWhole(chunks);
    } else {
      var k := FirstCut(chunks);
      CutStaysAhead(chunks, k);
    }
  }

  lemma FeedWhole(text: string)
    requires '\n' !in text
    ensures Feed(NothingRead(), text) == Split([], text)
  {
    FeedPlain([], "", text);
    assert "" + text == text;
  }

  lemma ConcatSnoc(chunks: seq<string>)
    requires chunks != [] && '\n' !in Concat(chunks)
    ensures '\n' !in Concat(chunks[..|chunks| - 1])
  {
    var before := Concat(chunks[..|chunks| - 1]);
    forall k | 0 <= k < |before| ensures before[k] != '\n' { assert Concat(chunks)[k] == before[k]; }
  }

  /** A long line without a line feed that arrives in several reads, more than the cap before the last, is cut; in one
      read it is delivered whole. */
  lemma LongLineIsCut(chunks: seq<string>)
    requires NonEmpty(chunks) && chunks != [] && '\n' !in Concat(chunks)
    requires |Concat(chunks[..|chunks| - 1])| > MAX_PARTIAL_LINE
    ensures AtEof(Feed(NothingRead(), Concat(chunks))) == [Concat(chunks)]
    ensures AtEof(ReceiveAll(NothingRead(), chunks)) != [Concat(chunks)]
  {
    var n := |chunks| - 1;
    ConcatSnoc(chunks);
    FeedWhole(Concat(chunks[..n]));
    FeedWhole(Concat(chunks));
    assert TailAfter(chunks, n) == Concat(chunks[..n]);
    BoundariesInvisibleExactly(chunks);
  }

  // ---- Nothing is lost ----

  /** A delivered line together with what was removed behind it. */
  datatype Piece = Piece(text: string, end: string)

  function Joined(pieces: seq<Piece>): string {
    if pieces == [] then "" else Joined(pieces[..|pieces| - 1]) + pieces[|pieces| - 1].text + pieces[|pieces| - 1].end
  }

  function Texts(pieces: seq<Piece>): (r: seq<string>)
    ensures |r| == |pieces|
  {
    seq(|pieces|, i requires 0 <= i < |pieces| => pieces[i].text)
  }

  /** A line feed ended it, and one carriage return before that is gone with it. */
  ghost predicate Terminated(p: Piece) {
    && '\n' !in p.text
    && (p.end == "\r\n" || (p.end == "\n" && (p.text != "" ==> p.text[|p.text| - 1] != '\r')))
  }

  ghost predicate CutShort(p: Piece) {
    '\n' !in p.text && p.end == "" && |p.text| > MAX_PARTIAL_LINE
  }

  /** The stream is the delivered lines with their ends put back, and the partial line. */
  ghost predicate Accounts(stream: string, pieces: seq<Piece>, s: Split) {
    Texts(pieces) == s.lines && Joined(pieces) + s.partial == stream && '\n' !in s.partial
  }

  lemma TextsSnoc(pieces: seq<Piece>, p: Piece)
    ensures Texts(pieces + [p]) == Texts(pieces) + [p.text]
    ensures Joined(pieces + [p]) == Joined(pieces) + p.text + p.end
  {
    assert (pieces + [p])[..|pieces|] == pieces;
  }

  /** The line that a held text becomes when its line feed arrives. */
  function Ended(partial: string): Piece {
    Piece(StripCr(partial), if StripCr(partial) == partial then "\n" else "\r\n")
  }

  lemma EndedIsTerminated(partial: string)
    requires '\n' !in partial
    ensures Terminated(Ended(partial)) && Ended(partial).text + Ended(partial).end == partial + "\n"
  {
    var text := StripCr(partial);
    if text != partial {
      assert partial == text + ['\r'];
      Associative(text, ['\r'], ['\n']);
      assert ['\r'] + ['\n'] == "\r\n";
    }
  }

  lemma AccountNext(stream: string, pieces: seq<Piece>, s: Split, c: char) returns (more: seq<Piece>)
    requires Accounts(stream, pieces, s)
    ensures Accounts(stream + [c], pieces + more, Next(s, c))
    ensures forall i :: 0 <= i < |more| ==> Terminated(more[i])
  {
    if c == '\n' {
      var p := Ended(s.partial);
      EndedIsTerminated(s.partial);
      TextsSnoc(pieces, p);
      calc {
        Joined(pieces + [p]) + "";
        Joined(pieces) + (p.text + p.end);
        Joined(pieces) + (s.partial + "\n");
        stream + [c];
      }
      more := [p];
    } else {
      more := [];
      assert pieces + more == pieces;
      assert Joined(pieces) + (s.partial + [c]) == Joined(pieces) + s.partial + [c];
    }
  }

  lemma {:induction false} AccountFeed(stream: string, pieces: seq<Piece>, s: Split, text: string) returns (more: seq<Piece>)
    requires Accounts(stream, pieces, s)
    ensures Accounts(stream + text, pieces + more, Feed(s, text))
    ensures forall i :: 0 <= i < |more| ==> Terminated(more[i])
  {
    if text == "" {
      more := [];
      assert pieces + more == pieces && stream + text == stream;
    } else {
      var init, c := text[..|text| - 1], text[|text| - 1];
      var first := AccountFeed(stream, pieces, s, init);
      var last := AccountNext(stream + init, pieces + first, Feed(s, init), c);
      more := first + last;
      Associative(pieces, first, last);
      Associative(stream, init, [c]);
      assert init + [c] == text;
    }
  }

  lemma AccountCap(stream: string, pieces: seq<Piece>, s: Split) returns (more: seq<Piece>)
    requires Accounts(stream, pieces, s)
    ensures Accounts(stream, pieces + more, Capped(s))
    ensures forall i :: 0 <= i < |more| ==> CutShort(more[i])
  {
    if |s.partial| > MAX_PARTIAL_LINE {
      var cut := Piece(s.partial, "");
      TextsSnoc(pieces, cut);
      more := [cut];
    } else {
      more := [];
      assert pieces + more == pieces;
    }
  }

  /** Whatever the reads, the delivered lines and the partial line account for every byte but a line feed
      or a carriage return just before one; a line delivered without its line feed is over the cap. */
  lemma {:induction false} NothingLost(chunks: seq<string>) returns (pieces: seq<Piece>)
    ensures Accounts(Concat(chunks), pieces, ReceiveAll(NothingRead(), chunks))
    ensures forall i :: 0 <= i < |pieces| ==> Terminated(pieces[i]) || CutShort(pieces[i])
  {
    if chunks == [] {
      pieces := [];
    } else {
      var init, chunk := chunks[..|chunks| - 1], chunks[|chunks| - 1];
      var before := NothingLost(init);
      var s := ReceiveAll(NothingRead(), init);
      var more := AccountFeed(Concat(init), before, s, chunk);
      var u := Feed(s, chunk);
      var cut := AccountCap(Concat(chunks), before + more, u);
      pieces := before + more + cut;
    }
  }

  // ---- The lines are determined by the stream ----

  /** What it means to be the lines of a stream, without saying how to find them. */
  ghost predicate LinesOf(stream: string, lines: seq<string>, partial: string) {
    exists pieces :: Accounts(stream, pieces, Split(lines, partial)) && forall i :: 0 <= i < |pieces| ==> Terminated(pieces[i])
  }

  lemma FeedGivesLines(stream: string)
    ensures LinesOf(stream, Feed(NothingRead(), stream).lines, Feed(NothingRead(), stream).partial)
  {
    assert Accounts("", [], NothingRead());
    var pieces := AccountFeed("", [], NothingRead(), stream);
    assert "" + stream == stream && [] + pieces == pieces;
    assert Accounts(stream, pieces, Split(Feed(NothingRead(), stream).lines, Feed(NothingRead(), stream).partial));
  }

  lemma LineOf(p: Piece) returns (line: string)
    requires Terminated(p)
    ensures '\n' !in line && StripCr(line) == p.text && line + "\n" == p.text + p.end
  {
    if p.end == "\n" {
      line := p.text;
    } else {
      line := p.text + "\r";
      assert line + "\n" == p.text + p.end;
    }
  }

  lemma {:induction false} FeedFindsPieces(pieces: seq<Piece>)
    requires forall i :: 0 <= i < |pieces| ==> Terminated(pieces[i])
    ensures Feed(NothingRead(), Joined(pieces)) == Split(Texts(pieces), "")
  {
    if pieces != [] {
      var n := |pieces| - 1;
      var init, p := pieces[..n], pieces[n];
      FeedFindsPieces(init);
      assert pieces == init + [p];
      TextsSnoc(init, p);
      var line := LineOf(p);
      assert Joined(pieces) == Joined(init) + (p.text + p.end);
      FeedConcat(NothingRead(), Joined(init), line + "\n");
      FeedLine(Texts(init), line);
    }
  }

  /** A stream has the lines that are delivered, and no others. */
  lemma LinesUnique(stream: string, lines: seq<string>, partial: string)
    ensures LinesOf(stream, lines, partial) <==> Feed(NothingRead(), stream) == Split(lines, partial)
  {
    FeedGivesLines(stream);
    if LinesOf(stream, lines, partial) {
      var pieces :| Accounts(stream, pieces, Split(lines, partial)) && forall i :: 0 <= i < |pieces| ==> Terminated(pieces[i]);
      FeedFindsPieces(pieces);
      FeedConcat(NothingRead(), Joined(pieces), partial);
      FeedPlain(lines, "", partial);
      assert "" + partial == partial;
    }
  }

  // ---- What a closed stream has lost ----

  function JoinedFront(pieces: seq<Piece>): string {
    if pieces == [] then "" else pieces[0].text + pieces[0].end + JoinedFront(pieces[1..])
  }

  lemma {:induction false} JoinedFrontSnoc(pieces: seq<Piece>, p: Piece)
    ensures JoinedFront(pieces + [p]) == JoinedFront(pieces) + (p.text + p.end)
  {
    if pieces == [] {
      assert ([] + [p])[1..] == [];
    } else {
      assert (pieces + [p])[1..] == pieces[1..] + [p];
      JoinedFrontSnoc(pieces[1..], p);
      Associative(pieces[0].text + pieces[0].end, JoinedFront(pieces[1..]), p.text + p.end);
    }
  }

  lemma {:induction false} JoinedBothWays(pieces: seq<Piece>)
    ensures Joined(pieces) == JoinedFront(pieces)
  {
    if pieces != [] {
      var n := |pieces| - 1;
      JoinedBothWays(pieces[..n]);
      JoinedFrontSnoc(pieces[..n], pieces[n]);
      assert pieces == pieces[..n] + [pieces[n]];
      Associative(Joined(pieces[..n]), pieces[n].text, pieces[n].end);
    }
  }

  /** A last line that the end of the stream delivered as it stands. */
  ghost predicate Verbatim(p: Piece) {
    '\n' !in p.text && p.end == "" && p.text != ""
  }

  /** What was delivered while the stream was open. */
  ghost predicate Delivered(pieces: seq<Piece>) {
    forall i :: 0 <= i < |pieces| ==> Terminated(pieces[i]) || CutShort(pieces[i])
  }

  /** The same, where the last line may be unterminated. */
  ghost predicate DeliveredToTheEnd(pieces: seq<Piece>) {
    forall i :: 0 <= i < |pieces| ==>
      Terminated(pieces[i]) || CutShort(pieces[i]) || (i == |pieces| - 1 && Verbatim(pieces[i]))
  }

  /** Every byte of the stream is in a delivered line or among the line ends removed behind one. */
  ghost predicate Accounted(stream: string, lines: seq<string>) {
    exists pieces :: Texts(pieces) == lines && Joined(pieces) == stream && DeliveredToTheEnd(pieces)
  }

  predicate LineEnd(e: string) {
    e == "\n" || e == "\r\n"
  }

  lemma EndsDiffer(e: string, f: string, x: string, y: string)
    requires LineEnd(e) && LineEnd(f)
    ensures e + x == f + y ==> e == f && x == y
  {
    assert (e + x)[0] == e[0] && (f + y)[0] == f[0];
    assert x == (e + x)[|e|..] && y == (f + y)[|f|..];
  }

  lemma CancelText(t: string, x: string, y: string)
    ensures t + x == t + y ==> x == y
  {
    assert x == (t + x)[|t|..] && y == (t + y)[|t|..];
  }

  /** A line is not confused with the end of another one. */
  lemma TextIsNoEnd(p: Piece, x: string, e: string, y: string)
    requires (Terminated(p) || CutShort(p)) && p.text != "" && LineEnd(e)
    ensures p.text + (p.end + x) != e + y
  {
    var l, r := p.text + (p.end + x), e + y;
    assert l[0] == p.text[0] && r[0] == e[0];
    if e == "\r\n" && p.text[0] == '\r' {
      assert r[1] == '\n';
      if |p.text| > 1 {
        assert l[1] == p.text[1];
      } else {
        assert p.end == "\r\n" && l[1] == '\r';
      }
    }
  }

  lemma LastIsNoEnd(p: Piece, e: string, y: string)
    requires Verbatim(p) && LineEnd(e)
    ensures p.text + p.end != e + y
  {
    assert (e + y)[|e| - 1] == '\n' && '\n' in e + y;
    assert p.text + p.end == p.text;
  }

  /** The first lines of both, and what follows them. */
  lemma FirstPieces(a: seq<Piece>, b: seq<Piece>, rest: string)
    requires Delivered(a) && DeliveredToTheEnd(b) && Texts(a) == Texts(b) && a != []
    ensures b != [] && a[0].text == b[0].text && Texts(a[1..]) == Texts(b[1..])
    ensures Delivered(a[1..]) && DeliveredToTheEnd(b[1..])
    ensures Terminated(a[0]) || CutShort(a[0])
    ensures Terminated(b[0]) || CutShort(b[0]) || (b[1..] == [] && Verbatim(b[0]))
    ensures JoinedFront(a) + rest == a[0].text + (a[0].end + (JoinedFront(a[1..]) + rest))
    ensures JoinedFront(b) == b[0].text + (b[0].end + JoinedFront(b[1..]))
  {
    assert |Texts(a)| == |a| && |Texts(b)| == |b|;
    assert Texts(a)[0] == Texts(b)[0];
    assert Texts(a[1..]) == Texts(a)[1..] && Texts(b[1..]) == Texts(b)[1..];
    Associative(a[0].text, a[0].end, JoinedFront(a[1..]));
    Associative(a[0].text, a[0].end + JoinedFront(a[1..]), rest);
    Associative(a[0].end, JoinedFront(a[1..]), rest);
    Associative(b[0].text, b[0].end, JoinedFront(b[1..]));
  }

  /** What is held back cannot hide: the delivered lines account for a text in one way only. */
  lemma {:induction false} NothingHeldBack(a: seq<Piece>, b: seq<Piece>, rest: string)
    requires Delivered(a) && DeliveredToTheEnd(b) && Texts(a) == Texts(b) && '\n' !in rest && rest != ""
    ensures JoinedFront(a) + rest != JoinedFront(b)
    decreases |a|
  {
    if a == [] {
      assert |Texts(b)| == 0;
    } else {
      FirstPieces(a, b, rest);
      var p, q, x, y := a[0], b[0], JoinedFront(a[1..]) + rest, JoinedFront(b[1..]);
      CancelText(p.text, p.end + x, q.end + y);
      if p.end == q.end {
        NothingHeldBack(a[1..], b[1..], rest);
        CancelText(p.end, x, y);
      } else if p.end == "" {
        EndAhead(a[1..], b[1..], rest, q.end);
      } else if q.end == "" {
        EndBehind(a[1..], b[1..], rest, p.end);
      } else {
        EndsDiffer(p.end, q.end, x, y);
      }
    }
  }

  lemma {:induction false} EndAhead(a: seq<Piece>, b: seq<Piece>, rest: string, e: string)
    requires Delivered(a) && DeliveredToTheEnd(b) && Texts(a) == Texts(b) && '\n' !in rest && rest != "" && LineEnd(e)
    ensures JoinedFront(a) + rest != e + JoinedFront(b)
    decreases |a|
  {
    if a == [] {
      assert e[|e| - 1] == '\n' && (e + JoinedFront(b))[|e| - 1] == '\n';
      assert JoinedFront(a) + rest == rest;
    } else {
      FirstPieces(a, b, rest);
      var p, q, x, y := a[0], b[0], JoinedFront(a[1..]) + rest, JoinedFront(b[1..]);
      if p.text != "" {
        TextIsNoEnd(p, x, e, JoinedFront(b));
      } else {
        assert JoinedFront(a) + rest == p.end + x && JoinedFront(b) == q.end + y;
        EndAhead(a[1..], b[1..], rest, q.end);
        EndsDiffer(p.end, e, x, q.end + y);
      }
    }
  }

  lemma {:induction false} EndBehind(a: seq<Piece>, b: seq<Piece>, rest: string, e: string)
    requires Delivered(a) && DeliveredToTheEnd(b) && Texts(a) == Texts(b) && '\n' !in rest && rest != "" && LineEnd(e)
    ensures e + (JoinedFront(a) + rest) != JoinedFront(b)
    decreases |a|
  {
    if a == [] {
      assert |Texts(b)| == 0;
    } else {
      FirstPieces(a, b, rest);
      var p, q, x, y := a[0], b[0], JoinedFront(a[1..]) + rest, JoinedFront(b[1..]);
      if q.text == "" {
        assert JoinedFront(a) + rest == p.end + x && JoinedFront(b) == q.end + y;
        EndBehind(a[1..], b[1..], rest, p.end);
        EndsDiffer(e, q.end, p.end + x, y);
      } else if Terminated(q) || CutShort(q) {
        TextIsNoEnd(q, y, e, JoinedFront(a) + rest);
      } else {
        LastIsNoEnd(q, e, JoinedFront(a) + rest);
      }
    }
  }

  /** A closed stream has lost nothing exactly when it was read to its end or nothing was held when reading failed. */
  lemma ClosedAccountsExactly(results: seq<Read>, last: Read)
    requires Eof !in results && (last == Eof || last == Failed)
    ensures Accounted(Concat(DataOf(results)), Drained(NothingRead(), results + [last]).lines)
       <==> last == Eof || ReceiveAll(NothingRead(), DataOf(results)).partial == ""
  {
    var stream, s := Concat(DataOf(results)), ReceiveAll(NothingRead(), DataOf(results));
    assert (results + [last])[..|results|] == results;
    DrainedIsReceived(NothingRead(), results);
    var pieces := NothingLost(DataOf(results));
    assert Delivered(pieces);
    if s.partial == "" {
      assert Joined(pieces) + "" == Joined(pieces);
      assert DeliveredToTheEnd(pieces);
    } else if last == Eof {
      FinalPiece(stream, pieces, s);
    } else if Accounted(stream, s.lines) {
      var others :| Texts(others) == s.lines && Joined(others) == stream && DeliveredToTheEnd(others);
      JoinedBothWays(pieces);
      JoinedBothWays(others);
      NothingHeldBack(pieces, others, s.partial);
    }
  }

  lemma FinalPiece(stream: string, pieces: seq<Piece>, s: Split)
    requires Accounts(stream, pieces, s) && Delivered(pieces) && s.partial != ""
    ensures Accounted(stream, s.lines + [s.partial])
  {
    var final := Piece(s.partial, "");
    TextsSnoc(pieces, final);
    assert Joined(pieces + [final]) == stream;
    assert DeliveredToTheEnd(pieces + [final]);
  }

  /** A text without a line feed is held back whole. */
  lemma PlainIsHeld(text: string)
    requires '\n' !in text && |text| <= MAX_PARTIAL_LINE
    ensures Drained(NothingRead(), [Data(text)]) == Split([], text)
  {
    var results := [Data(text)];
    assert results[..0] == [] && Drained(NothingRead(), []) == NothingRead();
    FeedPlain([], "", text);
    assert "" + text == text;
  }

  /** A text without a line feed that arrives before reading fails is never delivered. */
  lemma FailedReadLoses(text: string)
    requires text != "" && '\n' !in text && |text| <= MAX_PARTIAL_LINE
    ensures Drained(NothingRead(), [Data(text), Failed]).lines == []
    ensures !Accounted(text, [])
  {
    var results := [Data(text)];
    PlainIsHeld(text);
    assert results[..0] == [] && DataOf(results) == [text];
    assert [text][..0] == [] && Concat([text]) == text;
    assert [Data(text), Failed][..1] == results;
    assert results + [Failed] == [Data(text), Failed];
    ClosedAccountsExactly(results, Failed);
  }
}
