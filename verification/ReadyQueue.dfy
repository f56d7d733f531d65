/** The ready queue: a list kept best-first under the default scheduling policy. */
module ReadyQueues {
  import opened Sequences
  import opened TextOrder

  datatype ReadyEntry = ReadyEntry(node: nat, taskId: string, priority: int, readySince: int)

  /** Higher priority first, then earlier readiness, then the smaller id. */
  predicate Prefer(a: ReadyEntry, b: ReadyEntry) {
    if a.priority != b.priority then a.priority > b.priority
    else if a.readySince != b.readySince then a.readySince < b.readySince
    else TextLess(a.taskId, b.taskId)
  }

  /** Entries of different tasks are always ordered, one way only. */
  lemma PreferTotal(a: ReadyEntry, b: ReadyEntry)
    ensures !(Prefer(a, b) && Prefer(b, a))
    ensures a.taskId != b.taskId ==> Prefer(a, b) || Prefer(b, a)
  {
    TextTotal(a.taskId, b.taskId);
  }

  lemma PreferTransitive(a: ReadyEntry, b: ReadyEntry, c: ReadyEntry)
    requires Prefer(a, b) && Prefer(b, c)
    ensures Prefer(a, c)
  {
    if TextLess(a.taskId, b.taskId) && TextLess(b.taskId, c.taskId) {
      TextTransitive(a.taskId, b.taskId, c.taskId);
    }
  }

  ghost predicate Sorted(q: seq<ReadyEntry>) {
    forall i, j :: 0 <= i < j < |q| ==> Prefer(q[i], q[j])
  }

  predicate DistinctIds(q: seq<ReadyEntry>) {
    forall i, j :: 0 <= i < j < |q| ==> q[i].taskId != q[j].taskId
  }

  predicate HasId(q: seq<ReadyEntry>, id: string) {
    exists e :: e in q && e.taskId == id
  }

  /** Insertion in front of the first entry the new one is preferred over. */
  function Insert(q: seq<ReadyEntry>, e: ReadyEntry): (r: seq<ReadyEntry>)
    ensures |r| == |q| + 1
    ensures forall x :: x in r <==> x == e || x in q
  {
    if q == [] then [e]
    else if Prefer(e, q[0]) then [e] + q
    else
      assert q == [q[0]] + q[1..];
      [q[0]] + Insert(q[1..], e)
  }

  lemma {:induction false} InsertKeepsOrder(q: seq<ReadyEntry>, e: ReadyEntry)
    requires Sorted(q) && DistinctIds(q) && !HasId(q, e.taskId)
    ensures Sorted(Insert(q, e)) && DistinctIds(Insert(q, e))
    decreases |q|
  {
    if q == [] {
    } else if Prefer(e, q[0]) {
      forall x | x in q ensures Prefer(e, x) && x.taskId != e.taskId {
        if x != q[0] { PreferTransitive(e, q[0], x); }
      }
    } else {
      var rest := Insert(q[1..], e);
      assert forall x :: x in q[1..] ==> x in q;
      assert !HasId(q[1..], e.taskId);
      InsertKeepsOrder(q[1..], e);
      PreferTotal(q[0], e);
      assert q[0] in q;
      forall x | x in rest ensures Prefer(q[0], x) && x.taskId != q[0].taskId {}
    }
  }

  /** Inserts a list of entries one after another. */
  function InsertAll(q: seq<ReadyEntry>, es: seq<ReadyEntry>): (r: seq<ReadyEntry>)
    ensures |r| == |q| + |es|
    ensures forall x :: x in r <==> x in q || x in es
    decreases |es|
  {
    if es == [] then q
    else
      var front, last := es[..|es| - 1], es[|es| - 1];
      assert es == front + [last];
      Insert(InsertAll(q, front), last)
  }

  lemma {:induction false} InsertAllKeepsOrder(q: seq<ReadyEntry>, es: seq<ReadyEntry>)
    requires Sorted(q) && DistinctIds(q) && DistinctIds(es)
    requires forall x :: x in es ==> !HasId(q, x.taskId)
    ensures Sorted(InsertAll(q, es)) && DistinctIds(InsertAll(q, es))
    decreases |es|
  {
    if es != [] {
      var front, last := es[..|es| - 1], es[|es| - 1];
      assert es == front + [last];
      InsertAllKeepsOrder(q, front);
      assert !HasId(InsertAll(q, front), last.taskId);
      InsertKeepsOrder(InsertAll(q, front), last);
    }
  }

  /** Drops the first entry with the given id, if any. */
  function RemoveId(q: seq<ReadyEntry>, id: string): (r: seq<ReadyEntry>)
    ensures |r| <= |q|
    ensures forall x :: x in r ==> x in q
  {
    if q == [] then []
    else if q[0].taskId == id then q[1..]
    else [q[0]] + RemoveId(q[1..], id)
  }

  lemma {:induction false} RemoveIdMembers(q: seq<ReadyEntry>, id: string)
    requires DistinctIds(q)
    ensures forall x :: x in RemoveId(q, id) <==> x in q && x.taskId != id
    decreases |q|
  {
    if q != [] {
      assert q == [q[0]] + q[1..];
      RemoveIdMembers(q[1..], id);
      assert forall x :: x in q[1..] ==> x.taskId != q[0].taskId;
    }
  }

  /** The front entry stays ahead of any selection of the others. */
  lemma FrontAhead(q: seq<ReadyEntry>, rest: seq<ReadyEntry>)
    requires q != [] && DistinctIds(q) && DistinctIds(rest) && (forall x :: x in rest ==> x in q[1..])
    requires Sorted(q) ==> Sorted(rest)
    ensures DistinctIds([q[0]] + rest) && (Sorted(q) ==> Sorted([q[0]] + rest))
  {
    forall k | 0 <= k < |rest| ensures rest[k].taskId != q[0].taskId && (Sorted(q) ==> Prefer(q[0], rest[k])) {
      assert rest[k] in rest;
      var i :| 0 <= i < |q[1..]| && q[1..][i] == rest[k];
      assert q[i + 1] == rest[k];
    }
  }

  lemma {:induction false} RemoveIdKeepsOrder(q: seq<ReadyEntry>, id: string)
    requires DistinctIds(q)
    ensures Sorted(q) ==> Sorted(RemoveId(q, id))
    ensures DistinctIds(RemoveId(q, id))
    decreases |q|
  {
    if q != [] && q[0].taskId != id {
      RemoveIdKeepsOrder(q[1..], id);
      FrontAhead(q, RemoveId(q[1..], id));
    }
  }

  lemma {:induction false} RemoveAbsentId(q: seq<ReadyEntry>, id: string)
    requires !HasId(q, id)
    ensures RemoveId(q, id) == q
    decreases |q|
  {
    if q != [] {
      assert q[0] in q && forall x :: x in q[1..] ==> x in q;
      assert !HasId(q[1..], id);
      RemoveAbsentId(q[1..], id);
      assert q == [q[0]] + q[1..];
    }
  }

  /** The insertion point is the first entry that the new one is preferred over. */
  lemma {:induction false} InsertAt(q: seq<ReadyEntry>, e: ReadyEntry, pos: nat)
    requires pos <= |q| && (forall j :: 0 <= j < pos ==> !Prefer(e, q[j])) && (pos == |q| || Prefer(e, q[pos]))
    ensures Insert(q, e) == q[..pos] + [e] + q[pos..]
    decreases pos
  {
    if pos > 0 {
      InsertAt(q[1..], e, pos - 1);
      CutTail(q, pos);
      Associative([q[0]], q[1..][..pos - 1], [e]);
      Associative([q[0]], q[1..][..pos - 1] + [e], q[pos..]);
    }
  }

  lemma {:induction false} RemoveAt(q: seq<ReadyEntry>, id: string, k: nat)
    requires k <= |q| && (forall j :: 0 <= j < k ==> q[j].taskId != id) && (k == |q| || q[k].taskId == id)
    ensures RemoveId(q, id) == if k == |q| then q else q[..k] + q[k + 1..]
    decreases k
  {
    if k > 0 {
      RemoveAt(q[1..], id, k - 1);
      HeadAndTail(q);
      CutTail(q, k);
      if k < |q| {
        CutTail(q, k + 1);
        Associative([q[0]], q[1..][..k - 1], q[k + 1..]);
      }
    }
  }

  class ReadyQueue {
    var entries: seq<ReadyEntry>

    constructor ()
      ensures entries == []
    {
      entries := [];
    }

    /** Finds the first entry the new one is preferred over and inserts before it. */
    method Push(e: ReadyEntry)
      modifies this
      ensures entries == Insert(old(entries), e)
    {
      var pos := 0;
      while pos < |entries| && !Prefer(e, entries[pos])
        invariant 0 <= pos <= |entries|
        invariant forall j :: 0 <= j < pos ==> !Prefer(e, entries[j])
      {
        pos := pos + 1;
      }
      InsertAt(entries, e, pos);
      entries := entries[..pos] + [e] + entries[pos..];
    }

    /** Takes the best entry, which no other entry is preferred over. */
    method PopBest() returns (best: ReadyEntry)
      requires entries != [] && Sorted(entries)
      modifies this
      ensures best == old(entries)[0] && entries == old(entries)[1..]
      ensures forall e :: e in entries ==> Prefer(best, e)
      ensures Sorted(entries)
    {
      best := entries[0];
      entries := entries[1..];
    }

    method Remove(id: string) returns (removed: bool)
      modifies this
      ensures removed == HasId(old(entries), id)
      ensures entries == RemoveId(old(entries), id)
    {
      var k := 0;
      while k < |entries| && entries[k].taskId != id
        invariant 0 <= k <= |entries|
        invariant forall j :: 0 <= j < k ==> entries[j].taskId != id
      {
        k := k + 1;
      }
      RemoveAt(entries, id, k);
      removed := k < |entries|;
      if removed {
        assert entries[k] in entries;
        entries := entries[..k] + entries[k + 1..];
      }
    }

    method Drain() returns (drained: seq<ReadyEntry>)
      modifies this
      ensures drained == old(entries) && entries == []
    {
      drained := entries;
      entries := [];
    }
  }
}
