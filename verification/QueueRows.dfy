/**
 One queued row over time: what a drain does to it, and that over any run it either stands, or was
 answered, or went with its peer.
 */
module QueueRows {
  import opened Common
  import opened Route
  import opened Queue
  import opened QueueRuns

  // ---------- One row through a drain ----------

  /** Versions of one row: the same id, mail, priority and age; only the attempts and the last error may differ. */
  predicate SameRow(a: Row, b: Row) {
    Rearmed(a) == Rearmed(b)
  }

  ghost predicate Stands(rows: seq<Row>, r: Row) {
    exists x :: x in rows && SameRow(x, r)
  }

  /** No table row of `after` is new, and a row of `before` for which `keep` holds is still there. */
  ghost predicate Inherits(before: seq<Row>, after: seq<Row>, keep: Row -> bool) {
    && (forall x :: x in after ==> Stands(before, x))
    && (forall q :: q in before && keep(q) ==> Stands(after, q))
  }

  ghost predicate Blind(keep: Row -> bool) {
    forall a, b :: SameRow(a, b) ==> keep(a) == keep(b)
  }

  lemma SameRowSays(x: Row, y: Row)
    requires SameRow(x, y)
    ensures x.id == y.id && x.letter == y.letter && x.priority == y.priority && x.createdAt == y.createdAt
  {
    assert Rearmed(x).id == Rearmed(y).id && Rearmed(x).letter == Rearmed(y).letter;
    assert Rearmed(x).priority == Rearmed(y).priority && Rearmed(x).createdAt == Rearmed(y).createdAt;
  }

  lemma StandsTrans(a: seq<Row>, x: Row, y: Row)
    requires Stands(a, y) && SameRow(y, x)
    ensures Stands(a, x)
  {
    var z :| z in a && SameRow(z, y);
    assert SameRow(z, x);
  }

  lemma InheritsTrans(a: seq<Row>, b: seq<Row>, c: seq<Row>, keep: Row -> bool)
    requires Blind(keep) && Inherits(a, b, keep) && Inherits(b, c, keep)
    ensures Inherits(a, c, keep)
  {
    forall x | x in c
      ensures Stands(a, x)
    {
      var y :| y in b && SameRow(y, x);
      StandsTrans(a, x, y);
    }
    forall q | q in a && keep(q)
      ensures Stands(c, q)
    {
      var y :| y in b && SameRow(y, q);
      assert SameRow(y, q) ==> keep(y) == keep(q);
      StandsTrans(c, q, y);
    }
  }

  lemma RowByRow(a: seq<Row>, b: seq<Row>, keep: Row -> bool)
    requires |a| == |b| && forall i :: 0 <= i < |a| ==> SameRow(a[i], b[i])
    ensures Inherits(a, b, keep)
  {
    forall x | x in b
      ensures Stands(a, x)
    {
      var i :| 0 <= i < |b| && b[i] == x;
      assert a[i] in a;
    }
    forall q | q in a
      ensures Stands(b, q)
    {
      var i :| 0 <= i < |a| && a[i] == q;
      assert b[i] in b;
    }
  }

  lemma FilterInherits(rows: seq<Row>, p: Row -> bool, keep: Row -> bool)
    requires UniqueIds(rows)
    requires forall r :: r in rows && keep(r) ==> p(r)
    ensures Inherits(rows, Filter(rows, p), keep)
  {
    FilterFacts(rows, p);
    forall r | r in rows && keep(r)
      ensures Stands(Filter(rows, p), r)
    {
      assert r in Filter(rows, p) && SameRow(r, r);
    }
    forall r | r in Filter(rows, p)
      ensures Stands(rows, r)
    {
      assert r in rows && SameRow(r, r);
    }
  }

  /** No item of this batch delivers this row. */
  ghost predicate Undelivered(batch: seq<Row>, oracle: Row -> Outcome, q: Row) {
    forall y :: y in batch && y.id == q.id ==> !Delivered(oracle(y))
  }

  lemma ItemInherits(s: State, item: Row, o: Outcome, keep: Row -> bool)
    requires Inv(s) && item in s.rows
    requires forall q :: q in s.rows && q.id == item.id && keep(q) ==> !Delivered(o)
    ensures Inherits(s.rows, ItemStep(s, item, o).rows, keep)
  {
    if Sent(s, item, o) {
      FilterInherits(s.rows, OtherThan(item.id), keep);
    } else {
      var got := Transmit(s.peers, item.letter.serverId, Encodable(item.letter.body.value), o);
      RowByRow(s.rows, Blame(s.rows, item.id, Reason(got)), keep);
    }
  }

  lemma {:induction false} ItemsInherit(s: State, batch: seq<Row>, oracle: Row -> Outcome, keep: Row -> bool)
    requires Inv(s) && Collected(s, batch) && Blind(keep)
    requires forall q, y :: keep(q) && y in batch && y.id == q.id ==> !Delivered(oracle(y))
    ensures Inherits(s.rows, ItemsStep(s, batch, oracle).rows, keep)
    decreases |batch|
  {
    if batch == [] {
      RowByRow(s.rows, s.rows, keep);
    } else {
      var item, rest := batch[0], batch[1..];
      var s' := ItemStep(s, item, oracle(item));
      CollectedRest(s, batch, oracle(item));
      assert item in batch && forall y :: y in rest ==> y in batch;
      ItemInherits(s, item, oracle(item), keep);
      ItemsInherit(s', rest, oracle, keep);
      InheritsTrans(s.rows, s'.rows, ItemsStep(s', rest, oracle).rows, keep);
    }
  }

  /** A drain brings in no row, and only a delivery takes one out. */
  lemma DrainInherits(s: State, batch: seq<Row>, oracle: Row -> Outcome)
    requires Inv(s) && FirstOf(Due(s), BATCH, batch)
    ensures forall x :: x in DrainStep(s, batch, oracle).rows ==> Stands(s.rows, x)
    ensures forall q :: q in s.rows && Undelivered(batch, oracle, q) ==> Stands(DrainStep(s, batch, oracle).rows, q)
  {
    var s1, keep := s.(rows := Rearm(s.peers, s.rows)), (q: Row) => Undelivered(batch, oracle, q);
    BatchIsCollected(s, batch);
    RowByRow(s.rows, s1.rows, keep);
    ItemsInherit(s1, batch, oracle, keep);
    InheritsTrans(s.rows, s1.rows, DrainStep(s, batch, oracle).rows, keep);
  }

  ghost predicate HasId(rows: seq<Row>, id: int) {
    exists x :: x in rows && x.id == id
  }

  /** What a drain delivers is gone. */
  lemma {:induction false} DeliveredIsGone(s: State, batch: seq<Row>, oracle: Row -> Outcome, y: Row)
    requires Inv(s) && Collected(s, batch)
    requires y in batch && Sent(s, y, oracle(y))
    ensures !HasId(ItemsStep(s, batch, oracle).rows, y.id)
    decreases |batch|
  {
    var item, rest := batch[0], batch[1..];
    var s' := ItemStep(s, item, oracle(item));
    CollectedRest(s, batch, oracle(item));
    if y == item {
      FilterFacts(s.rows, OtherThan(item.id));
      ItemsInherit(s', rest, oracle, (_: Row) => false);
    } else {
      assert y in rest;
      DeliveredIsGone(s', rest, oracle, y);
    }
  }

  // ---------- One row through a run ----------

  /** The event leaves this row in the queue. */
  ghost predicate Spared(e: Event, q: Row) {
    match e
    case Drain(batch, oracle) => Undelivered(batch, oracle, q)
    case Delete(id) => q.letter.serverId != id
    case _ => true
  }

  lemma EventInherits(s: State, e: Event)
    requires Inv(s) && Enabled(s, e)
    ensures Apply(s, e).nextId >= s.nextId
    ensures forall x :: x in Apply(s, e).rows && x.id < s.nextId ==> Stands(s.rows, x)
    ensures forall q :: q in s.rows && Spared(e, q) ==> Stands(Apply(s, e).rows, q)
  {
    if e.Drain? {
      DrainInherits(s, e.batch, e.oracle);
      DrainKeeps(s, e.batch, e.oracle);
    } else if e.Send? {
      SendInherits(s, e.req, e.token, e.o, e.stored, e.now);
    } else {
      OthersInherit(s, e);
    }
  }

  lemma OthersInherit(s: State, e: Event)
    requires Inv(s) && Enabled(s, e) && !e.Drain? && !e.Send?
    ensures Apply(s, e).nextId == s.nextId
    ensures forall x :: x in Apply(s, e).rows ==> Stands(s.rows, x)
    ensures forall q :: q in s.rows && Spared(e, q) ==> Stands(Apply(s, e).rows, q)
  {
    if e.Delete? {
      FilterInherits(s.rows, NotFor(e.id), NotFor(e.id));
    } else if e.Ping? {
      PingRows(s, e.id, e.o);
      RowByRow(s.rows, Apply(s, e).rows, (_: Row) => true);
    } else {
      RowByRow(s.rows, s.rows, (_: Row) => true);
    }
  }

  lemma PingRows(s: State, id: int, o: Outcome)
    ensures var t := PingStep(s, id, o).0;
            && t.nextId == s.nextId && |t.rows| == |s.rows|
            && forall i :: 0 <= i < |s.rows| ==> SameRow(s.rows[i], t.rows[i])
  {
  }

  lemma SendInherits(s: State, req: Request, token: string, o: Outcome, stored: bool, now: int)
    ensures var t := SendOrQueueStep(s, req, token, o, stored, now).0;
            && t.nextId >= s.nextId
            && (forall x :: x in t.rows && x.id < s.nextId ==> Stands(s.rows, x))
            && (forall q :: q in s.rows ==> Stands(t.rows, q))
  {
    var t := SendOrQueueStep(s, req, token, o, stored, now).0;
    forall q | q in s.rows
      ensures Stands(t.rows, q)
    {
      assert q in t.rows && SameRow(q, q);
    }
    forall x | x in t.rows && x.id < s.nextId
      ensures Stands(s.rows, x)
    {
      assert x in s.rows && SameRow(x, x);
    }
  }

  lemma StandsSpared(rows: seq<Row>, after: seq<Row>, e: Event, r: Row)
    requires Spared(e, r) && Stands(rows, r)
    requires forall q :: q in rows && Spared(e, q) ==> Stands(after, q)
    ensures Stands(after, r)
  {
    var q :| q in rows && SameRow(q, r);
    SameRowSays(q, r);
    assert Spared(e, q);
    StandsTrans(after, r, q);
  }

  /** A row that no drain delivers stays in the queue unless its peer is deleted. */
  lemma {:induction false} SparedStays(s: State, es: seq<Event>, r: Row)
    requires Inv(s) && CanRun(s, es) && Stands(s.rows, r)
    requires forall e :: e in es ==> Spared(e, r)
    ensures Stands(After(s, es).rows, r)
    decreases |es|
  {
    if es != [] {
      var e := es[0];
      assert e in es;
      EventKeeps(s, e);
      EventInherits(s, e);
      StandsSpared(s.rows, Apply(s, e).rows, e, r);
      assert forall e' :: e' in es[1..] ==> e' in es;
      SparedStays(Apply(s, e), es[1..], r);
    }
  }

  /** A drain of this run has the peer answer this row below 500. */
  ghost predicate AnsweredIn(es: seq<Event>, id: int) {
    exists e, y :: e in es && e.Drain? && y in e.batch && y.id == id && Delivered(e.oracle(y))
  }

  /**
   Every single send that returned nil is accounted for in every later state: its letter was answered
   at once, or the row it left in the queue still stands, was answered below 500 in a drain, or had
   its peer deleted.
   */
  lemma AcceptedSendIsAccountedFor(s: State, req: Request, token: string, o: Outcome, stored: bool, now: int, es: seq<Event>)
    requires Inv(s) && s.transport
    requires SendOrQueueStep(s, req, token, o, stored, now).1 == Ok
    requires CanRun(SendOrQueueStep(s, req, token, o, stored, now).0, es)
    ensures Marshal(req.body).Some?
    ensures var l := LetterOf(Touched(s.peers, req, token), Marshal(req.body).value);
            var t := SendOrQueueStep(s, req, token, o, stored, now).0;
            if Up(s.peers, req.serverId) && Delivered(o)
            then t.answered == s.answered + multiset{l} && t.rows == s.rows
            else
              && t.rows == s.rows + [NewRow(s, l, now)] && !HasId(s.rows, s.nextId)
              && (Stands(After(t, es).rows, NewRow(s, l, now)) || AnsweredIn(es, s.nextId) || Delete(req.serverId) in es)
  {
    var l := LetterOf(Touched(s.peers, req, token), Marshal(req.body).value);
    var t := SendOrQueueStep(s, req, token, o, stored, now).0;
    var row := NewRow(s, l, now);
    SendKeeps(s, req, token, o, stored, now);
    if !(Up(s.peers, req.serverId) && Delivered(o)) {
      assert row in t.rows && SameRow(row, row);
      if !AnsweredIn(es, s.nextId) && Delete(req.serverId) !in es {
        NeitherAnsweredNorDeleted(es, row);
        SparedStays(t, es, row);
      }
    }
  }

  lemma NeitherAnsweredNorDeleted(es: seq<Event>, r: Row)
    requires !AnsweredIn(es, r.id) && Delete(r.letter.serverId) !in es
    ensures forall e :: e in es ==> Spared(e, r)
  {
  }

  /** And an answer in a drain is final: the row is gone and its letter is in the book of answered ones. */
  lemma AnswerIsFinal(s: State, batch: seq<Row>, oracle: Row -> Outcome, y: Row)
    requires Inv(s) && FirstOf(Due(s), BATCH, batch)
    requires y in batch && Delivered(oracle(y))
    ensures !HasId(DrainStep(s, batch, oracle).rows, y.id)
    ensures DrainStep(s, batch, oracle).answered[y.letter] > s.answered[y.letter]
  {
    BatchIsCollected(s, batch);
    DeliveredIsGone(s.(rows := Rearm(s.peers, s.rows)), batch, oracle, y);
    DeliveredIsBooked(s.(rows := Rearm(s.peers, s.rows)), batch, oracle, y);
  }

  lemma {:induction false} DeliveredIsBooked(s: State, batch: seq<Row>, oracle: Row -> Outcome, y: Row)
    requires Inv(s) && Collected(s, batch)
    requires y in batch && Sent(s, y, oracle(y))
    ensures ItemsStep(s, batch, oracle).answered[y.letter] > s.answered[y.letter]
    decreases |batch|
  {
    var item, rest := batch[0], batch[1..];
    var s' := ItemStep(s, item, oracle(item));
    CollectedRest(s, batch, oracle(item));
    ItemBooks(s, item, oracle(item));
    if y == item {
      ItemsAnswered(s', rest, oracle);
    } else {
      assert y in rest;
      DeliveredIsBooked(s', rest, oracle, y);
    }
  }
}
