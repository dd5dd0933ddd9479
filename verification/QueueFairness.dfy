/**
 The share of each peer in the drains of backend/federation/queue.go: dead peers cost the others
 nothing, answered backlogs empty, and rows that keep failing can hold back the rows behind them.
 */
module QueueFairness {
  import opened Common
  import opened Route
  import opened Queue
  import opened QueueRuns
  import opened QueueRows

  // ---------- Fair share between peers ----------

  function ForActive(peers: map<int, Status>): Row -> bool {
    (r: Row) => Up(peers, r.letter.serverId)
  }

  function OfActive(s: State): seq<Row> {
    Filter(s.rows, ForActive(s.peers))
  }

  /** A row as it stands, or an exhausted one with its attempts back at zero. */
  predicate DueForm(q: Row, r: Row) {
    r == q || (q.id == r.id && q.letter == r.letter && q.attempts == q.maxAttempts && r.attempts == 0)
  }

  /** After the re-arm, the due rows are exactly the rows of the active peers, re-armed. */
  lemma DueAreTheActiveRows(s: State)
    requires Inv(s)
    ensures forall r :: r in s.rows && Up(s.peers, r.letter.serverId) ==> RearmRow(s.peers, r) in Due(s)
    ensures forall r :: r in Due(s) ==> Up(s.peers, r.letter.serverId)
    ensures forall r :: r in Due(s) ==> exists q :: q in s.rows && DueForm(q, r)
  {
    RearmFacts(s);
    forall r | r in Due(s)
      ensures exists q :: q in s.rows && DueForm(q, r)
    {
      var q :| q in s.rows && r == RearmRow(s.peers, q);
      assert RowOk(q);
    }
  }

  /** The order of a batch: higher priority first, older first within a priority, and nothing better left behind. */
  lemma BatchIsByPriorityThenAge(s: State, batch: seq<Row>)
    requires FirstOf(Due(s), BATCH, batch)
    ensures forall i, j :: 0 <= i < j < |batch| ==> batch[i].priority >= batch[j].priority
    ensures forall i, j :: 0 <= i < j < |batch| && batch[i].priority == batch[j].priority ==>
              batch[i].createdAt <= batch[j].createdAt
    ensures forall r, x :: r in Due(s) && r !in batch && x in batch ==>
              r.priority < x.priority || (r.priority == x.priority && r.createdAt >= x.createdAt)
    ensures |batch| <= 50 && (|batch| < 50 ==> forall r :: r in Due(s) ==> r in batch)
  {
    NoDupCardinality(batch);
    if |batch| < 50 {
      SubsetCard(Elems(batch), Due(s));
      assert forall r :: r in Due(s) ==> r in Elems(batch);
    }
  }

  /** Erasing the rows of peers that are not active leaves the same rows to choose from. */
  lemma ErasedIsTheSame(peers: map<int, Status>, rows: seq<Row>, nextId: int)
    requires RowsOk(rows, nextId)
    ensures Eligible(peers, Rearm(peers, Filter(rows, ForActive(peers)))) == Eligible(peers, Rearm(peers, rows))
  {
    var few := Filter(rows, ForActive(peers));
    var all, erased := Rearm(peers, rows), Rearm(peers, few);
    FilterFacts(rows, ForActive(peers));
    RearmRows(peers, rows, nextId);
    RearmRows(peers, few, nextId);
    forall r: Row | Up(peers, r.letter.serverId)
      ensures r in all ==> r in erased
      ensures r in erased ==> r in all
    {
      if r in all {
        var q :| q in rows && r == RearmRow(peers, q);
        assert q in few;
      }
      if r in erased {
        var q :| q in few && r == RearmRow(peers, q);
        assert q in rows;
      }
    }
  }

  /** Rows of dead peers have no influence: erasing them leaves exactly the same possible batches. */
  lemma DeadPeersDoNotStarve(s: State, batch: seq<Row>)
    requires Inv(s)
    ensures FirstOf(Due(s), BATCH, batch) <==> FirstOf(Due(s.(rows := OfActive(s))), BATCH, batch)
  {
    ErasedIsTheSame(s.peers, s.rows, s.nextId);
  }

  lemma {:induction false} UniqueIsNoDup(rows: seq<Row>)
    requires UniqueIds(rows)
    ensures NoDup(rows) && |Elems(rows)| == |rows|
  {
    if rows != [] {
      UniqueIsNoDup(rows[1..]);
      forall i, j | 0 <= i < j < |rows|
        ensures rows[i] != rows[j]
      {
        assert rows[j] == rows[1..][j - 1];
        if i > 0 {
          assert rows[i] == rows[1..][i - 1];
        }
      }
    }
    NoDupCardinality(rows);
  }

  lemma {:induction false} RearmedCount(peers: map<int, Status>, rows: seq<Row>)
    ensures |Filter(Rearm(peers, rows), ForActive(peers))| == |Filter(rows, ForActive(peers))|
  {
    if rows != [] {
      assert Rearm(peers, rows)[1..] == Rearm(peers, rows[1..]);
      RearmedCount(peers, rows[1..]);
    }
  }

  /** The number of due rows is the number of rows of active peers. */
  lemma BacklogIsActiveRows(s: State)
    requires Inv(s)
    ensures |Due(s)| == |OfActive(s)|
  {
    RearmFacts(s);
    var active := Filter(Rearm(s.peers, s.rows), ForActive(s.peers));
    FilterFacts(Rearm(s.peers, s.rows), ForActive(s.peers));
    UniqueIsNoDup(active);
    assert Due(s) == Elems(active);
    RearmedCount(s.peers, s.rows);
  }

  /** A drain whose every send is answered below 500 removes its whole batch and nothing else. */
  lemma GoodDrain(s: State, batch: seq<Row>, oracle: Row -> Outcome)
    requires Inv(s) && FirstOf(Due(s), BATCH, batch)
    requires forall r :: r in batch ==> Delivered(oracle(r))
    ensures Inv(DrainStep(s, batch, oracle)) && DrainStep(s, batch, oracle).peers == s.peers
    ensures forall r :: r in DrainStep(s, batch, oracle).rows <==> r in Rearm(s.peers, s.rows) && r !in batch
    ensures Due(DrainStep(s, batch, oracle)) == Due(s) - Elems(batch)
    ensures |Due(DrainStep(s, batch, oracle))| == if |Due(s)| < BATCH then 0 else |Due(s)| - BATCH
  {
    RearmFacts(s);
    BatchIsCollected(s, batch);
    var s1 := s.(rows := Rearm(s.peers, s.rows));
    ItemsAllSent(s1, batch, oracle);
    DrainKeeps(s, batch, oracle);
    DueAfter(s, DrainStep(s, batch, oracle), batch);
    NoDupCardinality(batch);
    assert |Due(s) - Elems(batch)| == |Due(s)| - |batch|;
  }

  lemma DueAfter(s: State, t: State, batch: seq<Row>)
    requires Inv(s) && Inv(t) && t.peers == s.peers
    requires forall r :: r in t.rows <==> r in Rearm(s.peers, s.rows) && r !in batch
    ensures Due(t) == Due(s) - Elems(batch)
  {
    RearmFacts(s);
    RearmFacts(t);
    forall r
      ensures r in Due(t) <==> r in Due(s) && r !in batch
    {
      if r in Due(t) {
        var q :| q in t.rows && r == RearmRow(t.peers, q);
        assert q in Due(s) && r == q;
      }
      if r in Due(s) && r !in batch {
        assert r in t.rows && RearmRow(t.peers, r) == r;
      }
    }
  }

  /** Rows of other peers are not touched by a drain. */
  lemma OtherRowsUntouched(s: State, batch: seq<Row>, oracle: Row -> Outcome, r: Row)
    requires Inv(s) && FirstOf(Due(s), BATCH, batch)
    requires forall x :: x in batch ==> Delivered(oracle(x))
    requires !Up(s.peers, r.letter.serverId)
    ensures r in DrainStep(s, batch, oracle).rows <==> r in s.rows
  {
    GoodDrain(s, batch, oracle);
    BatchIsCollected(s, batch);
    RearmFacts(s);
    assert r !in batch;
    if r in Rearm(s.peers, s.rows) {
      var q :| q in s.rows && r == RearmRow(s.peers, q);
    }
    if r in s.rows {
      assert RearmRow(s.peers, r) == r;
    }
  }

  /** Drains and nothing else, and every send is answered. */
  ghost predicate GoodDrains(es: seq<Event>) {
    forall e :: e in es ==> e.Drain? && forall r :: Delivered(e.oracle(r))
  }

  /** If the peers answer, n rows of active peers are gone after any k drains with 50·k >= n. */
  lemma {:induction false} DrainsEmptyTheBacklog(s: State, es: seq<Event>)
    requires Inv(s) && CanRun(s, es) && GoodDrains(es)
    requires BATCH * |es| >= |OfActive(s)|
    ensures forall r :: r in After(s, es).rows <==> r in s.rows && !Up(s.peers, r.letter.serverId)
    ensures After(s, es).peers == s.peers
    decreases |es|
  {
    BacklogIsActiveRows(s);
    if es == [] {
      FilterFacts(s.rows, ForActive(s.peers));
      forall r | r in s.rows
        ensures !Up(s.peers, r.letter.serverId)
      {
        assert r !in OfActive(s);
      }
    } else {
      var e, t := es[0], Apply(s, es[0]);
      assert e in es && forall e' :: e' in es[1..] ==> e' in es;
      GoodDrain(s, e.batch, e.oracle);
      BacklogIsActiveRows(t);
      DrainsEmptyTheBacklog(t, es[1..]);
      forall r: Row | !Up(s.peers, r.letter.serverId)
        ensures r in t.rows <==> r in s.rows
      {
        OtherRowsUntouched(s, e.batch, e.oracle, r);
      }
    }
  }

  /** And then, with every peer up, the health checker falls back to its slow cadence. */
  lemma IdleAfterDrains(s: State, es: seq<Event>)
    requires Inv(s) && CanRun(s, es) && GoodDrains(es)
    requires BATCH * |es| >= |OfActive(s)|
    requires forall id :: id in s.peers ==> s.peers[id] == Active
    requires forall r :: r in s.rows ==> r.letter.serverId in s.peers
    ensures After(s, es).rows == [] && !PingsFast(After(s, es))
  {
    var t := After(s, es);
    DrainsEmptyTheBacklog(s, es);
    assert forall r :: r in t.rows ==> r in s.rows && !Up(s.peers, r.letter.serverId);
    assert forall r :: r in s.rows ==> Up(s.peers, r.letter.serverId);
    HasFirst(t.rows);
  }

  lemma HasFirst(rows: seq<Row>)
    ensures rows != [] ==> exists r :: r in rows
  {
    if rows != [] {
      assert rows[0] in rows;
    }
  }

  // ---------- Who is in the batch, and who may never be ----------

  /** The due rows that the batch query prefers to r. */
  function AheadOf(s: State, r: Row): set<Row> {
    set x | x in Due(s) && Before(x, r)
  }

  /** Without ties, a due row is drained exactly when fewer than fifty due rows are ahead of it. */
  lemma PickedIffFewAhead(s: State, batch: seq<Row>, r: Row)
    requires FirstOf(Due(s), BATCH, batch) && r in Due(s)
    requires forall x :: x in Due(s) && x != r ==> Before(x, r) || Before(r, x)
    ensures r in batch <==> |AheadOf(s, r)| < BATCH
  {
    NoDupCardinality(batch);
    var picked, ahead := Elems(batch), AheadOf(s, r);
    if r in batch {
      forall x | x in ahead
        ensures x in picked
      {
        assert x in Due(s) && Before(x, r);
      }
      SubsetCard(ahead + {r}, picked);
    } else {
      SubsetCard(picked, Due(s));
      forall x | x in picked
        ensures x in ahead
      {
        assert x in batch && x in Due(s);
      }
      SubsetCard(picked, ahead);
    }
  }

  // ---------- The rows ahead ----------

  /** The ids of the rows of active peers that the batch query prefers to r. */
  function AheadIds(s: State, r: Row): set<int> {
    set x | x in s.rows && Up(s.peers, x.letter.serverId) && Before(x, r) :: x.id
  }

  function Ids(rows: seq<Row>): (ids: set<int>)
    ensures forall id :: id in ids <==> HasId(rows, id)
  {
    set x | x in rows :: x.id
  }

  lemma IdsSnoc(front: seq<Row>, last: Row)
    ensures Ids(front + [last]) == Ids(front) + {last.id}
  {
    forall id
      ensures HasId(front + [last], id) <==> HasId(front, id) || id == last.id
    {
      if HasId(front, id) {
        var x :| x in front && x.id == id;
        assert x in front + [last];
      }
      assert last in front + [last];
    }
  }

  lemma {:induction false} IdsCount(batch: seq<Row>, rows: seq<Row>)
    requires NoDup(batch) && UniqueIds(rows)
    requires forall x :: x in batch ==> x in rows
    ensures |Ids(batch)| == |batch|
  {
    if batch == [] {
      assert Ids(batch) == {};
    } else {
      var front, last := batch[..|batch| - 1], batch[|batch| - 1];
      assert batch == front + [last];
      IdsCount(front, rows);
      if HasId(front, last.id) {
        var x :| x in front && x.id == last.id;
        SameId(rows, x, last);
      }
      IdsSnoc(front, last);
    }
  }

  lemma BatchIds(s: State, batch: seq<Row>)
    requires Inv(s) && FirstOf(Due(s), BATCH, batch)
    ensures |Ids(batch)| == |batch| <= BATCH
  {
    RearmFacts(s);
    BatchIsCollected(s, batch);
    IdsCount(batch, Rearm(s.peers, s.rows));
  }

  /** A row ahead of r, as the drain sees it. */
  lemma AheadIsDue(s: State, r: Row, id: int) returns (x: Row)
    requires Inv(s) && id in AheadIds(s, r)
    ensures x in Due(s) && x.id == id && Before(x, r)
  {
    RearmFacts(s);
    var q :| q in s.rows && Up(s.peers, q.letter.serverId) && Before(q, r) && q.id == id;
    x := RearmRow(s.peers, q);
  }

  /** Fifty rows ahead, ties or not, keep a row out of every possible batch. */
  lemma FiftyAheadBlock(s: State, batch: seq<Row>, r: Row, ids: set<int>)
    requires Inv(s) && FirstOf(Due(s), BATCH, batch)
    requires ids <= AheadIds(s, r) && |ids| >= BATCH
    requires r.id !in ids
    ensures forall q :: q in batch ==> !SameRow(q, r)
  {
    BatchIds(s, batch);
    forall q | q in batch
      ensures !SameRow(q, r)
    {
      if SameRow(q, r) {
        forall id | id in ids
          ensures id in Ids(batch)
        {
          var x := AheadIsDue(s, r, id);
          assert Before(x, q);
        }
        SubsetCard(ids + {r.id}, Ids(batch));
      }
    }
  }

  // ---------- Fifty failing rows block ----------

  ghost predicate Picks(e: Event, id: int) {
    e.Drain? && HasId(e.batch, id)
  }

  ghost predicate Picked(es: seq<Event>, id: int) {
    exists e :: e in es && Picks(e, id)
  }

  /** Every row of the queue with the id of r is r, up to its attempts. */
  ghost predicate OnlyAs(s: State, r: Row) {
    r.id < s.nextId && forall x :: x in s.rows && x.id == r.id ==> SameRow(x, r)
  }

  lemma StaysOnlyAs(s: State, e: Event, r: Row)
    requires Inv(s) && Enabled(s, e) && OnlyAs(s, r)
    ensures OnlyAs(Apply(s, e), r)
  {
    EventInherits(s, e);
    forall x | x in Apply(s, e).rows && x.id == r.id
      ensures SameRow(x, r)
    {
      var q :| q in s.rows && SameRow(q, x);
      assert q.id == r.id;
    }
  }

  lemma OnlyAsAtFirst(s: State, r: Row)
    requires Inv(s) && r in s.rows
    ensures OnlyAs(s, r) && Stands(s.rows, r)
  {
    assert SameRow(r, r);
    forall x | x in s.rows && x.id == r.id
      ensures SameRow(x, r)
    {
      SameId(s.rows, x, r);
    }
  }

  /** The peers that the rows with these ids are for. */
  function PeersOf(s: State, ids: set<int>): set<int> {
    set x | x in s.rows && x.id in ids :: x.letter.serverId
  }

  function Leader(ids: set<int>, to: set<int>, r: Row): Row -> bool {
    (x: Row) => x.id in ids && x.letter.serverId in to && Before(x, r)
  }

  /** Each of these ids is a row for one of these peers and ahead of r, and the peers are active. */
  ghost predicate Lead(s: State, ids: set<int>, to: set<int>, r: Row) {
    && (forall p :: p in to ==> Up(s.peers, p))
    && (forall id :: id in ids ==> exists x :: x in s.rows && x.id == id && Leader(ids, to, r)(x))
  }

  /** Every send of these rows fails, and their peers stay active; everything else may happen. */
  ghost predicate Failing(e: Event, ids: set<int>, to: set<int>) {
    match e
    case Drain(_, oracle) => forall x: Row {:trigger oracle(x)} :: x.id in ids ==> !Delivered(oracle(x))
    case Ping(id, o) => id in to ==> Delivered(o)
    case Block(id) => id !in to
    case Delete(id) => id !in to
    case _ => true
  }

  lemma StayUp(s: State, e: Event, ids: set<int>, to: set<int>)
    requires Enabled(s, e) && Failing(e, ids, to)
    requires forall p :: p in to ==> Up(s.peers, p)
    ensures forall p :: p in to ==> Up(Apply(s, e).peers, p)
  {
    if e.Drain? {
      DrainPeers(s, e.batch, e.oracle);
    } else if e.Ping? {
      PingKeepsUp(s, e.id, e.o, to);
    } else if e.Send? {
      SendPeers(s, e.req, e.token, e.o, e.stored, e.now);
    }
  }

  lemma DrainPeers(s: State, batch: seq<Row>, oracle: Row -> Outcome)
    ensures DrainStep(s, batch, oracle).peers == s.peers
  {
    ItemsFrame(s.(rows := Rearm(s.peers, s.rows)), batch, oracle);
  }

  lemma SendPeers(s: State, req: Request, token: string, o: Outcome, stored: bool, now: int)
    ensures SendOrQueueStep(s, req, token, o, stored, now).0.peers == s.peers
  {
  }

  lemma PingKeepsUp(s: State, id: int, o: Outcome, to: set<int>)
    requires id in to ==> Delivered(o)
    requires forall p :: p in to ==> Up(s.peers, p)
    ensures forall p :: p in to ==> Up(PingStep(s, id, o).0.peers, p)
  {
  }

  lemma StayAhead(s: State, e: Event, ids: set<int>, to: set<int>, r: Row)
    requires Inv(s) && Enabled(s, e) && Failing(e, ids, to) && Lead(s, ids, to, r)
    ensures Lead(Apply(s, e), ids, to, r)
  {
    StayUp(s, e, ids, to);
    EventInherits(s, e);
    LeadersSpared(e, ids, to, r);
    LeadersStand(s.rows, Apply(s, e).rows, ids, to, r);
  }

  lemma LeadersSpared(e: Event, ids: set<int>, to: set<int>, r: Row)
    requires Failing(e, ids, to)
    ensures forall q :: Leader(ids, to, r)(q) ==> Spared(e, q)
  {
  }

  lemma LeadersStand(rows: seq<Row>, after: seq<Row>, ids: set<int>, to: set<int>, r: Row)
    requires forall id :: id in ids ==> exists x :: x in rows && x.id == id && Leader(ids, to, r)(x)
    requires forall q :: q in rows && Leader(ids, to, r)(q) ==> Stands(after, q)
    ensures forall id :: id in ids ==> exists x :: x in after && x.id == id && Leader(ids, to, r)(x)
  {
    forall id | id in ids
      ensures exists x :: x in after && x.id == id && Leader(ids, to, r)(x)
    {
      var q :| q in rows && q.id == id && Leader(ids, to, r)(q);
      var x :| x in after && SameRow(x, q);
      assert x.id == id && Leader(ids, to, r)(x);
    }
  }

  lemma LeadersAreAhead(s: State, ids: set<int>, to: set<int>, r: Row)
    requires Lead(s, ids, to, r)
    ensures ids <= AheadIds(s, r)
  {
    forall id | id in ids
      ensures id in AheadIds(s, r)
    {
      var q :| q in s.rows && q.id == id && Leader(ids, to, r)(q);
    }
  }

  lemma {:induction false} LeadersBlock(s: State, es: seq<Event>, r: Row, ids: set<int>, to: set<int>)
    requires Inv(s) && CanRun(s, es)
    requires OnlyAs(s, r) && r.id !in ids
    requires Lead(s, ids, to, r) && |ids| >= BATCH
    requires forall e :: e in es ==> Failing(e, ids, to)
    ensures !Picked(es, r.id)
    decreases |es|
  {
    if es != [] {
      var e := es[0];
      if e.Drain? {
        LeadersAreAhead(s, ids, to, r);
        FiftyAheadBlock(s, e.batch, r, ids);
        PickedIsR(s, e.batch, r);
      }
      EventKeeps(s, e);
      StaysOnlyAs(s, e, r);
      StayAhead(s, e, ids, to, r);
      assert forall e' :: e' in es[1..] ==> e' in es;
      LeadersBlock(Apply(s, e), es[1..], r, ids, to);
      assert forall e' :: e' in es ==> e' == e || e' in es[1..];
    }
  }

  lemma PickedIsR(s: State, batch: seq<Row>, r: Row)
    requires Inv(s) && FirstOf(Due(s), BATCH, batch) && OnlyAs(s, r)
    ensures forall x :: x in batch && x.id == r.id ==> SameRow(x, r)
  {
    RearmFacts(s);
    BatchIsCollected(s, batch);
    forall x | x in batch && x.id == r.id
      ensures SameRow(x, r)
    {
      var q :| q in s.rows && x == RearmRow(s.peers, q);
    }
  }

  /**
   Between active peers the queue is not fair. Fifty rows of active peers ahead of r whose own sends
   keep failing keep r out of every drain, whatever happens to all other sends, rows and peers.
   */
  lemma BlockedWhileOthersFail(s: State, es: seq<Event>, r: Row, ids: set<int>)
    requires Inv(s) && CanRun(s, es) && r in s.rows
    requires ids <= AheadIds(s, r) && |ids| >= BATCH
    requires forall e :: e in es ==> Failing(e, ids, PeersOf(s, ids))
    ensures !Picked(es, r.id)
    ensures Delete(r.letter.serverId) !in es ==> Stands(After(s, es).rows, r)
  {
    OnlyAsAtFirst(s, r);
    AheadAreLeaders(s, r, ids);
    LeadersBlock(s, es, r, ids, PeersOf(s, ids));
    if Delete(r.letter.serverId) !in es {
      UnpickedIsSpared(es, r);
      SparedStays(s, es, r);
    }
  }

  lemma UnpickedIsSpared(es: seq<Event>, r: Row)
    requires !Picked(es, r.id) && Delete(r.letter.serverId) !in es
    ensures forall e :: e in es ==> Spared(e, r)
  {
    forall e | e in es
      ensures Spared(e, r)
    {
      assert !Picks(e, r.id);
    }
  }

  lemma AheadRow(s: State, r: Row, id: int) returns (q: Row)
    requires Inv(s) && r in s.rows && id in AheadIds(s, r)
    ensures q in s.rows && q.id == id && Before(q, r) && Up(s.peers, q.letter.serverId) && id != r.id
    ensures forall x :: x in s.rows && x.id == id ==> x == q
  {
    q :| q in s.rows && Up(s.peers, q.letter.serverId) && Before(q, r) && q.id == id;
    forall x | x in s.rows && x.id == id
      ensures x == q
    {
      SameId(s.rows, q, x);
    }
  }

  lemma AheadAreLeaders(s: State, r: Row, ids: set<int>)
    requires Inv(s) && r in s.rows && ids <= AheadIds(s, r)
    ensures Lead(s, ids, PeersOf(s, ids), r) && r.id !in ids
  {
    forall id | id in ids
      ensures id != r.id && exists x :: x in s.rows && x.id == id && Leader(ids, PeersOf(s, ids), r)(x)
    {
      var q := AheadRow(s, r, id);
      assert Leader(ids, PeersOf(s, ids), r)(q);
    }
    forall p | p in PeersOf(s, ids)
      ensures Up(s.peers, p)
    {
      var x :| x in s.rows && x.id in ids && x.letter.serverId == p;
      var q := AheadRow(s, r, x.id);
    }
  }

  // ---------- Fewer than fifty do not ----------

  ghost predicate OnlyDrains(es: seq<Event>) {
    forall e :: e in es ==> e.Drain?
  }

  /** r waits for an active peer, and no other waiting row has its priority and age. */
  ghost predicate Waits(s: State, r: Row) {
    && Stands(s.rows, r) && Up(s.peers, r.letter.serverId)
    && forall x :: x in s.rows && Up(s.peers, x.letter.serverId) && x.id != r.id ==> Before(x, r) || Before(r, x)
  }

  /** r, as the drain sees it. */
  lemma WaitingIsDue(s: State, r: Row) returns (due: Row)
    requires Inv(s) && Stands(s.rows, r) && Up(s.peers, r.letter.serverId)
    ensures due in Due(s) && due.id == r.id && due.priority == r.priority && due.createdAt == r.createdAt
  {
    RearmFacts(s);
    var q :| q in s.rows && SameRow(q, r);
    SameRowSays(q, r);
    due := RearmRow(s.peers, q);
  }

  lemma BatchRow(s: State, x: Row) returns (was: Row)
    requires Inv(s) && x in Due(s)
    ensures was in s.rows && SameRow(was, x) && Up(s.peers, was.letter.serverId)
    ensures was.id == x.id && was.priority == x.priority && was.createdAt == x.createdAt
  {
    RearmFacts(s);
    was :| was in s.rows && x == RearmRow(s.peers, was);
  }

  lemma MissedBatch(s: State, batch: seq<Row>, r: Row)
    requires Inv(s) && FirstOf(Due(s), BATCH, batch)
    requires Waits(s, r) && !HasId(batch, r.id)
    ensures |batch| == BATCH && Ids(batch) <= AheadIds(s, r)
  {
    var due := WaitingIsDue(s, r);
    assert due !in batch;
    MissedIsFull(s, batch, due);
    forall id | id in Ids(batch)
      ensures id in AheadIds(s, r)
    {
      var x :| x in batch && x.id == id;
      assert x in Elems(batch);
      var was := BatchRow(s, x);
      assert !Before(due, x);
      assert Before(was, r);
    }
  }

  lemma MissedIsFull(s: State, batch: seq<Row>, due: Row)
    requires FirstOf(Due(s), BATCH, batch)
    requires due in Due(s) && due !in batch
    ensures |batch| == BATCH
  {
    NoDupCardinality(batch);
    SubsetCard(Elems(batch), Due(s));
    assert due !in Elems(batch);
  }

  lemma StillWaits(s: State, e: Event, r: Row)
    requires Inv(s) && Enabled(s, e) && e.Drain?
    requires Waits(s, r) && !Picks(e, r.id)
    ensures Waits(Apply(s, e), r) && AheadIds(Apply(s, e), r) <= AheadIds(s, r)
  {
    var t := Apply(s, e);
    DrainInherits(s, e.batch, e.oracle);
    DrainKeeps(s, e.batch, e.oracle);
    assert Spared(e, r);
    StandsSpared(s.rows, t.rows, e, r);
    LineNeverGrows(s, t, r);
  }

  lemma LineNeverGrows(s: State, t: State, r: Row)
    requires Waits(s, r) && Stands(t.rows, r) && t.peers == s.peers
    requires forall x :: x in t.rows ==> Stands(s.rows, x)
    ensures Waits(t, r) && AheadIds(t, r) <= AheadIds(s, r)
  {
    forall x | x in t.rows && Up(s.peers, x.letter.serverId)
      ensures x.id != r.id ==> Before(x, r) || Before(r, x)
      ensures Before(x, r) ==> x.id in AheadIds(s, r)
    {
      var y :| y in s.rows && SameRow(y, x);
      SameRowSays(y, x);
    }
  }

  /** A drain that misses r shortens the line ahead of it by every row it delivers. */
  lemma MissShortensTheLine(s: State, e: Event, r: Row, stuck: set<int>)
    requires Inv(s) && Enabled(s, e) && e.Drain?
    requires Waits(s, r) && !Picks(e, r.id)
    requires DeliversBut(e, AheadIds(s, r), stuck)
    ensures |AheadIds(Apply(s, e), r)| + BATCH - |stuck| <= |AheadIds(s, r)|
    ensures AheadIds(Apply(s, e), r) <= AheadIds(s, r)
    ensures Inv(Apply(s, e)) && Waits(Apply(s, e), r)
  {
    EventKeeps(s, e);
    var t := Apply(s, e);
    MissedBatch(s, e.batch, r);
    BatchIds(s, e.batch);
    StillWaits(s, e, r);
    var gone := Ids(e.batch) - stuck;
    forall id | id in gone
      ensures id !in AheadIds(t, r)
    {
      ServedIsGone(s, e, AheadIds(s, r), stuck, id);
      assert !HasId(t.rows, id);
    }
    SubsetCard(Ids(e.batch), gone + stuck);
    SubsetCard(AheadIds(t, r) + gone, AheadIds(s, r));
  }

  lemma ServedIsGone(s: State, e: Event, ids: set<int>, stuck: set<int>, id: int)
    requires Inv(s) && Enabled(s, e) && DeliversBut(e, ids, stuck)
    requires id in Ids(e.batch) && id in ids && id !in stuck
    ensures !HasId(Apply(s, e).rows, id)
  {
    BatchIsCollected(s, e.batch);
    var y :| y in e.batch && y.id == id;
    DeliveredIsGone(s.(rows := Rearm(s.peers, s.rows)), e.batch, e.oracle, y);
  }

  /** Of the rows with these ids, only sends of the stuck ones may fail. */
  ghost predicate DeliversBut(e: Event, ids: set<int>, stuck: set<int>) {
    e.Drain? && forall x: Row {:trigger e.oracle(x)} :: x.id in ids && x.id !in stuck ==> Delivered(e.oracle(x))
  }

  /** r waits, and what these drains deliver at least is more than the line ahead of it. */
  ghost predicate EnoughServed(s: State, es: seq<Event>, r: Row, stuck: set<int>) {
    && Inv(s) && CanRun(s, es)
    && Waits(s, r) && |stuck| < BATCH
    && (forall e :: e in es ==> DeliversBut(e, AheadIds(s, r), stuck))
    && EnoughFor(|AheadIds(s, r)|, |es|, BATCH - |stuck|)
  }

  /** The last drain takes r if fewer than fifty rows are left ahead of it. */
  predicate EnoughFor(ahead: nat, drains: nat, each: nat) {
    drains > 0 && ahead < BATCH + (drains - 1) * each
  }

  lemma MissedRound(s: State, es: seq<Event>, r: Row, stuck: set<int>)
    requires EnoughServed(s, es, r, stuck) && !Picks(es[0], r.id)
    ensures EnoughServed(Apply(s, es[0]), es[1..], r, stuck)
  {
    assert es[0] in es && DeliversBut(es[0], AheadIds(s, r), stuck);
    ShorterLine(s, es[0], r, stuck, |es|);
    StillDelivers(es[1..], AheadIds(Apply(s, es[0]), r), AheadIds(s, r), stuck);
  }

  lemma ShorterLine(s: State, e: Event, r: Row, stuck: set<int>, n: nat)
    requires Inv(s) && Enabled(s, e) && Waits(s, r) && !Picks(e, r.id)
    requires DeliversBut(e, AheadIds(s, r), stuck) && |stuck| < BATCH
    requires EnoughFor(|AheadIds(s, r)|, n, BATCH - |stuck|)
    ensures Inv(Apply(s, e)) && Waits(Apply(s, e), r) && AheadIds(Apply(s, e), r) <= AheadIds(s, r)
    ensures n > 0 && EnoughFor(|AheadIds(Apply(s, e), r)|, n - 1, BATCH - |stuck|)
  {
    MissedTooMany(s, e, r);
    MissShortensTheLine(s, e, r, stuck);
    OneRoundLess(|AheadIds(s, r)|, |AheadIds(Apply(s, e), r)|, n, BATCH - |stuck|);
  }

  lemma OneRoundLess(ahead: nat, later: nat, drains: nat, each: nat)
    requires EnoughFor(ahead, drains, each) && ahead >= BATCH && later + each <= ahead
    ensures EnoughFor(later, drains - 1, each)
  {
    assert (drains - 1) * each == (drains - 2) * each + each;
  }

  lemma StillDelivers(es: seq<Event>, fewer: set<int>, ids: set<int>, stuck: set<int>)
    requires fewer <= ids
    requires forall e :: e in es ==> DeliversBut(e, ids, stuck)
    ensures forall e :: e in es ==> DeliversBut(e, fewer, stuck)
  {
  }

  /**
   With fewer than fifty rows that may fail, r is picked: each drain that misses it delivers at least
   50 - |stuck| of the rows ahead of it, and none joins them.
   */
  lemma {:induction false} PickedInTime(s: State, es: seq<Event>, r: Row, stuck: set<int>)
    requires EnoughServed(s, es, r, stuck)
    ensures Picked(es, r.id)
    decreases |es|
  {
    assert es[0] in es;
    if !Picks(es[0], r.id) {
      MissedRound(s, es, r, stuck);
      PickedInTime(Apply(s, es[0]), es[1..], r, stuck);
      PickedLater(es, r.id);
    }
  }

  lemma PickedLater(es: seq<Event>, id: int)
    requires es != [] && Picked(es[1..], id)
    ensures Picked(es, id)
  {
    var e :| e in es[1..] && Picks(e, id);
    assert e in es;
  }

  lemma MissedTooMany(s: State, e: Event, r: Row)
    requires Inv(s) && Enabled(s, e) && e.Drain?
    requires Waits(s, r) && !Picks(e, r.id)
    ensures |AheadIds(s, r)| >= BATCH
  {
    MissedBatch(s, e.batch, r);
    BatchIds(s, e.batch);
    SubsetCard(Ids(e.batch), AheadIds(s, r));
  }

  /** In every drain the sends of exactly these rows fail. */
  ghost predicate FailExactly(es: seq<Event>, fails: set<int>) {
    forall e, x: Row :: e in es && e.Drain? ==> (Delivered(e.oracle(x)) <==> x.id !in fails)
  }

  function FailingAhead(s: State, r: Row, fails: set<int>): set<int> {
    set id | id in AheadIds(s, r) && id in fails
  }

  /**
   The exact condition, over runs: while drains follow one another and the same rows fail, r is never
   attempted if and only if fifty of the rows ahead of it are among those that fail.
   */
  lemma StarvedIffFiftyFail(s: State, es: seq<Event>, r: Row, fails: set<int>)
    requires Inv(s) && CanRun(s, es) && OnlyDrains(es) && FailExactly(es, fails)
    requires r in s.rows && Waits(s, r)
    requires |es| > |AheadIds(s, r)|
    ensures !Picked(es, r.id) <==> |FailingAhead(s, r, fails)| >= BATCH
  {
    var stuck := FailingAhead(s, r, fails);
    FailingOrDelivered(es, stuck, AheadIds(s, r), PeersOf(s, stuck), fails);
    if |stuck| >= BATCH {
      BlockedWhileOthersFail(s, es, r, stuck);
    } else {
      ServedAtLeast(|AheadIds(s, r)|, |es|, BATCH - |stuck|);
      PickedInTheEnd(s, es, r, stuck, BATCH - |stuck|);
    }
  }

  lemma PickedInTheEnd(s: State, es: seq<Event>, r: Row, stuck: set<int>, each: nat)
    requires Inv(s) && CanRun(s, es)
    requires Waits(s, r) && |stuck| < BATCH && each == BATCH - |stuck|
    requires forall e :: e in es ==> DeliversBut(e, AheadIds(s, r), stuck)
    requires EnoughFor(|AheadIds(s, r)|, |es|, each)
    ensures Picked(es, r.id)
  {
    PickedInTime(s, es, r, stuck);
  }

  lemma ServedAtLeast(ahead: nat, drains: nat, each: nat)
    requires each >= 1 && drains > ahead
    ensures EnoughFor(ahead, drains, each)
  {
    assert (drains - 1) * each == (drains - 1) * (each - 1) + (drains - 1);
  }

  lemma FailingOrDelivered(es: seq<Event>, stuck: set<int>, ahead: set<int>, to: set<int>, fails: set<int>)
    requires OnlyDrains(es) && FailExactly(es, fails)
    requires forall id :: id in stuck <==> id in ahead && id in fails
    ensures forall e :: e in es ==> Failing(e, stuck, to)
    ensures forall e :: e in es ==> DeliversBut(e, ahead, stuck)
  {
    forall e | e in es
      ensures Failing(e, stuck, to)
    {
      assert e.Drain?;
    }
  }

  // ---------- Such runs exist ----------

  lemma {:induction false} Listing<T>(all: set<T>) returns (rows: seq<T>)
    ensures Lists(rows, all)
  {
    if all == {} {
      rows := [];
    } else {
      var x :| x in all;
      var rest := Listing(all - {x});
      assert x !in Elems(rest);
      rows := rest + [x];
      assert Elems(rows) == Elems(rest) + {x};
    }
  }

  /** Drains can follow one another any number of times, whichever rows fail. */
  lemma {:induction false} DrainsGoOn(s: State, n: nat, oracle: Row -> Outcome) returns (es: seq<Event>)
    requires Inv(s)
    ensures CanRun(s, es) && |es| == n
    ensures forall e :: e in es ==> e.Drain? && e.oracle == oracle
    decreases n
  {
    if n == 0 {
      es := [];
    } else {
      var listed := Listing(Due(s));
      TopIsFirst(listed, Due(s));
      var e := Drain(TopOf(listed), oracle);
      EventKeeps(s, e);
      var rest := DrainsGoOn(Apply(s, e), n - 1, oracle);
      es := [e] + rest;
    }
  }

  /** Whenever fifty rows are ahead of r, there are drains without end that fail exactly these and leave r alone. */
  lemma HeldBack(s: State, r: Row, ids: set<int>, n: nat) returns (es: seq<Event>)
    requires Inv(s) && r in s.rows && ids <= AheadIds(s, r) && |ids| >= BATCH
    ensures CanRun(s, es) && |es| == n && OnlyDrains(es) && FailExactly(es, ids)
    ensures !Picked(es, r.id) && Stands(After(s, es).rows, r)
  {
    es := DrainsGoOn(s, n, (r: Row) => if r.id in ids then Failed("timeout") else Answered(200));
    FailingOrDelivered(es, ids, ids, PeersOf(s, ids), ids);
    BlockedWhileOthersFail(s, es, r, ids);
  }

  function Note(serverId: int): Request {
    Request(serverId, "/federation/message", "POST", Encodable("hello"), None)
  }

  /** Fifty notes to server 1 and then one to server 2, all of which fail at first. */
  function NoteAt(i: nat): Event {
    Send(Note(if i < BATCH then 1 else 2), "", Failed("timeout"), true, i)
  }

  function RowAt(i: nat): Row {
    Row(i + 1, LetterOf(Note(if i < BATCH then 1 else 2), Json("hello")), 0, 0, MAX_ATTEMPTS, "", i)
  }

  function NotesFrom(i: nat): seq<Event>
    requires i <= BATCH + 1
  {
    seq(BATCH + 1 - i, j requires j >= 0 => NoteAt(i + j))
  }

  function RowsUpTo(i: nat): seq<Row> {
    seq(i, j requires j >= 0 => RowAt(j))
  }

  ghost predicate Noted(s: State, i: nat) {
    s.transport && s.queue && s.peers == map[1 := Active, 2 := Active] && s.nextId == i + 1 && s.rows == RowsUpTo(i)
  }

  lemma {:induction false} NotesQueue(s: State, i: nat)
    requires i <= BATCH + 1 && Noted(s, i)
    ensures CanRun(s, NotesFrom(i)) && Noted(After(s, NotesFrom(i)), BATCH + 1)
    decreases BATCH + 1 - i
  {
    if i <= BATCH {
      assert NotesFrom(i)[0] == NoteAt(i) && NotesFrom(i)[1..] == NotesFrom(i + 1);
      assert Apply(s, NoteAt(i)).rows == RowsUpTo(i) + [RowAt(i)] == RowsUpTo(i + 1);
      NotesQueue(Apply(s, NoteAt(i)), i + 1);
    }
  }

  function TwoPeers(): seq<Event> {
    [Connect(1), Connect(2)] + NotesFrom(0)
  }

  lemma TwoPeersRun()
    ensures CanRun(Empty(true, true), TwoPeers())
    ensures Inv(After(Empty(true, true), TwoPeers())) && Noted(After(Empty(true, true), TwoPeers()), BATCH + 1)
  {
    var s := Empty(true, true);
    var s1 := Apply(s, Connect(1));
    var s2 := Apply(s1, Connect(2));
    assert TwoPeers()[0] == Connect(1) && TwoPeers()[1..][0] == Connect(2) && TwoPeers()[1..][1..] == NotesFrom(0);
    assert s2.rows == RowsUpTo(0);
    NotesQueue(s2, 0);
    assert CanRun(s1, TwoPeers()[1..]);
    RunKeeps(s, TwoPeers());
  }

  function FirstIds(n: nat): (ids: set<int>)
    ensures forall id :: id in ids <==> 1 <= id <= n
  {
    if n == 0 then {} else FirstIds(n - 1) + {n}
  }

  lemma {:induction false} FirstIdsCount(n: nat)
    ensures |FirstIds(n)| == n
  {
    if n > 0 {
      FirstIdsCount(n - 1);
      assert n !in FirstIds(n - 1);
      assert FirstIds(n) == FirstIds(n - 1) + {n};
    }
  }

  lemma NotesAhead(s: State)
    requires Noted(s, BATCH + 1)
    ensures RowAt(BATCH) in s.rows && FirstIds(BATCH) <= AheadIds(s, RowAt(BATCH))
  {
    assert s.rows[BATCH] == RowAt(BATCH);
    forall id | id in FirstIds(BATCH)
      ensures id in AheadIds(s, RowAt(BATCH))
    {
      assert s.rows[id - 1] == RowAt(id - 1);
    }
  }

  /**
   A concrete run from an empty database: two active peers, fifty rows for the first and then one for
   the second. While the first peer's rows fail, drains of any number leave the row of the second
   peer alone, although that peer would answer.
   */
  lemma SecondPeerIsHeldBack(n: nat) returns (es: seq<Event>)
    ensures CanRun(Empty(true, true), TwoPeers())
    ensures var s := After(Empty(true, true), TwoPeers());
            && Up(s.peers, 1) && Up(s.peers, 2) && |s.rows| == 51 && s.rows[50].letter.serverId == 2
            && CanRun(s, es) && |es| == n && OnlyDrains(es) && FailExactly(es, FirstIds(50))
            && !Picked(es, s.rows[50].id) && Stands(After(s, es).rows, s.rows[50])
  {
    TwoPeersRun();
    var s := After(Empty(true, true), TwoPeers());
    FirstIdsCount(BATCH);
    NotesAhead(s);
    es := HeldBack(s, RowAt(BATCH), FirstIds(BATCH), n);
  }
}
