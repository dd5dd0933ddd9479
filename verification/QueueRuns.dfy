/**
 What the offline queue guarantees over every run: sends, drains, pings and admin actions in any
 order, with any answers from the network.
 */
module QueueRuns {
  import opened Common
  import opened Route
  import opened Queue

  // ---------- Facts about rows ----------

  ghost predicate UniqueIds(rows: seq<Row>) {
    rows == [] || ((forall r :: r in rows[1..] ==> r.id != rows[0].id) && UniqueIds(rows[1..]))
  }

  ghost predicate SameMail(a: seq<Row>, b: seq<Row>) {
    |a| == |b| && forall i :: 0 <= i < |a| ==> a[i].id == b[i].id && a[i].letter == b[i].letter
  }

  lemma {:induction false} SameMailFacts(a: seq<Row>, b: seq<Row>)
    requires SameMail(a, b)
    ensures Letters(a) == Letters(b)
    ensures UniqueIds(a) ==> UniqueIds(b)
  {
    if a != [] {
      SameMailFacts(a[1..], b[1..]);
      if UniqueIds(a) {
        forall r | r in b[1..]
          ensures r.id != b[0].id
        {
          var i :| 0 <= i < |b[1..]| && b[1..][i] == r;
          assert a[1..][i] in a[1..];
        }
      }
    }
  }

  lemma {:induction false} AppendFacts(rows: seq<Row>, row: Row)
    requires UniqueIds(rows)
    requires forall r :: r in rows ==> r.id != row.id
    ensures UniqueIds(rows + [row])
    ensures Letters(rows + [row]) == Letters(rows) + multiset{row.letter}
  {
    if rows == [] {
      assert rows + [row] == [row];
      assert Letters([row]) == multiset{row.letter} + Letters([]);
    } else {
      assert (rows + [row])[1..] == rows[1..] + [row];
      AppendFacts(rows[1..], row);
    }
  }

  lemma {:induction false} FilterFacts(rows: seq<Row>, keep: Row -> bool)
    requires UniqueIds(rows)
    ensures UniqueIds(Filter(rows, keep))
    ensures forall r :: r in Filter(rows, keep) <==> r in rows && keep(r)
  {
    if rows != [] {
      FilterFacts(rows[1..], keep);
      var tail := Filter(rows[1..], keep);
      assert rows == [rows[0]] + rows[1..];
      if keep(rows[0]) {
        assert Filter(rows, keep) == [rows[0]] + tail;
        assert Filter(rows, keep)[1..] == tail;
      } else {
        assert Filter(rows, keep) == tail;
      }
    }
  }

  lemma {:induction false} FilterSplit(rows: seq<Row>, keep: Row -> bool)
    ensures Letters(rows) == Letters(Filter(rows, keep)) + Letters(Filter(rows, Not(keep)))
  {
    if rows != [] {
      FilterSplit(rows[1..], keep);
      var yes, no := Filter(rows[1..], keep), Filter(rows[1..], Not(keep));
      if keep(rows[0]) {
        assert Filter(rows, keep)[1..] == yes && Filter(rows, Not(keep)) == no;
      } else {
        assert Filter(rows, keep) == yes && Filter(rows, Not(keep))[1..] == no;
      }
    }
  }

  lemma {:induction false} FilterAll(rows: seq<Row>, keep: Row -> bool)
    requires forall r :: r in rows ==> keep(r)
    ensures Filter(rows, keep) == rows
  {
    if rows != [] {
      FilterAll(rows[1..], keep);
    }
  }

  lemma {:induction false} DropOne(rows: seq<Row>, item: Row)
    requires UniqueIds(rows) && item in rows
    ensures Letters(rows) == Letters(Filter(rows, OtherThan(item.id))) + multiset{item.letter}
  {
    var tail := Filter(rows[1..], OtherThan(item.id));
    if rows[0] == item {
      FilterAll(rows[1..], OtherThan(item.id));
      assert Filter(rows, OtherThan(item.id)) == tail;
    } else {
      DropOne(rows[1..], item);
      assert Filter(rows, OtherThan(item.id))[1..] == tail;
    }
  }

  lemma {:induction false} SameId(rows: seq<Row>, a: Row, b: Row)
    requires UniqueIds(rows)
    requires a in rows && b in rows && a.id == b.id
    ensures a == b
  {
    if a != rows[0] && b != rows[0] {
      SameId(rows[1..], a, b);
    }
  }

  // ---------- The invariant ----------

  ghost predicate RowOk(r: Row) {
    r.letter.body.Json? && 0 <= r.attempts <= r.maxAttempts && r.maxAttempts == MAX_ATTEMPTS
  }

  ghost predicate RowsOk(rows: seq<Row>, nextId: int) {
    UniqueIds(rows) && forall r :: r in rows ==> r.id < nextId && RowOk(r)
  }

  ghost predicate BooksOk(s: State) {
    && s.accepted == s.answered + Letters(s.rows) + (s.discarded + s.ignored)
    && (s.transport ==> s.ignored == multiset{})
    && (forall l :: l in s.discarded ==> l.serverId in s.deleted)
    && s.deleted !! s.peers.Keys
  }

  ghost predicate Inv(s: State) {
    RowsOk(s.rows, s.nextId) && BooksOk(s)
  }

  /** The rows a drain may take: after the re-arm, every row of every active peer. */
  function Due(s: State): set<Row> {
    Eligible(s.peers, Rearm(s.peers, s.rows))
  }

  lemma RearmRows(peers: map<int, Status>, rows: seq<Row>, nextId: int)
    requires RowsOk(rows, nextId)
    ensures RowsOk(Rearm(peers, rows), nextId) && Letters(Rearm(peers, rows)) == Letters(rows)
    ensures forall r :: r in rows ==> RearmRow(peers, r) in Rearm(peers, rows)
    ensures forall r :: r in Rearm(peers, rows) ==> exists q :: q in rows && r == RearmRow(peers, q)
  {
    var after := Rearm(peers, rows);
    SameMailFacts(rows, after);
    forall r | r in after
      ensures RowOk(r) && r.id < nextId && exists q :: q in rows && r == RearmRow(peers, q)
    {
      var i :| 0 <= i < |after| && after[i] == r;
      assert rows[i] in rows && r == RearmRow(peers, rows[i]);
    }
    forall r | r in rows
      ensures RearmRow(peers, r) in after
    {
      var i :| 0 <= i < |rows| && rows[i] == r;
      assert after[i] == RearmRow(peers, r);
    }
  }

  lemma RearmFacts(s: State)
    requires Inv(s)
    ensures Inv(s.(rows := Rearm(s.peers, s.rows)))
    ensures forall r :: r in Due(s) <==> r in Rearm(s.peers, s.rows) && Up(s.peers, r.letter.serverId)
    ensures forall r :: r in s.rows ==> RearmRow(s.peers, r) in Rearm(s.peers, s.rows)
    ensures forall r :: r in Rearm(s.peers, s.rows) ==> exists q :: q in s.rows && r == RearmRow(s.peers, q)
  {
    RearmRows(s.peers, s.rows, s.nextId);
    forall r | r in Rearm(s.peers, s.rows) && Up(s.peers, r.letter.serverId)
      ensures r.attempts < r.maxAttempts
    {
      var q :| q in s.rows && r == RearmRow(s.peers, q);
      assert RowOk(q);
    }
  }

  // ---------- One row of a batch ----------

  lemma BlameFacts(rows: seq<Row>, id: int, reason: string)
    requires UniqueIds(rows)
    ensures UniqueIds(Blame(rows, id, reason)) && Letters(Blame(rows, id, reason)) == Letters(rows)
    ensures forall r :: r in rows && r.id != id ==> r in Blame(rows, id, reason)
    ensures forall r :: r in Blame(rows, id, reason) ==>
              exists q :: q in rows && r == if q.id == id then q.(attempts := q.attempts + 1, lastError := reason) else q
  {
    var after := Blame(rows, id, reason);
    SameMailFacts(rows, after);
    forall r | r in rows && r.id != id
      ensures r in after
    {
      var i :| 0 <= i < |rows| && rows[i] == r;
      assert after[i] == r;
    }
    forall r | r in after
      ensures exists q :: q in rows && r == if q.id == id then q.(attempts := q.attempts + 1, lastError := reason) else q
    {
      var i :| 0 <= i < |after| && after[i] == r;
      assert rows[i] in rows;
    }
  }

  /** The send of this item is answered below 500. */
  predicate Sent(s: State, item: Row, o: Outcome) {
    Up(s.peers, item.letter.serverId) && Delivered(o)
  }

  /** Processing one collected row removes it or counts one attempt; every other row stays exactly as it was. */
  lemma ItemRows(s: State, item: Row, o: Outcome)
    requires RowsOk(s.rows, s.nextId) && item in s.rows && item.attempts < item.maxAttempts
    ensures RowsOk(ItemStep(s, item, o).rows, s.nextId)
    ensures forall r :: r in s.rows && r != item ==> r.id != item.id && r in ItemStep(s, item, o).rows
    ensures Sent(s, item, o) ==> forall r :: r in ItemStep(s, item, o).rows <==> r in s.rows && r != item
  {
    OthersHaveOtherIds(s.rows, item);
    if Sent(s, item, o) {
      FilterFacts(s.rows, OtherThan(item.id));
    } else {
      var got := Transmit(s.peers, item.letter.serverId, Encodable(item.letter.body.value), o);
      BlamedRows(s.rows, s.nextId, item, Reason(got));
    }
  }

  lemma OthersHaveOtherIds(rows: seq<Row>, item: Row)
    requires UniqueIds(rows) && item in rows
    ensures forall r :: r in rows && r != item ==> r.id != item.id
  {
    forall r | r in rows && r != item
      ensures r.id != item.id
    {
      if r.id == item.id {
        SameId(rows, r, item);
      }
    }
  }

  lemma BlamedRows(rows: seq<Row>, nextId: int, item: Row, reason: string)
    requires RowsOk(rows, nextId) && item in rows && item.attempts < item.maxAttempts
    ensures RowsOk(Blame(rows, item.id, reason), nextId)
    ensures forall r :: r in rows && r.id != item.id ==> r in Blame(rows, item.id, reason)
  {
    BlameFacts(rows, item.id, reason);
    OthersHaveOtherIds(rows, item);
  }

  /** A send that fails costs its row one attempt and keeps it. */
  lemma FailedItemIsKept(s: State, item: Row, o: Outcome)
    requires item in s.rows && item.letter.body.Json? && !Sent(s, item, o)
    ensures exists r :: r in ItemStep(s, item, o).rows &&
              r.id == item.id && r.letter == item.letter && r.attempts == item.attempts + 1
  {
    var got := Transmit(s.peers, item.letter.serverId, Encodable(item.letter.body.value), o);
    var after := Blame(s.rows, item.id, Reason(got));
    var k :| 0 <= k < |s.rows| && s.rows[k] == item;
    assert after[k] in after;
  }

  lemma ItemBooks(s: State, item: Row, o: Outcome)
    requires Inv(s) && item in s.rows
    ensures BooksOk(ItemStep(s, item, o))
    ensures ItemStep(s, item, o).answered == s.answered + if Sent(s, item, o) then multiset{item.letter} else multiset{}
  {
    if Sent(s, item, o) {
      DropOne(s.rows, item);
      Transfer(s.answered, Letters(Filter(s.rows, OtherThan(item.id))), multiset{item.letter}, s.discarded + s.ignored);
    } else {
      var got := Transmit(s.peers, item.letter.serverId, Encodable(item.letter.body.value), o);
      BlameFacts(s.rows, item.id, Reason(got));
    }
  }

  /** A letter that leaves the queue for the answered ones stays in the sum. */
  lemma Transfer(answered: multiset<Letter>, queued: multiset<Letter>, one: multiset<Letter>, others: multiset<Letter>)
    ensures answered + (queued + one) + others == (answered + one) + queued + others
  {
  }

  /** The rows of a batch are untouched until their turn comes. */
  ghost predicate Collected(s: State, batch: seq<Row>) {
    NoDup(batch) && forall r :: r in batch ==> r in s.rows && r.attempts < r.maxAttempts
  }

  lemma CollectedRest(s: State, batch: seq<Row>, o: Outcome)
    requires Inv(s) && Collected(s, batch) && batch != []
    ensures batch[0] in s.rows && batch[0].attempts < batch[0].maxAttempts
    ensures Inv(ItemStep(s, batch[0], o)) && Collected(ItemStep(s, batch[0], o), batch[1..])
  {
    var item, rest := batch[0], batch[1..];
    assert item in batch;
    ItemRows(s, item, o);
    ItemBooks(s, item, o);
    forall r | r in rest
      ensures r in batch && r != item
    {
      var i :| 0 <= i < |rest| && rest[i] == r;
      assert batch[i + 1] == r;
    }
  }

  lemma {:induction false} ItemsKeep(s: State, batch: seq<Row>, oracle: Row -> Outcome)
    requires Inv(s) && Collected(s, batch)
    ensures Inv(ItemsStep(s, batch, oracle))
    decreases |batch|
  {
    if batch != [] {
      CollectedRest(s, batch, oracle(batch[0]));
      ItemsKeep(ItemStep(s, batch[0], oracle(batch[0])), batch[1..], oracle);
    }
  }

  /** Only the letters of the batch can become answered. */
  lemma {:induction false} ItemsAnswered(s: State, batch: seq<Row>, oracle: Row -> Outcome)
    requires Inv(s) && Collected(s, batch)
    ensures s.answered <= ItemsStep(s, batch, oracle).answered
    ensures forall l :: (forall r :: r in batch ==> r.letter != l) ==>
              ItemsStep(s, batch, oracle).answered[l] == s.answered[l]
    decreases |batch|
  {
    if batch != [] {
      CollectedRest(s, batch, oracle(batch[0]));
      ItemBooks(s, batch[0], oracle(batch[0]));
      assert forall r :: r in batch[1..] ==> r in batch;
      ItemsAnswered(ItemStep(s, batch[0], oracle(batch[0])), batch[1..], oracle);
    }
  }

  /** When every item is answered below 500, exactly the batch is gone. */
  lemma {:induction false} ItemsAllSent(s: State, batch: seq<Row>, oracle: Row -> Outcome)
    requires Inv(s) && Collected(s, batch)
    requires forall r :: r in batch ==> Sent(s, r, oracle(r))
    ensures forall r :: r in ItemsStep(s, batch, oracle).rows <==> r in s.rows && r !in batch
    decreases |batch|
  {
    if batch != [] {
      var item, rest := batch[0], batch[1..];
      var s' := ItemStep(s, item, oracle(item));
      assert batch == [item] + rest;
      CollectedRest(s, batch, oracle(item));
      ItemRows(s, item, oracle(item));
      ItemsAllSent(s', rest, oracle);
      forall r
        ensures r in ItemsStep(s, batch, oracle).rows <==> r in s.rows && r !in batch
      {
        assert r in ItemsStep(s, batch, oracle).rows <==> r in s'.rows && r !in rest;
        assert r in batch <==> r == item || r in rest;
      }
    }
  }

  lemma {:induction false} ItemsFrame(s: State, batch: seq<Row>, oracle: Row -> Outcome)
    ensures var t := ItemsStep(s, batch, oracle);
            t == s.(rows := t.rows, answered := t.answered)
    decreases |batch|
  {
    if batch != [] {
      ItemsFrame(ItemStep(s, batch[0], oracle(batch[0])), batch[1..], oracle);
    }
  }

  // ---------- Which answers count ----------

  /** The network failed, or the peer answered with 500 or more. */
  predicate Refused(o: Outcome) {
    o.Failed? || o.status >= 500
  }

  /**
   One send to an active peer, by what came back. Below 500 the letter is answered and nothing is
   queued. Otherwise nothing is answered, and one fresh row is appended if there is a queue and the
   insert succeeds; if not, the caller gets the error and nothing changes.
   */
  lemma SendByAnswer(s: State, req: Request, token: string, o: Outcome, stored: bool, now: int)
    requires s.transport && req.serverId in s.peers && s.peers[req.serverId] == Active && req.body.Encodable?
    ensures var (t, r) := SendOrQueueStep(s, req, token, o, stored, now);
            if !Refused(o) then
              && r == Ok && t.rows == s.rows && t.peers == s.peers
              && exists l: Letter :: l.serverId == req.serverId && l.endpoint == req.endpoint &&
                   l.body == Json(req.body.value) && t.answered == s.answered + multiset{l}
            else if s.queue && stored then
              && r == Ok && t.answered == s.answered && t.peers == s.peers
              && |t.rows| == |s.rows| + 1 && t.rows[..|s.rows|] == s.rows
              && var row := t.rows[|s.rows|];
                 row.letter.serverId == req.serverId && row.letter.endpoint == req.endpoint
                 && row.letter.body == Json(req.body.value)
                 && row.priority == 0 && row.attempts == 0 && row.maxAttempts == 3 && row.createdAt == now
            else r.Error? && t == s
  {
    assert Delivered(o) <==> !Refused(o);
    var l := LetterOf(Touched(s.peers, req, token), Json(req.body.value));
    assert l.serverId == req.serverId;
  }

  /** A send to a peer that is not active: no request goes out, so whatever the network would say it is queued. */
  lemma SendToInactive(s: State, req: Request, token: string, o: Outcome, stored: bool, now: int)
    requires s.transport && !(req.serverId in s.peers && s.peers[req.serverId] == Active) && req.body.Encodable?
    ensures var (t, r) := SendOrQueueStep(s, req, token, o, stored, now);
            && t.answered == s.answered
            && (if s.queue && stored then r == Ok && t.rows == s.rows + [NewRow(s, LetterOf(req, Json(req.body.value)), now)]
                else r.Error? && t == s)
  {
  }

  /** One drained row, by what came back: below 500 it alone goes, otherwise it alone has one attempt more. */
  lemma ItemByAnswer(s: State, item: Row, o: Outcome, k: nat)
    requires Inv(s) && k < |s.rows| && s.rows[k] == item && item.attempts < item.maxAttempts
    requires item.letter.serverId in s.peers && s.peers[item.letter.serverId] == Active
    ensures var t := ItemStep(s, item, o);
            && t.peers == s.peers
            && (!Refused(o) ==>
                  t.rows == s.rows[..k] + s.rows[k + 1..] && t.answered == s.answered + multiset{item.letter})
            && (Refused(o) ==>
                  && t.answered == s.answered && |t.rows| == |s.rows|
                  && t.rows[k].id == item.id && t.rows[k].letter == item.letter && t.rows[k].attempts == item.attempts + 1
                  && forall i :: 0 <= i < |s.rows| && i != k ==> t.rows[i] == s.rows[i])
  {
    if Refused(o) {
      forall i | 0 <= i < |s.rows| && i != k
        ensures s.rows[i].id != item.id
      {
        IdsDiffer(s.rows, i, k);
      }
    } else {
      FilterOne(s.rows, k);
    }
  }

  /** A row whose body does not decode is dropped without a send, and only that row. */
  lemma UndecodableIsDropped(s: State, item: Row, o: Outcome, k: nat)
    requires UniqueIds(s.rows) && k < |s.rows| && s.rows[k] == item && item.letter.body.NotJson?
    ensures ItemStep(s, item, o) == s.(rows := s.rows[..k] + s.rows[k + 1..])
  {
    FilterOne(s.rows, k);
  }

  lemma {:induction false} IdsDiffer(rows: seq<Row>, i: nat, j: nat)
    requires UniqueIds(rows) && i < |rows| && j < |rows| && i != j
    ensures rows[i].id != rows[j].id
  {
    if i > 0 && j > 0 {
      IdsDiffer(rows[1..], i - 1, j - 1);
    } else {
      assert rows[1..][(if i == 0 then j else i) - 1] in rows[1..];
    }
  }

  lemma {:induction false} FilterOne(rows: seq<Row>, k: nat)
    requires UniqueIds(rows) && k < |rows|
    ensures Filter(rows, OtherThan(rows[k].id)) == rows[..k] + rows[k + 1..]
  {
    if k == 0 {
      FilterAll(rows[1..], OtherThan(rows[0].id));
    } else {
      IdsDiffer(rows, 0, k);
      FilterOne(rows[1..], k - 1);
    }
  }

  /**
   A ping, by what came back. 500 and more, or no answer: an active peer becomes unreachable and
   nothing else happens. Below 500: an unreachable peer becomes active and its exhausted rows start
   over, and nothing else happens.
   */
  lemma PingByAnswer(s: State, id: int, o: Outcome)
    requires id in s.peers
    ensures var (t, drain) := PingStep(s, id, o);
            if Refused(o) && s.peers[id] == Active then
              t == s.(peers := s.peers[id := Unreachable]) && !drain
            else if !Refused(o) && s.peers[id] == Unreachable then
              && t == s.(peers := s.peers[id := Active], rows := t.rows) && |t.rows| == |s.rows|
              && (drain <==> exists i :: 0 <= i < |s.rows| && s.rows[i].letter.serverId == id)
              && forall i :: 0 <= i < |s.rows| ==>
                   t.rows[i] == if s.rows[i].letter.serverId == id && s.rows[i].attempts >= s.rows[i].maxAttempts
                                then s.rows[i].(attempts := 0, lastError := "") else s.rows[i]
            else t == s && !drain
  {
    if !Refused(o) && s.peers[id] == Unreachable {
      assert (exists r :: r in s.rows && r.letter.serverId == id) <==>
             (exists i :: 0 <= i < |s.rows| && s.rows[i].letter.serverId == id);
    }
  }

  /** The re-arm before a drain starts exactly the exhausted rows of active peers over. */
  lemma RearmsExactly(peers: map<int, Status>, rows: seq<Row>, i: nat)
    requires i < |rows|
    ensures |Rearm(peers, rows)| == |rows|
    ensures Rearm(peers, rows)[i] ==
            if rows[i].attempts >= rows[i].maxAttempts && rows[i].letter.serverId in peers && peers[rows[i].letter.serverId] == Active
            then rows[i].(attempts := 0, lastError := "") else rows[i]
  {
  }

  /** A row is up for a batch exactly when it has attempts left and its peer is active. */
  lemma EligibleExactly(peers: map<int, Status>, rows: seq<Row>, r: Row)
    ensures r in Eligible(peers, rows) <==>
            && r in rows && r.attempts < r.maxAttempts
            && r.letter.serverId in peers && peers[r.letter.serverId] == Active
  {
  }

  /** Pings come fast exactly while a peer is unreachable or a row has failed and not started over. */
  lemma PingsFastIff(s: State)
    ensures !PingsFast(s) <==>
            && (forall id :: id in s.peers ==> s.peers[id] != Unreachable)
            && (forall i :: 0 <= i < |s.rows| ==> s.rows[i].attempts <= 0)
  {
    if forall i :: 0 <= i < |s.rows| ==> s.rows[i].attempts <= 0 {
      forall r | r in s.rows
        ensures r.attempts <= 0
      {
        var i :| 0 <= i < |s.rows| && s.rows[i] == r;
      }
    } else {
      var i :| 0 <= i < |s.rows| && s.rows[i].attempts > 0;
      assert s.rows[i] in s.rows;
    }
  }

  // ---------- Runs ----------

  datatype Event =
    | Send(req: Request, token: string, o: Outcome, stored: bool, now: int)
    | Drain(batch: seq<Row>, oracle: Row -> Outcome)
    | Ping(id: int, o: Outcome)
    | Block(id: int)
    | Unblock(id: int)
    | Connect(id: int)
    | Delete(id: int)

  ghost predicate Enabled(s: State, e: Event) {
    match e
    case Drain(batch, _) => FirstOf(Due(s), BATCH, batch)
    case Connect(id) => id !in s.peers && id !in s.deleted
    case Block(id) => id in s.peers
    case Unblock(id) => id in s.peers
    case _ => true
  }

  ghost function Apply(s: State, e: Event): State
    requires Enabled(s, e)
  {
    match e
    case Send(req, token, o, stored, now) => SendOrQueueStep(s, req, token, o, stored, now).0
    case Drain(batch, oracle) => DrainStep(s, batch, oracle)
    case Ping(id, o) => PingStep(s, id, o).0
    case Block(id) => s.(peers := s.peers[id := Blocked])
    case Unblock(id) => s.(peers := s.peers[id := Active])
    case Connect(id) => s.(peers := s.peers[id := Active])
    case Delete(id) => DeletePeerStep(s, id)
  }

  ghost predicate CanRun(s: State, es: seq<Event>)
    decreases |es|
  {
    es == [] || (Enabled(s, es[0]) && CanRun(Apply(s, es[0]), es[1..]))
  }

  ghost function After(s: State, es: seq<Event>): State
    requires CanRun(s, es)
    decreases |es|
  {
    if es == [] then s else After(Apply(s, es[0]), es[1..])
  }

  lemma BatchIsCollected(s: State, batch: seq<Row>)
    requires Inv(s) && FirstOf(Due(s), BATCH, batch)
    ensures Inv(s.(rows := Rearm(s.peers, s.rows)))
    ensures Collected(s.(rows := Rearm(s.peers, s.rows)), batch)
    ensures forall r :: r in batch ==> r in Due(s) && Up(s.peers, r.letter.serverId)
  {
    RearmFacts(s);
    forall r | r in batch
      ensures r in Due(s)
    {
      assert r in Elems(batch);
    }
  }

  lemma DrainKeeps(s: State, batch: seq<Row>, oracle: Row -> Outcome)
    requires Inv(s) && FirstOf(Due(s), BATCH, batch)
    ensures Inv(DrainStep(s, batch, oracle))
    ensures s.answered <= DrainStep(s, batch, oracle).answered
    ensures forall l: Letter :: !Up(s.peers, l.serverId) ==> DrainStep(s, batch, oracle).answered[l] == s.answered[l]
    ensures var t := DrainStep(s, batch, oracle);
            t == s.(rows := t.rows, answered := t.answered)
  {
    var s1 := s.(rows := Rearm(s.peers, s.rows));
    BatchIsCollected(s, batch);
    ItemsKeep(s1, batch, oracle);
    ItemsAnswered(s1, batch, oracle);
    ItemsFrame(s1, batch, oracle);
  }

  /** The re-arm after a recovery touches no mail and leaves every row of that peer deliverable. */
  lemma DrainFailedFacts(rows: seq<Row>, nextId: int, id: int)
    requires RowsOk(rows, nextId)
    ensures RowsOk(DrainFailed(id, rows), nextId) && Letters(DrainFailed(id, rows)) == Letters(rows)
    ensures forall r :: r in DrainFailed(id, rows) && r.letter.serverId == id ==> r.attempts < r.maxAttempts
    ensures forall r :: r in rows && (r.letter.serverId != id || r.attempts < r.maxAttempts) ==> r in DrainFailed(id, rows)
  {
    var after := DrainFailed(id, rows);
    SameMailFacts(rows, after);
    forall r | r in after
      ensures RowOk(r) && r.id < nextId && (r.letter.serverId == id ==> r.attempts < r.maxAttempts)
    {
      var i :| 0 <= i < |after| && after[i] == r;
      assert rows[i] in rows;
    }
    forall r | r in rows && (r.letter.serverId != id || r.attempts < r.maxAttempts)
      ensures r in after
    {
      var i :| 0 <= i < |rows| && rows[i] == r;
      assert after[i] == r;
    }
  }

  /** A ping never moves a blocked or pending peer, nor any other; a recovery makes all its rows due. */
  lemma PingKeeps(s: State, id: int, o: Outcome)
    requires Inv(s)
    ensures Inv(PingStep(s, id, o).0)
    ensures PingStep(s, id, o).0.peers.Keys == s.peers.Keys
    ensures id in s.peers && s.peers[id] != (if Delivered(o) then Unreachable else Active) ==>
              PingStep(s, id, o) == (s, false)
    ensures forall p :: p in s.peers && (p != id || s.peers[p] == Blocked || s.peers[p] == Pending) ==>
              PingStep(s, id, o).0.peers[p] == s.peers[p]
    ensures Up(s.peers, id) && !Delivered(o) ==> PingStep(s, id, o).0.peers[id] == Unreachable
    ensures id in s.peers && s.peers[id] == Unreachable && Delivered(o) ==>
              && Up(PingStep(s, id, o).0.peers, id)
              && (PingStep(s, id, o).1 <==> exists r :: r in s.rows && r.letter.serverId == id)
              && forall r :: r in PingStep(s, id, o).0.rows && r.letter.serverId == id ==> r.attempts < r.maxAttempts
  {
    DrainFailedFacts(s.rows, s.nextId, id);
    if id in s.peers && Delivered(o) && s.peers[id] == Unreachable {
      assert s.peers[id := Active].Keys == s.peers.Keys;
    } else if id in s.peers && !Delivered(o) && s.peers[id] == Active {
      assert s.peers[id := Unreachable].Keys == s.peers.Keys;
    } else {
      assert PingStep(s, id, o).0 == s;
    }
  }

  lemma IgnoredKeeps(s: State, l: Letter)
    requires Inv(s) && !s.transport
    ensures Inv(Ignored(s, l))
  {
    assert s.answered + Letters(s.rows) + (s.discarded + s.ignored) + multiset{l} ==
           s.answered + Letters(s.rows) + (s.discarded + (s.ignored + multiset{l}));
  }

  lemma AnsweredKeeps(s: State, l: Letter)
    requires Inv(s)
    ensures Inv(AnsweredNow(s, l))
    ensures AnsweredNow(s, l).answered + Letters(AnsweredNow(s, l).rows) == s.answered + Letters(s.rows) + multiset{l}
  {
    Swapped(s.answered, Letters(s.rows), multiset{l}, s.discarded + s.ignored);
  }

  lemma QueuedKeeps(s: State, text: string, l: Letter, now: int)
    requires Inv(s) && l.body == Json(text)
    ensures Inv(Queued(s, l, now))
    ensures Queued(s, l, now).answered + Letters(Queued(s, l, now).rows) == s.answered + Letters(s.rows) + multiset{l}
  {
    AppendFacts(s.rows, NewRow(s, l, now));
    Swapped(s.answered, Letters(s.rows), multiset{l}, s.discarded + s.ignored);
  }

  lemma Swapped(a: multiset<Letter>, b: multiset<Letter>, one: multiset<Letter>, rest: multiset<Letter>)
    ensures a + b + rest + one == (a + one) + b + rest == a + (b + one) + rest
    ensures (a + one) + b == a + b + one == a + (b + one)
  {
  }

  lemma SendKeeps(s: State, req: Request, token: string, o: Outcome, stored: bool, now: int)
    requires Inv(s)
    ensures Inv(SendOrQueueStep(s, req, token, o, stored, now).0)
  {
    var t := SendOrQueueStep(s, req, token, o, stored, now).0;
    if t != s {
      var text := Marshal(req.body).value;
      var sent, kept := LetterOf(req, text), LetterOf(Touched(s.peers, req, token), text);
      if !s.transport {
        IgnoredKeeps(s, sent);
        assert t == Ignored(s, sent);
      } else if t.rows == s.rows {
        AnsweredKeeps(s, kept);
        assert t == AnsweredNow(s, kept);
      } else {
        QueuedKeeps(s, text.value, kept, now);
        assert t == Queued(s, kept, now);
      }
    }
  }

  lemma DeleteKeeps(s: State, id: int)
    requires Inv(s)
    ensures Inv(DeletePeerStep(s, id))
  {
    FilterFacts(s.rows, NotFor(id));
    FilterSplit(s.rows, NotFor(id));
    GoneAreTheirs(s.rows, id);
  }

  lemma GoneAreTheirs(rows: seq<Row>, id: int)
    requires UniqueIds(rows)
    ensures forall l :: l in Letters(Filter(rows, Not(NotFor(id)))) ==> l.serverId == id
  {
    FilterFacts(rows, Not(NotFor(id)));
    var gone := Filter(rows, Not(NotFor(id)));
    forall l | l in Letters(gone)
      ensures l.serverId == id
    {
      LetterHasRow(gone, l);
    }
  }

  /** Deleting a peer removes exactly its rows, and exactly their letters are booked as removed with it. */
  lemma DeleteRemovesExactly(s: State, id: int)
    requires Inv(s)
    ensures var t := DeletePeerStep(s, id);
            && t.peers == s.peers - {id} && t.answered == s.answered && t.accepted == s.accepted
            && (forall r :: r in t.rows <==> r in s.rows && r.letter.serverId != id)
            && t.discarded + Letters(t.rows) == s.discarded + Letters(s.rows)
            && (forall l: Letter :: l.serverId != id ==> t.discarded[l] == s.discarded[l])
  {
    FilterFacts(s.rows, NotFor(id));
    FilterSplit(s.rows, NotFor(id));
    GoneAreTheirs(s.rows, id);
  }

  lemma {:induction false} LetterHasRow(rows: seq<Row>, l: Letter)
    requires l in Letters(rows)
    ensures exists r :: r in rows && r.letter == l
  {
    if rows[0].letter != l {
      LetterHasRow(rows[1..], l);
    }
  }

  /** What every single event keeps. */
  lemma EventKeeps(s: State, e: Event)
    requires Inv(s) && Enabled(s, e)
    ensures Inv(Apply(s, e))
  {
    match e
    case Send(req, token, o, stored, now) => SendKeeps(s, req, token, o, stored, now);
    case Drain(batch, oracle) => DrainKeeps(s, batch, oracle);
    case Ping(id, o) => PingKeeps(s, id, o);
    case Delete(id) => DeleteKeeps(s, id);
    case Block(id) => assert s.peers[id := Blocked].Keys == s.peers.Keys;
    case Unblock(id) => assert s.peers[id := Active].Keys == s.peers.Keys;
    case Connect(_) =>
  }

  /** The books only grow, and no event answers a letter whose peer is not active. */
  lemma EventGrows(s: State, e: Event)
    requires Inv(s) && Enabled(s, e)
    ensures Apply(s, e).transport == s.transport
    ensures s.accepted <= Apply(s, e).accepted && s.answered <= Apply(s, e).answered
    ensures s.deleted <= Apply(s, e).deleted
    ensures forall l: Letter :: !Up(s.peers, l.serverId) ==> Apply(s, e).answered[l] == s.answered[l]
  {
    if e.Send? {
      SendGrows(s, e.req, e.token, e.o, e.stored, e.now);
    } else if e.Drain? {
      DrainKeeps(s, e.batch, e.oracle);
    } else {
      OthersKeepBooks(s, e);
    }
  }

  lemma OthersKeepBooks(s: State, e: Event)
    requires Enabled(s, e) && !e.Send? && !e.Drain?
    ensures var t := Apply(s, e);
            && t.transport == s.transport && t.accepted == s.accepted && t.answered == s.answered
            && s.deleted <= t.deleted
  {
  }

  /** One more accepted letter, and at most it becomes answered, when its peer is active. */
  ghost predicate Grown(s: State, t: State, letter: Letter) {
    && t.transport == s.transport && t.deleted == s.deleted
    && t.accepted == s.accepted + multiset{letter}
    && (t.answered == s.answered || (Up(s.peers, letter.serverId) && t.answered == s.answered + multiset{letter}))
  }

  lemma GrownGrows(s: State, t: State, letter: Letter)
    requires Grown(s, t, letter)
    ensures s.accepted <= t.accepted && s.answered <= t.answered
    ensures forall l: Letter :: !Up(s.peers, l.serverId) ==> t.answered[l] == s.answered[l]
  {
  }

  lemma SendGrows(s: State, req: Request, token: string, o: Outcome, stored: bool, now: int)
    ensures var t := SendOrQueueStep(s, req, token, o, stored, now).0;
            && t.transport == s.transport && t.deleted == s.deleted
            && s.accepted <= t.accepted && s.answered <= t.answered
            && forall l: Letter :: !Up(s.peers, l.serverId) ==> t.answered[l] == s.answered[l]
  {
    var t := SendOrQueueStep(s, req, token, o, stored, now).0;
    if t != s {
      var text := Marshal(req.body).value;
      var letter := LetterOf(if s.transport then Touched(s.peers, req, token) else req, text);
      assert Grown(s, t, letter);
      GrownGrows(s, t, letter);
    }
  }

  lemma {:induction false} RunKeeps(s: State, es: seq<Event>)
    requires Inv(s) && CanRun(s, es)
    ensures Inv(After(s, es))
    ensures After(s, es).transport == s.transport
    ensures s.accepted <= After(s, es).accepted && s.answered <= After(s, es).answered
    ensures s.deleted <= After(s, es).deleted
    decreases |es|
  {
    if es != [] {
      EventKeeps(s, es[0]);
      EventGrows(s, es[0]);
      RunKeeps(Apply(s, es[0]), es[1..]);
    }
  }

  /**
   Nothing accepted is lost. After any run from an empty database with a transport configured, every
   letter whose sender was told nil is, copy for copy, either answered below 500, or still a row, or
   was removed together with a peer that the admin deleted.
   */
  lemma NothingAcceptedIsLost(queue: bool, es: seq<Event>)
    requires CanRun(Empty(true, queue), es)
    ensures var t := After(Empty(true, queue), es);
            && t.accepted == t.answered + Letters(t.rows) + t.discarded
            && (forall l :: l in t.discarded ==> l.serverId in t.deleted)
            && (forall r :: r in t.rows ==> 0 <= r.attempts <= r.maxAttempts)
  {
    RunKeeps(Empty(true, queue), es);
  }

  /** Whatever the peers answer in this event, it is 500 or more, or nothing. */
  ghost predicate AllRefused(e: Event) {
    match e
    case Send(_, _, o, _, _) => Refused(o)
    case Drain(_, oracle) => forall r :: Refused(oracle(r))
    case _ => true
  }

  lemma {:induction false} RefusedItems(s: State, batch: seq<Row>, oracle: Row -> Outcome)
    requires forall r :: Refused(oracle(r))
    ensures ItemsStep(s, batch, oracle).answered == s.answered
    decreases |batch|
  {
    if batch != [] {
      assert Refused(oracle(batch[0]));
      RefusedItems(ItemStep(s, batch[0], oracle(batch[0])), batch[1..], oracle);
    }
  }

  lemma RefusedEvent(s: State, e: Event)
    requires Enabled(s, e) && AllRefused(e)
    ensures Apply(s, e).answered == s.answered
  {
    if e.Drain? {
      RefusedItems(s.(rows := Rearm(s.peers, s.rows)), e.batch, e.oracle);
    } else if e.Send? {
      assert !Delivered(Transmit(s.peers, e.req.serverId, e.req.body, e.o));
    }
  }

  lemma {:induction false} RefusedRun(s: State, es: seq<Event>)
    requires CanRun(s, es) && forall e :: e in es ==> AllRefused(e)
    ensures After(s, es).answered == s.answered
    decreases |es|
  {
    if es != [] {
      assert es[0] in es && forall e :: e in es[1..] ==> e in es;
      RefusedEvent(s, es[0]);
      RefusedRun(Apply(s, es[0]), es[1..]);
    }
  }

  /** While every answer is 500 or more, everything accepted is still queued or went with a deleted peer. */
  lemma RefusedIsKept(queue: bool, es: seq<Event>)
    requires CanRun(Empty(true, queue), es) && forall e :: e in es ==> AllRefused(e)
    ensures var t := After(Empty(true, queue), es);
            t.answered == multiset{} && t.accepted == Letters(t.rows) + t.discarded
  {
    RefusedRun(Empty(true, queue), es);
    NothingAcceptedIsLost(queue, es);
  }

  /** SendOrQueue reports an error exactly when neither path worked; without a transport it never does. */
  lemma ErrorIffBothPathsFailed(s: State, req: Request, token: string, o: Outcome, stored: bool, now: int)
    ensures SendOrQueueStep(s, req, token, o, stored, now).1.Error? <==>
            && s.transport
            && !Delivered(Transmit(s.peers, req.serverId, req.body, o))
            && (!s.queue || !stored || req.body.Unencodable?)
    ensures SendOrQueueStep(s, req, token, o, stored, now).1.Error? ==> SendOrQueueStep(s, req, token, o, stored, now).0 == s
  {
  }

  lemma OneMore(m: multiset<Letter>, l: Letter)
    ensures m + multiset{l} != m
  {
    assert (m + multiset{l})[l] == m[l] + 1;
  }

  /** The letter of this send is answered or queued afterwards, on top of all that was. */
  ghost predicate Kept(s: State, req: Request, token: string, t: State) {
    && Marshal(req.body).Some?
    && t.answered + Letters(t.rows) ==
       s.answered + Letters(s.rows) + multiset{LetterOf(Touched(s.peers, req, token), Marshal(req.body).value)}
  }

  /** The nil of a server without a transport is the one acceptance that keeps nothing. */
  lemma LostIffNoTransport(s: State, req: Request, token: string, o: Outcome, stored: bool, now: int)
    requires Inv(s) && SendOrQueueStep(s, req, token, o, stored, now).1 == Ok
    ensures Kept(s, req, token, SendOrQueueStep(s, req, token, o, stored, now).0) <==> s.transport
  {
    if req.body.Encodable? {
      var l := LetterOf(Touched(s.peers, req, token), Json(req.body.value));
      AnsweredKeeps(s, l);
      QueuedKeeps(s, req.body.value, l, now);
      OneMore(s.answered + Letters(s.rows), l);
    }
  }

  /** The drop branch for unparseable bodies is dead: every row of every run can be decoded. */
  lemma UnparseableRowsNeverOccur(transport: bool, queue: bool, es: seq<Event>, r: Row)
    requires CanRun(Empty(transport, queue), es)
    requires r in After(Empty(transport, queue), es).rows
    ensures Unmarshal(r.letter.body).Some?
  {
    RunKeeps(Empty(transport, queue), es);
  }

  /** On the wire are the peer's token, the content type, and otherwise the headers of the request. */
  lemma WireHeaders(req: Request, token: string, k: string)
    ensures var h := OnWire(req, token).headers;
            && "X-Federation-Token" in h && h["X-Federation-Token"] == token
            && "Content-Type" in h && h["Content-Type"] == "application/json"
            && (k != "X-Federation-Token" && k != "Content-Type" ==>
                  (k in h <==> req.headers.Some? && k in req.headers.value) && (k in h ==> h[k] == req.headers.value[k]))
  {
    assert "X-Federation-Token"[0] != "Content-Type"[0];
  }

  /**
   Whatever headers the caller set and whether or not the failed attempt stamped them, the replay puts
   on the wire what the request itself would put there at that moment, exactly when it was a POST: the
   verb is not stored.
   */
  lemma ReplayedAsSent(s: State, req: Request, token: string, now: int, later: string)
    requires req.body.Encodable?
    ensures var row := NewRow(s, LetterOf(Touched(s.peers, req, token), Json(req.body.value)), now);
            Replay(row).Some? && (OnWire(Replay(row).value, later) == OnWire(req, later) <==> req.verb == "POST")
  {
    var row := NewRow(s, LetterOf(Touched(s.peers, req, token), Json(req.body.value)), now);
    var h := HeadersOf(req.headers);
    assert Stamp(Stamp(h, token), later) == Stamp(h, later);
    assert HeadersOf(Replay(row).value.headers) == row.letter.headers;
  }
}
