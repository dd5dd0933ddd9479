/**
 backend/federation/queue.go and health.go: the offline queue behind federation sends, the drain,
 the re-arm and the peer status machine that feeds it. The two tables are fields of an object;
 whatever the network answers is an arbitrary oracle.
 */
module Queue {
  import opened Common
  import opened Route

  const BATCH := 50
  const MAX_ATTEMPTS := 3

  // ---------- Data ----------

  /** A request body as a Go value: one that json.Marshal can encode, or one that it cannot. */
  datatype Body = Encodable(value: string) | Unencodable

  /** The text of the body column. */
  datatype Text = Json(value: string) | NotJson(raw: string)

  function Marshal(b: Body): Option<Text> {
    match b
    case Encodable(v) => Some(Json(v))
    case Unencodable => None
  }

  function Unmarshal(t: Text): Option<string> {
    match t
    case Json(v) => Some(v)
    case NotJson(_) => None
  }

  /** The header map of a request may be nil. */
  datatype Request = Request(serverId: int, endpoint: string, verb: string, body: Body, headers: Option<map<string, string>>)

  /** What the queue stores of a request. The method is not stored, and no header is stored as an empty column. */
  datatype Letter = Letter(serverId: int, endpoint: string, body: Text, headers: map<string, string>)

  datatype Row = Row(id: int, letter: Letter, priority: int, attempts: int, maxAttempts: int,
                     lastError: string, createdAt: int)

  datatype Outcome = Failed(reason: string) | Answered(status: int)

  datatype Result = Ok | Error(reason: string)

  predicate Delivered(o: Outcome) {
    o.Answered? && o.status < 500
  }

  function Reason(o: Outcome): string {
    match o
    case Failed(reason) => reason
    case Answered(_) => "status"
  }

  /**
   The tables, plus the books the proofs keep: every letter whose sender got nil, every letter a
   peer answered below 500, every letter removed together with its peer, and every letter that was
   dropped because no transport is configured.
   */
  datatype State = State(peers: map<int, Status>, rows: seq<Row>, nextId: int, transport: bool, queue: bool,
                         accepted: multiset<Letter>, answered: multiset<Letter>, discarded: multiset<Letter>,
                         ignored: multiset<Letter>, deleted: set<int>)

  /** A fresh database. */
  function Empty(transport: bool, queue: bool): State {
    State(map[], [], 1, transport, queue, multiset{}, multiset{}, multiset{}, multiset{}, {})
  }

  predicate Up(peers: map<int, Status>, id: int) {
    id in peers && peers[id] == Active
  }

  /** Transport.Send and SendQuick: a peer that is not active is refused before any request is made. */
  function Transmit(peers: map<int, Status>, serverId: int, body: Body, o: Outcome): Outcome {
    if !Up(peers, serverId) then Failed("server not found or not active")
    else if body.Unencodable? then Failed("unsupported type")
    else o
  }

  // ---------- Sending ----------

  function HeadersOf(headers: Option<map<string, string>>): map<string, string> {
    match headers
    case None => map[]
    case Some(h) => h
  }

  /** The two headers that the transport writes before a request goes out. */
  function Stamp(headers: map<string, string>, token: string): map<string, string> {
    headers["X-Federation-Token" := token]["Content-Type" := "application/json"]
  }

  /** The caller's request after an attempt: if it got as far as the headers, its own map carries the stamp. */
  function Touched(peers: map<int, Status>, req: Request, token: string): Request {
    if Up(peers, req.serverId) && req.body.Encodable? && req.headers.Some?
    then req.(headers := Some(Stamp(req.headers.value, token)))
    else req
  }

  /** What the peer sees of a request, with the token of the moment. */
  datatype Wire = Wire(serverId: int, endpoint: string, verb: string, body: Body, headers: map<string, string>)

  function OnWire(req: Request, token: string): Wire {
    Wire(req.serverId, req.endpoint, req.verb, req.body, Stamp(HeadersOf(req.headers), token))
  }

  function LetterOf(req: Request, text: Text): Letter {
    Letter(req.serverId, req.endpoint, text, HeadersOf(req.headers))
  }

  function NewRow(s: State, letter: Letter, now: int): Row {
    Row(s.nextId, letter, 0, 0, MAX_ATTEMPTS, "", now)
  }

  /** The request that a row is replayed as. */
  function Replay(row: Row): Option<Request> {
    match Unmarshal(row.letter.body)
    case None => None
    case Some(v) =>
      var headers := if row.letter.headers == map[] then None else Some(row.letter.headers);
      Some(Request(row.letter.serverId, row.letter.endpoint, "POST", Encodable(v), headers))
  }

  function Ignored(s: State, letter: Letter): State {
    s.(accepted := s.accepted + multiset{letter}, ignored := s.ignored + multiset{letter})
  }

  function AnsweredNow(s: State, letter: Letter): State {
    s.(accepted := s.accepted + multiset{letter}, answered := s.answered + multiset{letter})
  }

  function Queued(s: State, letter: Letter, now: int): State {
    s.(accepted := s.accepted + multiset{letter}, rows := s.rows + [NewRow(s, letter, now)], nextId := s.nextId + 1)
  }

  /** SendOrQueue. `token` is the peer's, `o` what the network would answer, `stored` whether the INSERT succeeds. */
  function SendOrQueueStep(s: State, req: Request, token: string, o: Outcome, stored: bool, now: int): (State, Result) {
    if !s.transport then
      (match Marshal(req.body)
       case Some(text) => (Ignored(s, LetterOf(req, text)), Ok)
       case None => (s, Ok))
    else
      var got := Transmit(s.peers, req.serverId, req.body, o);
      match Marshal(req.body)
      case None => (s, Error(Reason(got)))
      case Some(text) =>
        var letter := LetterOf(Touched(s.peers, req, token), text);
        if Delivered(got) then (AnsweredNow(s, letter), Ok)
        else if !s.queue || !stored then (s, Error(Reason(got)))
        else (Queued(s, letter, now), Ok)
  }

  // ---------- Draining ----------

  function Rearmed(row: Row): Row {
    row.(attempts := 0, lastError := "")
  }

  function RearmRow(peers: map<int, Status>, row: Row): Row {
    if row.attempts >= row.maxAttempts && Up(peers, row.letter.serverId) then Rearmed(row) else row
  }

  function Rearm(peers: map<int, Status>, rows: seq<Row>): seq<Row> {
    seq(|rows|, i requires 0 <= i < |rows| => RearmRow(peers, rows[i]))
  }

  /** ORDER BY priority DESC, created_at ASC. */
  predicate Before(a: Row, b: Row) {
    a.priority > b.priority || (a.priority == b.priority && a.createdAt < b.createdAt)
  }

  function Ahead(): (Row, Row) -> bool {
    (a: Row, b: Row) => Before(a, b)
  }

  function Eligible(peers: map<int, Status>, rows: seq<Row>): set<Row> {
    set r | r in rows && r.attempts < r.maxAttempts && Up(peers, r.letter.serverId)
  }

  /** A possible answer to the batch query over a set of candidates; ties may fall either way. */
  ghost predicate FirstOf(candidates: set<Row>, limit: nat, batch: seq<Row>) {
    && NoDup(batch)
    && Elems(batch) <= candidates
    && |batch| == (if |candidates| < limit then |candidates| else limit)
    && (forall i, j :: 0 <= i < j < |batch| ==> !Before(batch[j], batch[i]))
    && (forall r, x :: r in candidates && r !in batch && x in batch ==> !Before(r, x))
  }

  function TopOf(listed: seq<Row>): seq<Row> {
    var sorted := SortBy(listed, Ahead());
    if |sorted| < BATCH then sorted else sorted[..BATCH]
  }

  /** Sorting any listing of the candidates and cutting it off answers the batch query. */
  lemma TopIsFirst(listed: seq<Row>, candidates: set<Row>)
    requires Lists(listed, candidates)
    ensures FirstOf(candidates, BATCH, TopOf(listed))
  {
    var sorted, batch := SortBy(listed, Ahead()), TopOf(listed);
    SortByLists(listed, candidates, Ahead());
    forall r, x | r in candidates && r !in batch && x in batch
      ensures !Before(r, x)
    {
      assert r in Elems(sorted);
      var j :| 0 <= j < |sorted| && sorted[j] == r;
      var i :| 0 <= i < |batch| && batch[i] == x;
      assert j >= |batch| && !Ahead()(sorted[j], sorted[i]);
    }
    forall i, j | 0 <= i < j < |batch|
      ensures !Before(batch[j], batch[i])
    {
      assert !Ahead()(sorted[j], sorted[i]);
    }
    assert Elems(batch) <= Elems(sorted);
  }

  function OtherThan(id: int): Row -> bool {
    (r: Row) => r.id != id
  }

  function NotFor(serverId: int): Row -> bool {
    (r: Row) => r.letter.serverId != serverId
  }

  function Not(p: Row -> bool): Row -> bool {
    (r: Row) => !p(r)
  }

  /** The queued letters, counted. */
  function Letters(rows: seq<Row>): multiset<Letter> {
    if rows == [] then multiset{} else multiset{rows[0].letter} + Letters(rows[1..])
  }

  function Blame(rows: seq<Row>, id: int, reason: string): seq<Row> {
    seq(|rows|, i requires 0 <= i < |rows| =>
      if rows[i].id == id then rows[i].(attempts := rows[i].attempts + 1, lastError := reason) else rows[i])
  }

  /** processItem for one collected row. */
  function ItemStep(s: State, item: Row, o: Outcome): State {
    match Unmarshal(item.letter.body)
    case None => s.(rows := Filter(s.rows, OtherThan(item.id)))
    case Some(v) =>
      var got := Transmit(s.peers, item.letter.serverId, Encodable(v), o);
      if Delivered(got)
      then s.(rows := Filter(s.rows, OtherThan(item.id)), answered := s.answered + multiset{item.letter})
      else s.(rows := Blame(s.rows, item.id, Reason(got)))
  }

  function ItemsStep(s: State, batch: seq<Row>, oracle: Row -> Outcome): State
    decreases |batch|
  {
    if batch == [] then s else ItemsStep(ItemStep(s, batch[0], oracle(batch[0])), batch[1..], oracle)
  }

  function DrainStep(s: State, batch: seq<Row>, oracle: Row -> Outcome): State {
    ItemsStep(s.(rows := Rearm(s.peers, s.rows)), batch, oracle)
  }

  // ---------- Health and administration ----------

  function DrainFailedRow(serverId: int, row: Row): Row {
    if row.letter.serverId == serverId && row.attempts >= row.maxAttempts then Rearmed(row) else row
  }

  function DrainFailed(serverId: int, rows: seq<Row>): seq<Row> {
    seq(|rows|, i requires 0 <= i < |rows| => DrainFailedRow(serverId, rows[i]))
  }

  /** pingOne: the new tables, and whether a drain is started. */
  function PingStep(s: State, id: int, o: Outcome): (State, bool) {
    if id !in s.peers then (s, false)
    else if Delivered(o) then
      if s.peers[id] != Unreachable then (s, false)
      else (s.(peers := s.peers[id := Active], rows := DrainFailed(id, s.rows)),
            exists r :: r in s.rows && r.letter.serverId == id)
    else if s.peers[id] == Active then (s.(peers := s.peers[id := Unreachable]), false)
    else (s, false)
  }

  function DeletePeerStep(s: State, id: int): State {
    s.(peers := s.peers - {id}, rows := Filter(s.rows, NotFor(id)),
       discarded := s.discarded + Letters(Filter(s.rows, Not(NotFor(id)))), deleted := s.deleted + {id})
  }

  /** interval: fast while a peer is unreachable or a row has failed at least once. */
  predicate PingsFast(s: State) {
    (exists id :: id in s.peers && s.peers[id] == Unreachable) || (exists r :: r in s.rows && r.attempts > 0)
  }

  // ---------- The tables as an object ----------

  class Outbox {
    var peers: map<int, Status>
    var rows: seq<Row>
    var nextId: int
    const transport: bool
    const queue: bool
    ghost var accepted: multiset<Letter>
    ghost var answered: multiset<Letter>
    ghost var discarded: multiset<Letter>
    ghost var ignored: multiset<Letter>
    ghost var deleted: set<int>

    ghost function View(): State
      reads this
    {
      State(peers, rows, nextId, transport, queue, accepted, answered, discarded, ignored, deleted)
    }

    constructor (transport: bool, queue: bool)
      ensures View() == Empty(transport, queue)
    {
      this.transport, this.queue := transport, queue;
      peers, rows, nextId := map[], [], 1;
      accepted, answered, discarded, ignored, deleted := multiset{}, multiset{}, multiset{}, multiset{}, {};
    }

    method SendOrQueue(req: Request, token: string, o: Outcome, stored: bool, now: int) returns (r: Result)
      modifies this
      ensures (View(), r) == SendOrQueueStep(old(View()), req, token, o, stored, now)
    {
      if !transport {
        if req.body.Encodable? {
          ghost var letter := LetterOf(req, Json(req.body.value));
          accepted, ignored := accepted + multiset{letter}, ignored + multiset{letter};
        }
        return Ok;
      }
      var got := Transmit(peers, req.serverId, req.body, o);
      var touched := Touched(peers, req, token);
      if got.Answered? && got.status < 500 {
        ghost var letter := LetterOf(touched, Json(req.body.value));
        accepted, answered := accepted + multiset{letter}, answered + multiset{letter};
        return Ok;
      }
      var reason := Reason(got);
      if !queue {
        return Error(reason);
      }
      var queued := Enqueue(touched, stored, now);
      if !queued {
        return Error(reason);
      }
      r := Ok;
    }

    method Enqueue(req: Request, stored: bool, now: int) returns (ok: bool)
      modifies this
      ensures ok == (stored && Marshal(req.body).Some?)
      ensures View() == if ok then Queued(old(View()), LetterOf(req, Marshal(req.body).value), now) else old(View())
    {
      match Marshal(req.body) {
        case None => ok := false;
        case Some(text) =>
          ok := stored;
          if ok {
            var letter := LetterOf(req, text);
            rows := rows + [Row(nextId, letter, 0, 0, MAX_ATTEMPTS, "", now)];
            nextId := nextId + 1;
            accepted := accepted + multiset{letter};
          }
      }
    }

    method RearmExhausted()
      modifies this`rows
      ensures rows == Rearm(peers, old(rows))
    {
      rows := Rearm(peers, rows);
    }

    /** The batch query. Among equal keys the database may choose any order. */
    method SelectBatch() returns (batch: seq<Row>)
      ensures FirstOf(Eligible(peers, rows), BATCH, batch)
    {
      var listed := AnyOrder(Eligible(peers, rows));
      TopIsFirst(listed, Eligible(peers, rows));
      batch := TopOf(listed);
    }

    method ProcessItem(item: Row, o: Outcome)
      modifies this
      ensures View() == ItemStep(old(View()), item, o)
    {
      match Unmarshal(item.letter.body) {
        case None =>
          rows := Filter(rows, OtherThan(item.id));
        case Some(v) =>
          var got := Transmit(peers, item.letter.serverId, Encodable(v), o);
          if got.Answered? && got.status < 500 {
            rows := Filter(rows, OtherThan(item.id));
            answered := answered + multiset{item.letter};
          } else {
            rows := Blame(rows, item.id, Reason(got));
          }
      }
    }

    method ProcessPending(oracle: Row -> Outcome) returns (batch: seq<Row>)
      modifies this
      ensures FirstOf(Eligible(old(peers), Rearm(old(peers), old(rows))), BATCH, batch)
      ensures View() == DrainStep(old(View()), batch, oracle)
    {
      RearmExhausted();
      batch := SelectBatch();
      ghost var all := ItemsStep(View(), batch, oracle);
      for i := 0 to |batch|
        invariant ItemsStep(View(), batch[i..], oracle) == all
      {
        assert batch[i..][0] == batch[i] && batch[i..][1..] == batch[i + 1..];
        ProcessItem(batch[i], oracle(batch[i]));
      }
    }

    method PingOne(id: int, o: Outcome) returns (drain: bool)
      modifies this
      ensures (View(), drain) == PingStep(old(View()), id, o)
    {
      drain := false;
      if id !in peers {
        return;
      }
      var wasUnreachable := peers[id] == Unreachable;
      if o.Answered? && o.status < 500 {
        if wasUnreachable {
          peers := peers[id := Active];
          drain := exists r :: r in rows && r.letter.serverId == id;
          rows := DrainFailed(id, rows);
        }
      } else if peers[id] == Active {
        peers := peers[id := Unreachable];
      }
    }
  }
}
