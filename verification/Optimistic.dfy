/**
 frontend/src/app/services/chat-thread.service.ts: claim, finalizeOptimistic and rollbackOptimistic,
 and what they keep together with the merge while a thread is open.
 */
module Optimistic {
  import opened Common
  import opened Thread

  /** The server's answer to a send; 0, [] and "" stand for fields it does not carry. */
  datatype Reply = Reply(id: int, images: seq<string>, stickerUrl: string)

  // ---------- Steps on values ----------

  /** An id of 0 is no id: such a frame is always accepted and leaves no trace. */
  function ClaimStep(seen: set<int>, id: int): (bool, set<int>) {
    if id == 0 then (true, seen) else if id in seen then (false, seen) else (true, seen + {id})
  }

  /** The index of the first message with this id, or the length. */
  function Find(ms: seq<Msg>, id: int): (i: nat)
    ensures i <= |ms|
    ensures i < |ms| ==> ms[i].id == id
    ensures forall k :: 0 <= k < i ==> ms[k].id != id
  {
    if ms == [] then 0 else if ms[0].id == id then 0 else 1 + Find(ms[1..], id)
  }

  function Confirmed(m: Msg, r: Option<Reply>): Msg {
    match r
    case None => m.(pending := false)
    case Some(r) =>
      m.(pending := false,
         id := if r.id != 0 then r.id else m.id,
         images := if r.images != [] then r.images else m.images,
         stickerUrl := if r.stickerUrl != "" then r.stickerUrl else m.stickerUrl)
  }

  function FinalizeStep(ms: seq<Msg>, seen: set<int>, temp: int, r: Option<Reply>): (seq<Msg>, set<int>, bool) {
    var i := Find(ms, temp);
    if i == |ms| then (ms, seen, false)
    else (ms[i := Confirmed(ms[i], r)],
          if r.Some? && r.value.id != 0 then seen - {temp} + {r.value.id} else seen,
          true)
  }

  function RollbackStep(ms: seq<Msg>, seen: set<int>, temp: int): (seq<Msg>, set<int>, bool) {
    var i := Find(ms, temp);
    if i == |ms| then (ms, seen, false) else (ms[..i] + ms[i + 1..], seen - {temp}, true)
  }

  // ---------- The methods ----------

  method Claim(seen: set<int>, id: int) returns (ok: bool, seen': set<int>)
    ensures (ok, seen') == ClaimStep(seen, id)
    ensures ok <==> id == 0 || id !in seen
  {
    if id == 0 {
      return true, seen;
    }
    if id in seen {
      return false, seen;
    }
    return true, seen + {id};
  }

  method FindMessage(ms: seq<Message>, id: int) returns (i: nat)
    ensures i == Find(Values(ms), id)
  {
    i := 0;
    ghost var vals := Values(ms);
    while i < |ms| && ms[i].id != id
      invariant 0 <= i <= |ms|
      invariant forall k :: 0 <= k < i ==> vals[k].id != id
    {
      i := i + 1;
    }
    FindIs(vals, id, i);
  }

  lemma {:induction false} FindIs(ms: seq<Msg>, id: int, i: nat)
    requires i <= |ms| && (forall k :: 0 <= k < i ==> ms[k].id != id) && (i < |ms| ==> ms[i].id == id)
    ensures Find(ms, id) == i
  {
    if i > 0 {
      FindIs(ms[1..], id, i - 1);
    }
  }

  /** The thread is a list of distinct objects; the one that is confirmed changes in place. */
  method FinalizeOptimistic(ms: seq<Message>, seen: set<int>, temp: int, server: Option<Reply>)
    returns (found: bool, seen': set<int>)
    requires NoDup(ms)
    modifies ms
    ensures (Values(ms), seen', found) == FinalizeStep(old(Values(ms)), seen, temp, server)
  {
    ghost var was := Values(ms);
    var i := FindMessage(ms, temp);
    if i == |ms| {
      return false, seen;
    }
    var msg := ms[i];
    found, seen' := true, seen;
    msg.pending := false;
    if server.Some? && server.value.id != 0 {
      seen' := seen' - {msg.id};
      msg.id := server.value.id;
      seen' := seen' + {server.value.id};
    }
    if server.Some? && server.value.images != [] {
      msg.images := server.value.images;
    }
    if server.Some? && server.value.stickerUrl != "" {
      msg.stickerUrl := server.value.stickerUrl;
    }
    assert Values(ms) == was[i := Confirmed(was[i], server)];
  }

  method RollbackOptimistic(ms: seq<Message>, seen: set<int>, temp: int)
    returns (removed: bool, ms': seq<Message>, seen': set<int>)
    ensures (Values(ms'), seen', removed) == RollbackStep(Values(ms), seen, temp)
  {
    var i := FindMessage(ms, temp);
    if i == |ms| {
      return false, ms, seen;
    }
    removed, seen' := true, seen - {temp};
    ms' := ms[..i] + ms[i + 1..];
    assert Values(ms') == Values(ms)[..i] + Values(ms)[i + 1..];
  }

  // ---------- An open thread over time ----------

  /** The thread, the index of claimed ids, and the ids on screen that the server has not assigned. */
  datatype State = State(ms: seq<Msg>, seen: set<int>, temps: set<int>)

  datatype Event =
    | Frame(m: Msg)
    | Anonymous(m: Msg)
    | Send(m: Msg)
    | Answer(temp: int, reply: Option<Reply>)
    | Reject(temp: int)
    | Fetch(batch: seq<Msg>)

  function IdSet(ms: seq<Msg>): set<int> {
    Elems(Ids(ms))
  }

  ghost predicate AtMostOnce(ms: seq<Msg>, id: int) {
    forall a, b :: 0 <= a < b < |ms| ==> !(ms[a].id == id && ms[b].id == id)
  }

  /**
   What the surroundings guarantee: a client-made id is not on screen yet and stands for one message,
   and neither a frame nor an answer carries another message's client-made id. An answer may well
   carry an id that a frame or a fetch has brought in before.
   */
  ghost predicate Enabled(s: State, e: Event) {
    match e
    case Frame(m) => m.id != 0 && m.id !in s.temps
    case Anonymous(m) => m.id !in IdSet(s.ms)
    case Send(m) => m.id !in IdSet(s.ms)
    case Answer(temp, reply) =>
      AtMostOnce(s.ms, temp) && (reply.Some? && reply.value.id != 0 ==> reply.value.id !in s.temps - {temp})
    case Reject(temp) => AtMostOnce(s.ms, temp)
    case Fetch(_) => true
  }

  function Apply(s: State, e: Event): State {
    match e
    case Frame(m) =>
      var (ok, seen) := ClaimStep(s.seen, m.id);
      if ok then State(s.ms + [m], seen, s.temps) else s
    case Anonymous(m) => State(s.ms + [m], ClaimStep(s.seen, 0).1, s.temps + {m.id})
    case Send(m) => State(s.ms + [m], s.seen, s.temps + {m.id})
    case Answer(temp, reply) =>
      var (ms, seen, found) := FinalizeStep(s.ms, s.seen, temp, reply);
      State(ms, seen, if found && reply.Some? && reply.value.id != 0 then s.temps - {temp} else s.temps)
    case Reject(temp) =>
      var (ms, seen, found) := RollbackStep(s.ms, s.seen, temp);
      State(ms, seen, if found then s.temps - {temp} else s.temps)
    case Fetch(batch) =>
      var (ms, added) := Merge(s.ms, batch);
      State(ms, s.seen + Elems(added), s.temps)
  }

  /** The index holds exactly the shown ids that the server assigned, and every other id is shown once. */
  ghost predicate Inv(s: State) {
    && s.temps <= IdSet(s.ms)
    && s.seen == IdSet(s.ms) - s.temps
    && forall id :: id in s.temps ==> AtMostOnce(s.ms, id)
  }

  /** Every id that is shown once stays so, except perhaps this one. */
  ghost predicate OnceStays(ms: seq<Msg>, after: seq<Msg>, but: int) {
    forall id :: id != but && AtMostOnce(ms, id) ==> AtMostOnce(after, id)
  }

  lemma DistinctIsOnce(ms: seq<Msg>)
    requires NoDup(Ids(ms))
    ensures forall id :: AtMostOnce(ms, id)
  {
    forall a, b | 0 <= a < b < |ms|
      ensures ms[a].id != ms[b].id
    {
      assert Ids(ms)[a] != Ids(ms)[b];
    }
  }

  lemma PushIds(ms: seq<Msg>, m: Msg)
    ensures Ids(ms + [m]) == Ids(ms) + [m.id] && IdSet(ms + [m]) == IdSet(ms) + {m.id}
    ensures m.id !in IdSet(ms) ==> (NoDup(Ids(ms + [m])) <==> NoDup(Ids(ms)))
    ensures OnceStays(ms, ms + [m], m.id)
    ensures m.id !in IdSet(ms) ==> AtMostOnce(ms + [m], m.id)
  {
    var ids := Ids(ms);
    assert Ids(ms + [m]) == ids + [m.id];
    if m.id !in IdSet(ms) {
      assert m.id !in ids;
      forall a | 0 <= a < |ms|
        ensures ms[a].id != m.id
      {
        assert ids[a] in ids;
      }
      assert forall a, b :: 0 <= a < b < |ids| ==> ids[a] == (ids + [m.id])[a] && ids[b] == (ids + [m.id])[b];
    }
  }

  lemma FindFirst(ms: seq<Msg>, id: int)
    ensures Find(ms, id) < |ms| <==> id in IdSet(ms)
  {
    var i := Find(ms, id);
    if i < |ms| {
      assert Ids(ms)[i] == id;
    }
    if id in IdSet(ms) {
      var k :| 0 <= k < |ms| && Ids(ms)[k] == id;
      assert ms[k].id == id;
    }
  }

  /** Giving message i, the only one with its id, another id. */
  lemma RenameIds(ms: seq<Msg>, i: nat, m: Msg)
    requires i < |ms| && AtMostOnce(ms, ms[i].id)
    ensures NoDup(Ids(ms[i := m])) <==> NoDup(Ids(ms)) && m.id !in IdSet(ms) - {ms[i].id}
    ensures IdSet(ms[i := m]) == IdSet(ms) - {ms[i].id} + {m.id}
    ensures OnceStays(ms, ms[i := m], m.id)
    ensures m.id !in IdSet(ms) - {ms[i].id} ==> AtMostOnce(ms[i := m], m.id)
  {
    RenamedSet(ms, i, m);
    RenamedDistinct(ms, i, m);
    if m.id !in IdSet(ms) - {ms[i].id} {
      forall a | 0 <= a < |ms| && a != i
        ensures ms[a].id != m.id
      {
        assert Ids(ms)[a] in IdSet(ms);
      }
    }
  }

  lemma RenamedSet(ms: seq<Msg>, i: nat, m: Msg)
    requires i < |ms| && AtMostOnce(ms, ms[i].id)
    ensures IdSet(ms[i := m]) == IdSet(ms) - {ms[i].id} + {m.id}
  {
    var ids, ids' := Ids(ms), Ids(ms[i := m]);
    assert ids' == ids[i := m.id];
    forall x
      ensures x in ids' <==> x in IdSet(ms) - {ms[i].id} + {m.id}
    {
      if x in ids' {
        var k :| 0 <= k < |ids'| && ids'[k] == x;
        assert k != i ==> ids[k] == x && ms[k].id != ms[i].id;
      }
      if x in IdSet(ms) - {ms[i].id} {
        var k :| 0 <= k < |ids| && ids[k] == x;
        assert ids'[k] == x;
      }
      if x == m.id {
        assert ids'[i] == x;
      }
    }
  }

  lemma RenamedDistinct(ms: seq<Msg>, i: nat, m: Msg)
    requires i < |ms| && AtMostOnce(ms, ms[i].id)
    ensures NoDup(Ids(ms[i := m])) <==> NoDup(Ids(ms)) && m.id !in IdSet(ms) - {ms[i].id}
  {
    var ids, ids' := Ids(ms), Ids(ms[i := m]);
    assert ids' == ids[i := m.id];
    if m.id in IdSet(ms) - {ms[i].id} {
      var k :| 0 <= k < |ids| && ids[k] == m.id;
      assert ids'[k] == ids'[i];
    } else if NoDup(ids) {
      forall a, b | 0 <= a < b < |ids'|
        ensures ids'[a] != ids'[b]
      {
        assert ids[a] != ids[b] && ids[a] in IdSet(ms) && ids[b] in IdSet(ms);
      }
    } else {
      var a, b :| 0 <= a < b < |ids| && ids[a] == ids[b];
      assert ms[a].id == ms[b].id;
      assert ids'[a] == ids[a] && ids'[b] == ids[b];
    }
  }

  /** Removing message i, the only one with its id. */
  lemma RemoveIds(ms: seq<Msg>, i: nat)
    requires i < |ms| && AtMostOnce(ms, ms[i].id)
    ensures NoDup(Ids(ms[..i] + ms[i + 1..])) <==> NoDup(Ids(ms))
    ensures IdSet(ms[..i] + ms[i + 1..]) == IdSet(ms) - {ms[i].id}
    ensures OnceStays(ms, ms[..i] + ms[i + 1..], ms[i].id)
  {
    RemovedSet(ms, i);
    RemovedDistinct(ms, i);
    RemovedOnce(ms, i);
  }

  lemma RemovedSet(ms: seq<Msg>, i: nat)
    requires i < |ms| && AtMostOnce(ms, ms[i].id)
    ensures IdSet(ms[..i] + ms[i + 1..]) == IdSet(ms) - {ms[i].id}
  {
    var ids, ids' := Ids(ms), Ids(ms[..i] + ms[i + 1..]);
    assert ids' == ids[..i] + ids[i + 1..];
    forall x
      ensures x in ids' <==> x in IdSet(ms) - {ms[i].id}
    {
      if x in IdSet(ms) - {ms[i].id} {
        var k :| 0 <= k < |ids| && ids[k] == x;
        assert k < i ==> ids'[k] == x;
        assert k > i ==> ids'[k - 1] == x;
      }
      if x in ids' {
        var k :| 0 <= k < |ids'| && ids'[k] == x;
        var j := if k < i then k else k + 1;
        assert ids[j] == x && ms[j].id != ms[i].id;
      }
    }
  }

  lemma RemovedDistinct(ms: seq<Msg>, i: nat)
    requires i < |ms| && AtMostOnce(ms, ms[i].id)
    ensures NoDup(Ids(ms[..i] + ms[i + 1..])) <==> NoDup(Ids(ms))
  {
    var ids, ids' := Ids(ms), Ids(ms[..i] + ms[i + 1..]);
    assert ids' == ids[..i] + ids[i + 1..];
    if !NoDup(ids) {
      var a, b :| 0 <= a < b < |ids| && ids[a] == ids[b];
      assert ms[a].id == ms[b].id;
      assert ids'[if a < i then a else a - 1] == ids'[if b < i then b else b - 1];
    }
  }

  lemma RemovedOnce(ms: seq<Msg>, i: nat)
    requires i < |ms|
    ensures OnceStays(ms, ms[..i] + ms[i + 1..], ms[i].id)
  {
    var after := ms[..i] + ms[i + 1..];
    forall id, a, b | AtMostOnce(ms, id) && 0 <= a < b < |after|
      ensures !(after[a].id == id && after[b].id == id)
    {
      assert after[a] == ms[if a < i then a else a + 1] && after[b] == ms[if b < i then b else b + 1];
    }
  }

  /**
   Confirming keeps the ids distinct exactly when no other message shows the server's id already: a
   fetch that brought the message in before the answer would leave it on screen twice.
   */
  lemma FinalizeKeepsIdsDistinct(ms: seq<Msg>, seen: set<int>, temp: int, reply: Reply)
    requires NoDup(Ids(ms)) && temp in IdSet(ms) && reply.id != 0
    ensures NoDup(Ids(FinalizeStep(ms, seen, temp, Some(reply)).0)) <==> reply.id !in IdSet(ms) - {temp}
  {
    FindFirst(ms, temp);
    DistinctIsOnce(ms);
    var i := Find(ms, temp);
    RenameIds(ms, i, Confirmed(ms[i], Some(reply)));
  }

  /** Confirming touches one message: it is no longer pending and takes what the server sent, its text stays. */
  lemma FinalizeTouchesOne(ms: seq<Msg>, seen: set<int>, temp: int, r: Option<Reply>)
    ensures FinalizeStep(ms, seen, temp, r).2 <==> temp in IdSet(ms)
    ensures temp !in IdSet(ms) ==> FinalizeStep(ms, seen, temp, r) == (ms, seen, false)
    ensures temp in IdSet(ms) ==>
              var i, after := Find(ms, temp), FinalizeStep(ms, seen, temp, r).0;
              && i < |ms| == |after|
              && (forall k :: 0 <= k < |ms| && k != i ==> after[k] == ms[k])
              && !after[i].pending && after[i].content == ms[i].content && after[i].createdAt == ms[i].createdAt
              && after[i].images == (if r.Some? && r.value.images != [] then r.value.images else ms[i].images)
              && after[i].stickerUrl == (if r.Some? && r.value.stickerUrl != "" then r.value.stickerUrl else ms[i].stickerUrl)
              && after[i].isRead == ms[i].isRead
              && after[i].id == (if r.Some? && r.value.id != 0 then r.value.id else temp)
  {
    FindFirst(ms, temp);
  }

  /** A rollback takes out the first message with that id, and nothing else; without one it does nothing. */
  lemma RollbackRemovesOne(ms: seq<Msg>, seen: set<int>, temp: int)
    ensures RollbackStep(ms, seen, temp).2 <==> temp in IdSet(ms)
    ensures temp !in IdSet(ms) ==> RollbackStep(ms, seen, temp) == (ms, seen, false)
    ensures temp in IdSet(ms) ==>
              var (after, left, _) := RollbackStep(ms, seen, temp);
              && left == seen - {temp}
              && exists i :: 0 <= i < |ms| && ms[i].id == temp && after == ms[..i] + ms[i + 1..] &&
                   forall k :: 0 <= k < i ==> ms[k].id != temp
  {
    FindFirst(ms, temp);
  }

  /** The answer's id is shown by another message already. */
  predicate Clashes(s: State, e: Event) {
    && e.Answer? && e.temp in IdSet(s.ms)
    && e.reply.Some? && e.reply.value.id != 0 && e.reply.value.id in IdSet(s.ms) - {e.temp}
  }

  /** Whether some id is shown twice afterwards: a clash brings that about, and a fetch repairs it. */
  predicate DoubledBy(was: bool, s: State, e: Event) {
    Clashes(s, e) || (was && !e.Fetch?)
  }

  ghost predicate Distinct(s: State) {
    NoDup(Ids(s.ms))
  }

  lemma AnswerKeeps(s: State, temp: int, reply: Option<Reply>)
    requires Inv(s) && Enabled(s, Answer(temp, reply))
    ensures var e := Answer(temp, reply); Inv(Apply(s, e)) && (Distinct(Apply(s, e)) <==> Distinct(s) && !Clashes(s, e))
  {
    FindFirst(s.ms, temp);
    var i := Find(s.ms, temp);
    if i < |s.ms| {
      var m := Confirmed(s.ms[i], reply);
      RenameIds(s.ms, i, m);
      RenamedOnce(s.ms, s.temps, i, m);
      if m.id == temp {
        assert IdSet(s.ms) - {temp} + {temp} == IdSet(s.ms);
      }
    }
  }

  lemma RenamedOnce(ms: seq<Msg>, temps: set<int>, i: nat, m: Msg)
    requires i < |ms| && (m.id in temps ==> m.id == ms[i].id)
    requires OnceStays(ms, ms[i := m], m.id)
    requires m.id !in IdSet(ms) - {ms[i].id} ==> AtMostOnce(ms[i := m], m.id)
    requires forall id :: id in temps ==> AtMostOnce(ms, id)
    ensures forall id :: id in temps ==> AtMostOnce(ms[i := m], id)
  {
  }

  lemma RejectKeeps(s: State, temp: int)
    requires Inv(s) && Enabled(s, Reject(temp))
    ensures Inv(Apply(s, Reject(temp))) && (Distinct(Apply(s, Reject(temp))) <==> Distinct(s))
  {
    FindFirst(s.ms, temp);
    var i := Find(s.ms, temp);
    if i < |s.ms| {
      RemoveIds(s.ms, i);
    }
  }

  lemma FetchKeeps(s: State, batch: seq<Msg>)
    requires Inv(s)
    ensures Inv(Apply(s, Fetch(batch))) && Distinct(Apply(s, Fetch(batch)))
    ensures IdSet(Apply(s, Fetch(batch)).ms) == IdSet(s.ms) + IdSet(batch)
  {
    MergedIds(s.ms, batch);
    DistinctIsOnce(Merge(s.ms, batch).0);
    SeenAfterFetch(IdSet(s.ms), IdSet(batch), s.temps);
  }

  lemma MergedIds(ms: seq<Msg>, batch: seq<Msg>)
    ensures NoDup(Ids(Merge(ms, batch).0))
    ensures IdSet(Merge(ms, batch).0) == IdSet(ms) + IdSet(batch)
    ensures Elems(Merge(ms, batch).1) == IdSet(batch) - IdSet(ms)
  {
    MergeKeepsEverything(ms, batch);
    MergeFacts(ms, batch);
    AddedIdsAreTheNewOnes(IdSet(ms), batch);
  }

  lemma SeenAfterFetch(shown: set<int>, fetched: set<int>, temps: set<int>)
    requires temps <= shown
    ensures (shown - temps) + (fetched - shown) == (shown + fetched) - temps
  {
  }

  lemma PushKeeps(s: State, m: Msg)
    requires Inv(s) && m.id !in IdSet(s.ms)
    ensures Inv(State(s.ms + [m], s.seen, s.temps + {m.id}))
    ensures Inv(State(s.ms + [m], s.seen + {m.id}, s.temps))
    ensures NoDup(Ids(s.ms + [m])) <==> NoDup(Ids(s.ms))
  {
    PushIds(s.ms, m);
    assert IdSet(s.ms + [m]) - (s.temps + {m.id}) == IdSet(s.ms) - s.temps;
    assert IdSet(s.ms + [m]) - s.temps == s.seen + {m.id};
  }

  /** What every event keeps, and which events double an id or undouble it. */
  lemma EventKeeps(s: State, e: Event)
    requires Inv(s) && Enabled(s, e)
    ensures Inv(Apply(s, e))
    ensures Distinct(Apply(s, e)) <==> !DoubledBy(!Distinct(s), s, e)
  {
    match e
    case Frame(m) =>
      if m.id !in s.seen {
        PushKeeps(s, m);
      }
    case Anonymous(m) => PushKeeps(s, m);
    case Send(m) => PushKeeps(s, m);
    case Answer(temp, reply) => AnswerKeeps(s, temp, reply);
    case Reject(temp) => RejectKeeps(s, temp);
    case Fetch(batch) => FetchKeeps(s, batch);
  }

  /** A frame is shown exactly when its message is not on screen; shown or not, afterwards it is. */
  lemma FrameShownOnce(s: State, m: Msg)
    requires Inv(s) && Enabled(s, Frame(m))
    ensures Apply(s, Frame(m)).ms == if m.id in IdSet(s.ms) then s.ms else s.ms + [m]
    ensures m.id in IdSet(Apply(s, Frame(m)).ms)
    ensures Apply(Apply(s, Frame(m)), Frame(m)) == Apply(s, Frame(m))
  {
    PushIds(s.ms, m);
  }

  ghost predicate CanRun(s: State, es: seq<Event>)
    decreases |es|
  {
    es == [] || (Enabled(s, es[0]) && CanRun(Apply(s, es[0]), es[1..]))
  }

  function After(s: State, es: seq<Event>): State
    decreases |es|
  {
    if es == [] then s else After(Apply(s, es[0]), es[1..])
  }

  /** Whether an answer has clashed since the last fetch. */
  predicate Doubled(was: bool, s: State, es: seq<Event>)
    decreases |es|
  {
    if es == [] then was else Doubled(DoubledBy(was, s, es[0]), Apply(s, es[0]), es[1..])
  }

  /**
   Over any sequence of frames, sends, answers, rejections and fetches, the index is exactly the set
   of shown ids that came from the server, and no id is shown twice exactly when since the last fetch
   no answer carried an id that another message showed already.
   */
  lemma {:induction false} IndexMatchesThread(s: State, es: seq<Event>)
    requires Inv(s) && CanRun(s, es)
    ensures var t := After(s, es);
            t.temps <= IdSet(t.ms) && t.seen == IdSet(t.ms) - t.temps
    ensures Distinct(After(s, es)) <==> !Doubled(!Distinct(s), s, es)
    decreases |es|
  {
    if es != [] {
      EventKeeps(s, es[0]);
      IndexMatchesThread(Apply(s, es[0]), es[1..]);
    }
  }

  /** A send, a fetch that brings the stored copy in, and then the answer to the send. */
  function LateAnswer(sent: Msg, copy: Msg): seq<Event> {
    [Send(sent), Fetch([copy]), Answer(sent.id, Some(Reply(copy.id, [], "")))]
  }

  /** From an empty thread, such a run ends with the message on screen twice. */
  lemma FetchBeforeAnswerDuplicates(sent: Msg, copy: Msg)
    requires sent.id != copy.id && copy.id != 0
    ensures var s, es := State([], {}, {}), LateAnswer(sent, copy);
            CanRun(s, es) && !Distinct(After(s, es)) && IdSet(After(s, es).ms) == {copy.id}
  {
    var s, es := State([], {}, {}), LateAnswer(sent, copy);
    var s1, last := Apply(s, es[0]), es[2];
    var s2 := Apply(s1, es[1]);
    SendThenFetch(sent, copy);
    AnswerKeeps(s2, sent.id, last.reply);
    AnswerRenames(s2, sent.id, copy.id);
    assert [last][1..] == [] && es[1..][1..] == [last] && es[1..][0] == es[1];
    assert CanRun(s2, [last]) && After(s2, [last]) == Apply(s2, last);
    assert CanRun(s1, es[1..]) && After(s1, es[1..]) == Apply(s2, last);
  }

  lemma SendThenFetch(sent: Msg, copy: Msg)
    requires sent.id != copy.id && copy.id != 0
    ensures var s1 := Apply(State([], {}, {}), Send(sent));
            var s2 := Apply(s1, Fetch([copy]));
            && Enabled(State([], {}, {}), Send(sent)) && Inv(s2) && s2.temps == {sent.id}
            && IdSet(s2.ms) == {sent.id, copy.id} && AtMostOnce(s2.ms, sent.id)
  {
    JustSent(sent);
    var s1 := State([sent], {}, {sent.id});
    FetchKeeps(s1, [copy]);
    OneId(copy);
    DistinctIsOnce(Apply(s1, Fetch([copy])).ms);
  }

  lemma OneId(m: Msg)
    ensures IdSet([m]) == {m.id}
  {
    assert Ids([m]) == [m.id];
  }

  lemma JustSent(sent: Msg)
    ensures Enabled(State([], {}, {}), Send(sent))
    ensures Apply(State([], {}, {}), Send(sent)) == State([sent], {}, {sent.id})
    ensures Inv(State([sent], {}, {sent.id})) && IdSet([sent]) == {sent.id}
  {
    OneId(sent);
    assert IdSet([]) == {} && [] + [sent] == [sent];
  }

  lemma AnswerRenames(s: State, temp: int, id: int)
    requires temp in IdSet(s.ms) && AtMostOnce(s.ms, temp) && id != 0
    ensures IdSet(Apply(s, Answer(temp, Some(Reply(id, [], "")))).ms) == IdSet(s.ms) - {temp} + {id}
  {
    FindFirst(s.ms, temp);
    RenamedSet(s.ms, Find(s.ms, temp), Confirmed(s.ms[Find(s.ms, temp)], Some(Reply(id, [], ""))));
  }
}
