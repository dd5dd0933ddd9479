/**
 frontend/src/app/services/chat-thread.service.ts, mergeMessages: fetched messages are merged into
 the open thread by id. The messages are objects, updated in place so that rendered bubbles survive.
 */
module Thread {
  import opened Common

  /** Shown for a message that this device cannot decrypt. */
  const UNDECRYPTED := "[Зашифрованное сообщение]"

  /** What a message object holds at one moment. Times are milliseconds. */
  datatype Msg = Msg(id: int, content: string, isRead: bool, createdAt: int, pending: bool,
                     images: seq<string>, stickerUrl: string)

  class Message {
    var id: int
    var content: string
    var isRead: bool
    const createdAt: int
    var pending: bool
    var images: seq<string>
    var stickerUrl: string

    function Value(): Msg
      reads this
    {
      Msg(id, content, isRead, createdAt, pending, images, stickerUrl)
    }

    constructor (m: Msg)
      ensures Value() == m
    {
      id, content, isRead, createdAt := m.id, m.content, m.isRead, m.createdAt;
      pending, images, stickerUrl := m.pending, m.images, m.stickerUrl;
    }
  }

  function Values(ms: seq<Message>): (r: seq<Msg>)
    reads ms
    ensures |r| == |ms| && forall i :: 0 <= i < |ms| ==> r[i] == ms[i].Value()
  {
    seq(|ms|, i requires 0 <= i < |ms| reads ms => ms[i].Value())
  }

  predicate IsText(content: string) {
    content != "" && content != UNDECRYPTED
  }

  // ---------- The merge on values ----------

  /** A JavaScript Map from id to message: insertion order, and what is stored under each id. */
  datatype Table = Table(order: seq<int>, byId: map<int, Msg>)

  function Put(t: Table, m: Msg): Table {
    Table(if m.id in t.byId then t.order else t.order + [m.id], t.byId[m.id := m])
  }

  function Load(ms: seq<Msg>): Table {
    if ms == [] then Table([], map[]) else Put(Load(ms[..|ms| - 1]), ms[|ms| - 1])
  }

  /** What a fetched copy changes in a message that is there already. */
  function Update(current: Msg, m: Msg): Msg {
    current.(isRead := m.isRead,
             content := if current.content == UNDECRYPTED && IsText(m.content) then m.content else current.content)
  }

  function Incorporate(t: Table, m: Msg): Table {
    if m.id in t.byId then t.(byId := t.byId[m.id := Update(t.byId[m.id], m)]) else Put(t, m)
  }

  function IncorporateAll(t: Table, ms: seq<Msg>): Table {
    if ms == [] then t else Incorporate(IncorporateAll(t, ms[..|ms| - 1]), ms[|ms| - 1])
  }

  /** The ids of a batch that are new, in order of arrival. */
  function NewIds(have: set<int>, ms: seq<Msg>): seq<int> {
    if ms == [] then []
    else
      var before, id := NewIds(have, ms[..|ms| - 1]), ms[|ms| - 1].id;
      if id in have || id in before then before else before + [id]
  }

  ghost predicate Proper(t: Table) {
    && NoDup(t.order) && Elems(t.order) == t.byId.Keys
    && forall id :: id in t.byId ==> t.byId[id].id == id
  }

  function Listed(t: Table): seq<Msg>
    requires forall i :: 0 <= i < |t.order| ==> t.order[i] in t.byId
  {
    seq(|t.order|, i requires 0 <= i < |t.order| => t.byId[t.order[i]])
  }

  function Stored(t: Table): set<Msg> {
    set id | id in t.byId :: t.byId[id]
  }

  function Earlier(): (Msg, Msg) -> bool {
    (a: Msg, b: Msg) => a.createdAt < b.createdAt
  }

  function Ids(ms: seq<Msg>): seq<int> {
    seq(|ms|, i requires 0 <= i < |ms| => ms[i].id)
  }

  function Merge(existing: seq<Msg>, incoming: seq<Msg>): (seq<Msg>, seq<int>) {
    ProperLoad(existing);
    ProperAll(Load(existing), incoming);
    (SortBy(Listed(IncorporateAll(Load(existing), incoming)), Earlier()), NewIds(Elems(Ids(existing)), incoming))
  }

  // ---------- The tables are well formed ----------

  lemma ProperPut(t: Table, m: Msg)
    requires Proper(t)
    ensures Proper(Put(t, m)) && Put(t, m).byId.Keys == t.byId.Keys + {m.id}
  {
    if m.id !in t.byId {
      assert Elems(t.order + [m.id]) == Elems(t.order) + {m.id};
      assert m.id !in Elems(t.order);
    }
  }

  lemma {:induction false} ProperLoad(ms: seq<Msg>)
    ensures Proper(Load(ms)) && Load(ms).byId.Keys == Elems(Ids(ms))
    ensures forall i :: 0 <= i < |Load(ms).order| ==> Load(ms).order[i] in Load(ms).byId
  {
    if ms != [] {
      var front, last := ms[..|ms| - 1], ms[|ms| - 1];
      ProperLoad(front);
      ProperPut(Load(front), last);
      assert Ids(ms) == Ids(front) + [last.id];
    }
    InOrder(Load(ms));
  }

  lemma InOrder(t: Table)
    requires Elems(t.order) == t.byId.Keys
    ensures forall i :: 0 <= i < |t.order| ==> t.order[i] in t.byId
  {
    forall i | 0 <= i < |t.order|
      ensures t.order[i] in t.byId
    {
      assert t.order[i] in Elems(t.order);
    }
  }

  lemma ProperIncorporate(t: Table, m: Msg)
    requires Proper(t)
    ensures Proper(Incorporate(t, m)) && Incorporate(t, m).byId.Keys == t.byId.Keys + {m.id}
  {
    if m.id !in t.byId {
      ProperPut(t, m);
    } else {
      KeysPut(t.byId, m.id, Update(t.byId[m.id], m));
    }
  }

  lemma {:induction false} ProperAll(t: Table, ms: seq<Msg>)
    requires Proper(t)
    ensures Proper(IncorporateAll(t, ms))
    ensures IncorporateAll(t, ms).byId.Keys == t.byId.Keys + Elems(Ids(ms))
    ensures forall i :: 0 <= i < |IncorporateAll(t, ms).order| ==>
              IncorporateAll(t, ms).order[i] in IncorporateAll(t, ms).byId
  {
    if ms != [] {
      var front, last := ms[..|ms| - 1], ms[|ms| - 1];
      ProperAll(t, front);
      ProperIncorporate(IncorporateAll(t, front), last);
      assert Ids(ms) == Ids(front) + [last.id];
      assert Elems(Ids(ms)) == Elems(Ids(front)) + {last.id};
    }
    InOrder(IncorporateAll(t, ms));
  }

  /** The new ids are appended to the order that was there. */
  lemma {:induction false} OrderGrows(t: Table, ms: seq<Msg>)
    requires Proper(t)
    ensures IncorporateAll(t, ms).order == t.order + NewIds(t.byId.Keys, ms)
  {
    if ms != [] {
      var front, last := ms[..|ms| - 1], ms[|ms| - 1];
      OrderGrows(t, front);
      ProperAll(t, front);
      var before := IncorporateAll(t, front);
      assert last.id in before.byId <==> last.id in Elems(before.order);
    }
  }

  // ---------- What becomes of one message ----------

  /** The read flag of the last copy in the batch. */
  function LastRead(ms: seq<Msg>, id: int, otherwise: bool): bool {
    if ms == [] then otherwise
    else if ms[|ms| - 1].id == id then ms[|ms| - 1].isRead
    else LastRead(ms[..|ms| - 1], id, otherwise)
  }

  /** The first real text that the batch has for an id. */
  function FirstText(ms: seq<Msg>, id: int): Option<string> {
    if ms == [] then None
    else
      var earlier := FirstText(ms[..|ms| - 1], id);
      if earlier.Some? then earlier
      else if ms[|ms| - 1].id == id && IsText(ms[|ms| - 1].content) then Some(ms[|ms| - 1].content)
      else None
  }

  function FirstCopy(ms: seq<Msg>, id: int): Option<Msg> {
    if ms == [] then None
    else
      var earlier := FirstCopy(ms[..|ms| - 1], id);
      if earlier.Some? then earlier else if ms[|ms| - 1].id == id then Some(ms[|ms| - 1]) else None
  }

  /** A message after a batch: the last read flag, and real text in place of a placeholder only. */
  function Refreshed(m: Msg, ms: seq<Msg>): Msg {
    m.(isRead := LastRead(ms, m.id, m.isRead),
       content := if m.content == UNDECRYPTED && FirstText(ms, m.id).Some? then FirstText(ms, m.id).value else m.content)
  }

  lemma {:induction false} FirstTextIsText(ms: seq<Msg>, id: int)
    ensures FirstText(ms, id).Some? ==> IsText(FirstText(ms, id).value)
    ensures FirstText(ms, id).Some? <==> exists i :: 0 <= i < |ms| && ms[i].id == id && IsText(ms[i].content)
  {
    if ms != [] {
      var front := ms[..|ms| - 1];
      FirstTextIsText(front, id);
      if FirstText(front, id).Some? {
        var i :| 0 <= i < |front| && front[i].id == id && IsText(front[i].content);
        assert ms[i].id == id && IsText(ms[i].content);
      }
    }
  }

  /**
   The fate of every id: a message of the thread, or else the first copy fetched, is refreshed by the
   whole batch. So real text is never replaced, and a placeholder is replaced exactly when real text
   for that id arrives.
   */
  lemma {:induction false} FateOfEachId(t: Table, ms: seq<Msg>, id: int)
    requires Proper(t)
    ensures id in t.byId ==>
              (id in IncorporateAll(t, ms).byId && IncorporateAll(t, ms).byId[id] == Refreshed(t.byId[id], ms))
    ensures id !in t.byId && FirstCopy(ms, id).Some? ==>
              (id in IncorporateAll(t, ms).byId &&
               IncorporateAll(t, ms).byId[id] == Refreshed(FirstCopy(ms, id).value, ms))
    ensures id !in t.byId && FirstCopy(ms, id).None? ==> id !in IncorporateAll(t, ms).byId
    ensures FirstCopy(ms, id).Some? ==> FirstCopy(ms, id).value.id == id
  {
    if ms != [] {
      var front := ms[..|ms| - 1];
      FateOfEachId(t, front, id);
      FirstTextIsText(front, id);
      if id !in t.byId && FirstCopy(front, id).None? {
        NothingBeforeFirst(front, id);
      }
    }
  }

  lemma {:induction false} NothingBeforeFirst(ms: seq<Msg>, id: int)
    requires FirstCopy(ms, id).None?
    ensures FirstText(ms, id).None? && forall b :: LastRead(ms, id, b) == b
  {
    if ms != [] {
      NothingBeforeFirst(ms[..|ms| - 1], id);
    }
  }

  lemma {:induction false} LastReadTwice(ms: seq<Msg>, id: int, b: bool)
    ensures LastRead(ms, id, LastRead(ms, id, b)) == LastRead(ms, id, b)
  {
    if ms != [] && ms[|ms| - 1].id != id {
      LastReadTwice(ms[..|ms| - 1], id, b);
    }
  }

  /** Refreshing by the same batch a second time changes nothing. */
  lemma RefreshTwice(m: Msg, ms: seq<Msg>)
    ensures Refreshed(Refreshed(m, ms), ms) == Refreshed(m, ms)
  {
    LastReadTwice(ms, m.id, m.isRead);
    FirstTextIsText(ms, m.id);
  }

  // ---------- The merged thread ----------

  lemma MergeFacts(existing: seq<Msg>, incoming: seq<Msg>)
    ensures var t := IncorporateAll(Load(existing), incoming);
            && Proper(t) && t.byId.Keys == Elems(Ids(existing)) + Elems(Ids(incoming))
            && (forall i :: 0 <= i < |t.order| ==> t.order[i] in t.byId)
            && t.order == Load(existing).order + NewIds(Elems(Ids(existing)), incoming)
            && Merge(existing, incoming) == (SortBy(Listed(t), Earlier()), NewIds(Elems(Ids(existing)), incoming))
  {
    ProperLoad(existing);
    ProperAll(Load(existing), incoming);
    OrderGrows(Load(existing), incoming);
  }

  lemma ListedLists(t: Table)
    requires Proper(t)
    ensures forall i :: 0 <= i < |t.order| ==> t.order[i] in t.byId
    ensures Lists(Listed(t), Stored(t))
  {
    InOrder(t);
    var l := Listed(t);
    forall i, j | 0 <= i < j < |l|
      ensures l[i] != l[j]
    {
      assert l[i].id == t.order[i] && l[j].id == t.order[j];
    }
    forall m | m in l
      ensures m in Stored(t)
    {
      var i :| 0 <= i < |l| && l[i] == m;
      var id := t.order[i];
      assert id in t.byId && m == t.byId[id];
      assert m.id == id && t.byId[m.id] == m;
      InStored(t, m);
    }
    forall m | m in Stored(t)
      ensures m in l
    {
      InStored(t, m);
      assert m.id in Elems(t.order);
      var i :| 0 <= i < |t.order| && t.order[i] == m.id;
      assert l[i] == m;
    }
    assert Elems(l) == Stored(t);
  }

  lemma InStored(t: Table, m: Msg)
    requires Proper(t)
    ensures m in Stored(t) <==> m.id in t.byId && t.byId[m.id] == m
  {
  }

  /** The merged ids are exactly the union, and each appears once. */
  lemma MergeKeepsEverything(existing: seq<Msg>, incoming: seq<Msg>)
    ensures var ms := Merge(existing, incoming).0;
            && Elems(Ids(ms)) == Elems(Ids(existing)) + Elems(Ids(incoming))
            && NoDup(Ids(ms))
  {
    MergeFacts(existing, incoming);
    var t := IncorporateAll(Load(existing), incoming);
    var ms := Merge(existing, incoming).0;
    ListedLists(t);
    SortByLists(Listed(t), Stored(t), Earlier());
    SameElems(ms, t);
    forall i, j | 0 <= i < j < |ms|
      ensures ms[i].id != ms[j].id
    {
      assert ms[i] in ms && ms[j] in ms && ms[i] != ms[j];
    }
  }

  lemma SameElems(ms: seq<Msg>, t: Table)
    requires Proper(t) && Elems(ms) == Stored(t)
    ensures forall m :: m in ms <==> m.id in t.byId && m == t.byId[m.id]
    ensures Elems(Ids(ms)) == t.byId.Keys
  {
    forall m
      ensures m in ms <==> m.id in t.byId && m == t.byId[m.id]
    {
      assert m in ms <==> m in Elems(ms);
    }
    forall id
      ensures id in Ids(ms) <==> id in t.byId
    {
      if id in t.byId {
        assert t.byId[id] in ms;
        var i :| 0 <= i < |ms| && ms[i] == t.byId[id];
        assert Ids(ms)[i] == id;
      }
      if id in Ids(ms) {
        var i :| 0 <= i < |ms| && Ids(ms)[i] == id;
        assert ms[i] in ms;
      }
    }
  }

  /** The merged thread is sorted by time, and messages of the same moment keep the order they had. */
  lemma MergeIsSortedAndStable(existing: seq<Msg>, incoming: seq<Msg>, m: Msg)
    ensures Sorted(Merge(existing, incoming).0, Earlier())
    ensures var ms := Merge(existing, incoming).0;
            forall i, j :: 0 <= i < j < |ms| ==> ms[i].createdAt <= ms[j].createdAt
    ensures var t := IncorporateAll(Load(existing), incoming);
            && (forall i :: 0 <= i < |t.order| ==> t.order[i] in t.byId)
            && t.order == Load(existing).order + Merge(existing, incoming).1
            && Filter(Merge(existing, incoming).0, LevelWith(m, Earlier())) == Filter(Listed(t), LevelWith(m, Earlier()))
  {
    MergeFacts(existing, incoming);
    var t := IncorporateAll(Load(existing), incoming);
    SortBySorts(Listed(t), Earlier());
    SortByStable(Listed(t), Earlier(), m);
    SortedByTime(Merge(existing, incoming).0);
  }

  lemma SortedByTime(ms: seq<Msg>)
    requires Sorted(ms, Earlier())
    ensures forall i, j :: 0 <= i < j < |ms| ==> ms[i].createdAt <= ms[j].createdAt
  {
    forall i, j | 0 <= i < j < |ms|
      ensures ms[i].createdAt <= ms[j].createdAt
    {
      assert !Earlier()(ms[j], ms[i]);
    }
  }

  /** Level messages are those of one moment. */
  lemma LevelIsSameMoment(a: Msg, b: Msg)
    ensures LevelWith(a, Earlier())(b) <==> a.createdAt == b.createdAt
  {
  }

  // ---------- The same in plain words ----------

  ghost predicate IsRealText(content: string) {
    content != "" && content != "[Зашифрованное сообщение]"
  }

  /** Copy i is the first with real text for this id. */
  ghost predicate FirstReal(incoming: seq<Msg>, id: int, i: nat) {
    && i < |incoming| && incoming[i].id == id && IsRealText(incoming[i].content)
    && forall j :: 0 <= j < i ==> !(incoming[j].id == id && IsRealText(incoming[j].content))
  }

  ghost predicate LastCopy(incoming: seq<Msg>, id: int, i: nat) {
    && i < |incoming| && incoming[i].id == id
    && forall j :: i < j < |incoming| ==> incoming[j].id != id
  }

  /**
   What becomes of a message: real text stays; a placeholder takes the first real text fetched for it;
   the read flag is the one fetched last; everything else stays.
   */
  ghost predicate Becomes(m: Msg, incoming: seq<Msg>, after: Msg) {
    && after == m.(content := after.content, isRead := after.isRead)
    && (m.content != "[Зашифрованное сообщение]" ==> after.content == m.content)
    && (forall i: nat :: FirstReal(incoming, m.id, i) && m.content == "[Зашифрованное сообщение]" ==>
          after.content == incoming[i].content)
    && ((forall i :: 0 <= i < |incoming| && incoming[i].id == m.id ==> !IsRealText(incoming[i].content)) ==>
          after.content == m.content)
    && (forall i: nat :: LastCopy(incoming, m.id, i) ==> after.isRead == incoming[i].isRead)
    && ((forall i :: 0 <= i < |incoming| ==> incoming[i].id != m.id) ==> after.isRead == m.isRead)
  }

  lemma {:induction false} FirstTextIsFirst(ms: seq<Msg>, id: int, i: nat)
    requires FirstReal(ms, id, i)
    ensures FirstText(ms, id) == Some(ms[i].content)
  {
    var front := ms[..|ms| - 1];
    FirstTextIsText(front, id);
    if i < |front| {
      FirstTextIsFirst(front, id, i);
    }
  }

  lemma {:induction false} LastReadIsLast(ms: seq<Msg>, id: int, b: bool, i: nat)
    requires LastCopy(ms, id, i)
    ensures LastRead(ms, id, b) == ms[i].isRead
  {
    if i < |ms| - 1 {
      assert ms[|ms| - 1].id != id;
      LastReadIsLast(ms[..|ms| - 1], id, b, i);
    }
  }

  lemma {:induction false} LastReadOfNone(ms: seq<Msg>, id: int, b: bool)
    requires forall i :: 0 <= i < |ms| ==> ms[i].id != id
    ensures LastRead(ms, id, b) == b
  {
    if ms != [] {
      LastReadOfNone(ms[..|ms| - 1], id, b);
    }
  }

  lemma RefreshedBecomes(m: Msg, incoming: seq<Msg>)
    ensures Becomes(m, incoming, Refreshed(m, incoming))
  {
    FirstTextIsText(incoming, m.id);
    forall i: nat | FirstReal(incoming, m.id, i)
      ensures FirstText(incoming, m.id) == Some(incoming[i].content)
    {
      FirstTextIsFirst(incoming, m.id, i);
    }
    forall i: nat | LastCopy(incoming, m.id, i)
      ensures LastRead(incoming, m.id, m.isRead) == incoming[i].isRead
    {
      LastReadIsLast(incoming, m.id, m.isRead, i);
    }
    if forall i :: 0 <= i < |incoming| ==> incoming[i].id != m.id {
      LastReadOfNone(incoming, m.id, m.isRead);
    }
  }

  /** Every message of the thread is in the merge, as what it becomes; and no other message has its id. */
  lemma WhatBecomesOfTheThread(existing: seq<Msg>, incoming: seq<Msg>, k: nat)
    requires NoDup(Ids(existing)) && k < |existing|
    ensures exists after :: after in Merge(existing, incoming).0 && Becomes(existing[k], incoming, after)
    ensures NoDup(Ids(Merge(existing, incoming).0))
  {
    ProperLoad(existing);
    LoadDistinct(existing);
    FateOfEachId(Load(existing), incoming, existing[k].id);
    MergedAre(existing, incoming);
    MergeKeepsEverything(existing, incoming);
    RefreshedBecomes(existing[k], incoming);
    assert Refreshed(existing[k], incoming) in Merge(existing, incoming).0;
  }

  /** So is the first fetched copy of every message that the thread did not have. */
  lemma WhatBecomesOfANewOne(existing: seq<Msg>, incoming: seq<Msg>, k: nat)
    requires k < |incoming| && incoming[k].id !in Ids(existing)
    requires forall j :: 0 <= j < k ==> incoming[j].id != incoming[k].id
    ensures exists after :: after in Merge(existing, incoming).0 && Becomes(incoming[k], incoming, after)
  {
    ProperLoad(existing);
    FirstCopyIsFirst(incoming, k);
    FateOfEachId(Load(existing), incoming, incoming[k].id);
    MergedAre(existing, incoming);
    RefreshedBecomes(incoming[k], incoming);
    assert incoming[k].id !in Elems(Ids(existing));
    assert Refreshed(incoming[k], incoming) in Merge(existing, incoming).0;
  }

  lemma {:induction false} FirstCopyIsFirst(ms: seq<Msg>, k: nat)
    requires k < |ms| && forall j :: 0 <= j < k ==> ms[j].id != ms[k].id
    ensures FirstCopy(ms, ms[k].id) == Some(ms[k])
  {
    var front := ms[..|ms| - 1];
    if k < |front| {
      FirstCopyIsFirst(front, k);
    } else {
      NoCopy(front, ms[k].id);
    }
  }

  lemma {:induction false} NoCopy(ms: seq<Msg>, id: int)
    requires forall j :: 0 <= j < |ms| ==> ms[j].id != id
    ensures FirstCopy(ms, id) == None
  {
    if ms != [] {
      NoCopy(ms[..|ms| - 1], id);
    }
  }

  // ---------- A second merge ----------

  /** addedIds are exactly the ids that were not there, each once, and in order of first arrival. */
  lemma {:induction false} AddedIdsAreTheNewOnes(have: set<int>, ms: seq<Msg>)
    ensures NoDup(NewIds(have, ms)) && Elems(NewIds(have, ms)) == Elems(Ids(ms)) - have
    ensures forall i, j :: 0 <= i < j < |NewIds(have, ms)| ==>
              FirstIndex(ms, NewIds(have, ms)[i]) < FirstIndex(ms, NewIds(have, ms)[j]) < |ms|
  {
    if ms != [] {
      var front, last := ms[..|ms| - 1], ms[|ms| - 1];
      AddedIdsAreTheNewOnes(have, front);
      assert Ids(ms) == Ids(front) + [last.id];
      assert Elems(Ids(ms)) == Elems(Ids(front)) + {last.id};
      var before := NewIds(have, front);
      forall x | x in before
        ensures FirstIndex(ms, x) == FirstIndex(front, x) < |front|
      {
        assert x in Elems(before);
        FirstIndexFront(ms, x);
      }
      if last.id !in have && last.id !in before {
        assert last.id !in Elems(before);
        FirstIndexFront(ms, last.id);
        assert Elems(before + [last.id]) == Elems(before) + {last.id};
      }
    }
  }

  function FirstIndex(ms: seq<Msg>, id: int): nat {
    if ms == [] then 0 else if ms[0].id == id then 0 else 1 + FirstIndex(ms[1..], id)
  }

  lemma {:induction false} FirstIndexFront(ms: seq<Msg>, id: int)
    requires ms != []
    ensures id in Elems(Ids(ms[..|ms| - 1])) ==> FirstIndex(ms, id) == FirstIndex(ms[..|ms| - 1], id) < |ms| - 1
    ensures id !in Elems(Ids(ms[..|ms| - 1])) && ms[|ms| - 1].id == id ==> FirstIndex(ms, id) == |ms| - 1
  {
    var front := ms[..|ms| - 1];
    if front != [] {
      var rest := ms[1..];
      assert rest[..|rest| - 1] == front[1..];
      FirstIndexFront(rest, id);
      assert Ids(front) == [front[0].id] + Ids(front[1..]);
      assert id in Ids(front) <==> id == front[0].id || id in Ids(front[1..]);
    }
  }

  /** A thread that is in order and has each id once loads as it stands. */
  lemma {:induction false} LoadDistinct(ms: seq<Msg>)
    requires NoDup(Ids(ms))
    ensures Load(ms).order == Ids(ms)
    ensures forall i :: 0 <= i < |ms| ==> ms[i].id in Load(ms).byId && Load(ms).byId[ms[i].id] == ms[i]
  {
    if ms != [] {
      var front, last := ms[..|ms| - 1], ms[|ms| - 1];
      assert Ids(ms) == Ids(front) + [last.id] && Ids(front) == Ids(ms)[..|ms| - 1];
      LoadDistinct(front);
      ProperLoad(front);
      forall i | 0 <= i < |front|
        ensures Ids(front)[i] != last.id
      {
        assert Ids(ms)[i] != Ids(ms)[|front|];
      }
      forall i | 0 <= i < |ms|
        ensures ms[i].id in Load(ms).byId && Load(ms).byId[ms[i].id] == ms[i]
      {
        if i < |front| {
          assert ms[i] == front[i] && Ids(ms)[i] != Ids(ms)[|front|];
        }
      }
    }
  }

  /** What the thread holds under an id after a merge is not changed by the same batch. */
  lemma RefreshedAlready(existing: seq<Msg>, incoming: seq<Msg>, m: Msg)
    requires var t := IncorporateAll(Load(existing), incoming); m.id in t.byId && t.byId[m.id] == m
    ensures Refreshed(m, incoming) == m
  {
    ProperLoad(existing);
    FateOfEachId(Load(existing), incoming, m.id);
    RefreshTwice(if m.id in Load(existing).byId then Load(existing).byId[m.id]
                 else FirstCopy(incoming, m.id).value, incoming);
  }

  lemma NothingToAdd(have: set<int>, ms: seq<Msg>)
    requires Elems(Ids(ms)) <= have
    ensures NewIds(have, ms) == []
  {
    AddedIdsAreTheNewOnes(have, ms);
    if NewIds(have, ms) != [] {
      ElemsNonEmpty(NewIds(have, ms));
    }
  }

  /** The messages of a merge, as the table they were listed from. */
  lemma MergedAre(existing: seq<Msg>, incoming: seq<Msg>)
    ensures var t, ms := IncorporateAll(Load(existing), incoming), Merge(existing, incoming).0;
            && Proper(t) && Elems(Ids(ms)) == t.byId.Keys
            && (forall m :: m in ms <==> m.id in t.byId && m == t.byId[m.id])
  {
    MergeFacts(existing, incoming);
    var t := IncorporateAll(Load(existing), incoming);
    ListedLists(t);
    SortByLists(Listed(t), Stored(t), Earlier());
    SameElems(Merge(existing, incoming).0, t);
  }

  /** What a second incorporation of the batch stores, in the order of the thread. */
  lemma SameListed(existing: seq<Msg>, incoming: seq<Msg>)
    ensures var ms := Merge(existing, incoming).0;
            var u := IncorporateAll(Load(ms), incoming);
            u.order == Ids(ms) && Proper(u) && Listed(u) == ms
  {
    var ms := Merge(existing, incoming).0;
    SameOrder(existing, incoming);
    MergedAre(existing, incoming);
    var u := IncorporateAll(Load(ms), incoming);
    forall i | 0 <= i < |ms|
      ensures Listed(u)[i] == ms[i]
    {
      assert ms[i] in ms && u.order[i] == ms[i].id;
      ProperLoad(ms);
      FateOfEachId(Load(ms), incoming, ms[i].id);
      RefreshedAlready(existing, incoming, ms[i]);
    }
  }

  lemma SameOrder(existing: seq<Msg>, incoming: seq<Msg>)
    ensures var ms := Merge(existing, incoming).0;
            var u := IncorporateAll(Load(ms), incoming);
            && u.order == Ids(ms) && Proper(u) && Merge(ms, incoming) == (SortBy(Listed(u), Earlier()), [])
            && (forall i :: 0 <= i < |ms| ==> ms[i].id in Load(ms).byId && Load(ms).byId[ms[i].id] == ms[i])
  {
    var ms := Merge(existing, incoming).0;
    MergeKeepsEverything(existing, incoming);
    LoadDistinct(ms);
    NothingToAdd(Elems(Ids(ms)), incoming);
    MergeFacts(ms, incoming);
  }

  /** Merging the same batch again changes nothing and adds nothing. */
  lemma MergeIsIdempotent(existing: seq<Msg>, incoming: seq<Msg>)
    ensures var ms := Merge(existing, incoming).0; Merge(ms, incoming) == (ms, [])
  {
    SameOrder(existing, incoming);
    SameListed(existing, incoming);
    MergeIsSortedAndStable(existing, incoming, Msg(0, "", false, 0, false, [], ""));
    SortBySorted(Merge(existing, incoming).0, Earlier());
  }

  lemma ElemsNonEmpty(s: seq<int>)
    requires s != []
    ensures Elems(s) != {}
  {
    assert s[0] in Elems(s);
  }

  // ---------- The merge on objects ----------

  function Objects(byId: map<int, Message>): set<Message> {
    set id | id in byId :: byId[id]
  }

  lemma InObjects(byId: map<int, Message>, id: int)
    requires id in byId
    ensures byId[id] in Objects(byId)
  {
  }

  ghost predicate Rep(order: seq<int>, byId: map<int, Message>, t: Table)
    reads Objects(byId)
  {
    && order == t.order && byId.Keys == t.byId.Keys
    && forall id :: id in byId ==> byId[id].id == id && byId[id].Value() == t.byId[id]
  }

  function EarlierObject(): (Message, Message) -> bool {
    (a: Message, b: Message) => a.createdAt < b.createdAt
  }

  lemma ValuesSnoc(ms: seq<Message>, m: Message)
    ensures Values(ms + [m]) == Values(ms) + [m.Value()]
  {
  }

  /** Sorting the objects sorts their values. */
  lemma {:induction false} SortObjects(ms: seq<Message>)
    ensures Values(SortBy(ms, EarlierObject())) == SortBy(Values(ms), Earlier())
    ensures multiset(SortBy(ms, EarlierObject())) == multiset(ms)
  {
    if ms != [] {
      var front, last := ms[..|ms| - 1], ms[|ms| - 1];
      assert ms == front + [last];
      ValuesSnoc(front, last);
      assert Values(ms)[..|ms| - 1] == Values(front);
      SortObjects(front);
      InsertObject(SortBy(front, EarlierObject()), last);
    }
  }

  lemma {:induction false} InsertObject(ms: seq<Message>, m: Message)
    ensures Values(InsertBy(ms, m, EarlierObject())) == InsertBy(Values(ms), m.Value(), Earlier())
    ensures multiset(InsertBy(ms, m, EarlierObject())) == multiset(ms) + multiset{m}
  {
    if ms == [] {
      ValuesSnoc([], m);
    } else {
      var front, last := ms[..|ms| - 1], ms[|ms| - 1];
      assert ms == front + [last];
      ValuesSnoc(front, last);
      assert Values(ms)[..|ms| - 1] == Values(front);
      if m.createdAt < last.createdAt {
        InsertObject(front, m);
        ValuesSnoc(InsertBy(front, m, EarlierObject()), last);
      } else {
        ValuesSnoc(ms, m);
      }
    }
  }

  /** One fetched message: the object in the thread, which it may itself be, is refreshed, or it joins. */
  method MergeOne(order: seq<int>, byId: map<int, Message>, msg: Message, ghost t: Table)
    returns (order': seq<int>, byId': map<int, Message>, added: bool)
    requires Rep(order, byId, t)
    modifies Objects(byId)
    ensures Rep(order', byId', Incorporate(t, old(msg.Value())))
    ensures added <==> old(msg.id) !in byId
    ensures byId' == if added then byId[old(msg.id) := msg] else byId
  {
    order', byId', added := order, byId, msg.id !in byId;
    if added {
      byId' := byId[msg.id := msg];
      order' := order + [msg.id];
    } else {
      var current := byId[msg.id];
      InObjects(byId, msg.id);
      current.isRead := msg.isRead;
      if current.content == UNDECRYPTED && msg.content != "" && msg.content != UNDECRYPTED {
        current.content := msg.content;
      }
    }
  }

  method LoadObjects(existing: seq<Message>) returns (order: seq<int>, byId: map<int, Message>)
    ensures Rep(order, byId, Load(Values(existing)))
    ensures forall id :: id in byId ==> byId[id] in existing
    ensures forall m :: m in existing ==> m.id in byId
  {
    order, byId := [], map[];
    ghost var vals := Values(existing);
    for i := 0 to |existing|
      invariant Rep(order, byId, Load(vals[..i]))
      invariant forall id :: id in byId ==> byId[id] in existing
      invariant forall k :: 0 <= k < i ==> existing[k].id in byId
    {
      var m := existing[i];
      assert vals[..i + 1][..i] == vals[..i] && vals[i] == m.Value();
      if m.id !in byId {
        order := order + [m.id];
      }
      byId := byId[m.id := m];
    }
    assert vals[..|existing|] == vals;
  }

  /** The objects stored under the ids of `base`, and the first `n` fetched ones. */
  ghost predicate DrawnFrom(byId: map<int, Message>, base: map<int, Message>, incoming: seq<Message>, n: nat)
    requires n <= |incoming|
  {
    && (forall id :: id in base ==> id in byId && byId[id] == base[id])
    && (forall id :: id in byId && id !in base ==> byId[id] in incoming[..n])
  }

  /** Objects that a parsed response consists of: all different, and none of them in the thread yet. */
  ghost predicate Fetched(base: map<int, Message>, incoming: seq<Message>) {
    NoDup(incoming) && forall i :: 0 <= i < |incoming| ==> incoming[i] !in Objects(base)
  }

  lemma NotDrawnYet(byId: map<int, Message>, base: map<int, Message>, incoming: seq<Message>, n: nat)
    requires n <= |incoming| && DrawnFrom(byId, base, incoming, n) && Fetched(base, incoming)
    ensures forall k :: n <= k < |incoming| ==> incoming[k] !in Objects(byId)
    ensures Objects(byId) <= Objects(base) + Elems(incoming)
  {
    forall m | m in Objects(byId)
      ensures m in Objects(base) || m in incoming[..n]
    {
      var id :| id in byId && byId[id] == m;
    }
    forall k | n <= k < |incoming|
      ensures incoming[k] !in Objects(byId)
    {
      assert incoming[k] !in incoming[..n];
    }
  }

  /** The state of the loop over the fetched messages before message i; `vals` is what they held. */
  ghost predicate Progress(order: seq<int>, byId: map<int, Message>, addedIds: seq<int>, byId0: map<int, Message>,
                           incoming: seq<Message>, t: Table, vals: seq<Msg>, i: nat)
    requires i <= |incoming| == |vals|
    reads Objects(byId), incoming
  {
    && Rep(order, byId, IncorporateAll(t, vals[..i]))
    && addedIds == NewIds(t.byId.Keys, vals[..i])
    && DrawnFrom(byId, byId0, incoming, i)
    && forall k :: i <= k < |incoming| ==> incoming[k].Value() == vals[k]
  }

  method MergeNext(order: seq<int>, byId: map<int, Message>, addedIds: seq<int>, ghost byId0: map<int, Message>,
                   incoming: seq<Message>, ghost t: Table, ghost vals: seq<Msg>, i: nat)
    returns (order': seq<int>, byId': map<int, Message>, addedIds': seq<int>)
    requires i < |incoming| == |vals| && Proper(t) && Fetched(byId0, incoming)
    requires Progress(order, byId, addedIds, byId0, incoming, t, vals, i)
    modifies Objects(byId)
    ensures Progress(order', byId', addedIds', byId0, incoming, t, vals, i + 1)
  {
    NotDrawnYet(byId, byId0, incoming, i);
    AddedStep(t, vals, i, addedIds);
    var id := incoming[i].id;
    var added: bool;
    order', byId', added := MergeOne(order, byId, incoming[i], IncorporateAll(t, vals[..i]));
    addedIds' := if added then addedIds + [id] else addedIds;
    DrawnMore(byId, byId', byId0, incoming, i, id, added);
  }

  lemma DrawnMore(byId: map<int, Message>, byId': map<int, Message>, base: map<int, Message>, incoming: seq<Message>,
                  i: nat, id: int, added: bool)
    requires i < |incoming| && DrawnFrom(byId, base, incoming, i)
    requires (added <==> id !in byId) && byId' == if added then byId[id := incoming[i]] else byId
    ensures DrawnFrom(byId', base, incoming, i + 1)
  {
    assert incoming[..i + 1] == incoming[..i] + [incoming[i]];
  }

  lemma AddedStep(t: Table, vals: seq<Msg>, i: nat, addedIds: seq<int>)
    requires i < |vals| && Proper(t) && addedIds == NewIds(t.byId.Keys, vals[..i])
    ensures IncorporateAll(t, vals[..i + 1]) == Incorporate(IncorporateAll(t, vals[..i]), vals[i])
    ensures NewIds(t.byId.Keys, vals[..i + 1]) ==
            if vals[i].id in IncorporateAll(t, vals[..i]).byId then addedIds else addedIds + [vals[i].id]
  {
    assert vals[..i + 1][..i] == vals[..i];
    AddedSoFar(t, vals[..i], vals[i]);
  }

  method MergeObjects(order0: seq<int>, byId0: map<int, Message>, incoming: seq<Message>, ghost t: Table)
    returns (order: seq<int>, byId: map<int, Message>, addedIds: seq<int>)
    requires Rep(order0, byId0, t) && Proper(t) && Fetched(byId0, incoming)
    modifies Objects(byId0), incoming
    ensures Rep(order, byId, IncorporateAll(t, old(Values(incoming))))
    ensures addedIds == NewIds(t.byId.Keys, old(Values(incoming)))
    ensures DrawnFrom(byId, byId0, incoming, |incoming|)
  {
    order, byId, addedIds := order0, byId0, [];
    ghost var vals := Values(incoming);
    for i := 0 to |incoming|
      invariant Progress(order, byId, addedIds, byId0, incoming, t, vals, i)
    {
      NotDrawnYet(byId, byId0, incoming, i);
      order, byId, addedIds := MergeNext(order, byId, addedIds, byId0, incoming, t, vals, i);
    }
    assert vals[..|incoming|] == vals;
  }

  /** An id is stored already exactly when it was in the thread or has been added. */
  lemma AddedSoFar(t: Table, ms: seq<Msg>, m: Msg)
    requires Proper(t)
    ensures m.id in IncorporateAll(t, ms).byId <==> m.id in t.byId.Keys || m.id in NewIds(t.byId.Keys, ms)
  {
    ProperAll(t, ms);
    AddedIdsAreTheNewOnes(t.byId.Keys, ms);
    assert m.id in NewIds(t.byId.Keys, ms) <==> m.id in Elems(NewIds(t.byId.Keys, ms));
  }

  /**
   mergeMessages. The result is the merge of the values; an object of the thread is never replaced by
   a fetched one with the same id.
   */
  method MergeMessages(existing: seq<Message>, incoming: seq<Message>)
    returns (messages: seq<Message>, addedIds: seq<int>)
    requires NoDup(incoming) && forall i :: 0 <= i < |incoming| ==> incoming[i] !in existing
    modifies existing, incoming
    ensures (Values(messages), addedIds) == Merge(old(Values(existing)), old(Values(incoming)))
    ensures forall m :: m in messages ==> m in existing || (m in incoming && m.id in addedIds)
  {
    ghost var was, vals := Values(existing), Values(incoming);
    var order0, byId0 := LoadObjects(existing);
    ProperLoad(was);
    var order, byId;
    order, byId, addedIds := MergeObjects(order0, byId0, incoming, Load(was));
    ghost var t := IncorporateAll(Load(was), vals);
    MergeFacts(was, vals);
    messages := ListObjects(order, byId, t);
    Origins(byId, byId0, incoming, existing, addedIds, was, vals);
  }

  /** The objects of the map, sorted by time. */
  method ListObjects(order: seq<int>, byId: map<int, Message>, ghost t: Table) returns (messages: seq<Message>)
    requires Rep(order, byId, t) && Proper(t) && forall i :: 0 <= i < |order| ==> order[i] in byId
    ensures Values(messages) == SortBy(Listed(t), Earlier())
    ensures forall m :: m in messages ==> m.id in byId && byId[m.id] == m
  {
    var listed := seq(|order|, i requires 0 <= i < |order| => byId[order[i]]);
    InOrder(t);
    forall i | 0 <= i < |listed|
      ensures Values(listed)[i] == Listed(t)[i]
    {
      var id := order[i];
      assert id in byId && listed[i] == byId[id] && byId[id].Value() == t.byId[id];
    }
    assert Values(listed) == Listed(t);
    SortObjects(listed);
    messages := SortBy(listed, EarlierObject());
    forall m | m in messages
      ensures m.id in byId && byId[m.id] == m
    {
      assert m in multiset(messages) && m in multiset(listed);
      var i :| 0 <= i < |listed| && listed[i] == m;
      assert m == byId[order[i]] && m.id == order[i];
    }
  }

  /** Whatever stands under an id that the thread had is an object of the thread. */
  lemma Origins(byId: map<int, Message>, base: map<int, Message>, incoming: seq<Message>, existing: seq<Message>,
                addedIds: seq<int>, was: seq<Msg>, vals: seq<Msg>)
    requires DrawnFrom(byId, base, incoming, |incoming|)
    requires forall id :: id in base ==> base[id] in existing
    requires base.Keys == Elems(Ids(was)) && byId.Keys == base.Keys + Elems(Ids(vals))
    requires addedIds == NewIds(base.Keys, vals)
    ensures forall id :: id in byId ==> byId[id] in existing || (byId[id] in incoming && id in addedIds)
  {
    AddedIdsAreTheNewOnes(base.Keys, vals);
    assert incoming[..|incoming|] == incoming;
    forall id | id in byId
      ensures byId[id] in existing || (byId[id] in incoming && id in addedIds)
    {
      if id !in base {
        assert id in Elems(addedIds);
      }
    }
  }
}
