/**
 frontend/src/app/services/concurrency.interceptor.ts: the gate that limits API requests in flight.
 The release is modelled as written and, beside it, in the repaired form that looks at the queue
 before it takes a waiter out.
 */
module Gate {
  import opened Common

  const MAX_CONCURRENT := 6
  const INITIAL_CONCURRENT := 1
  const SUCCESSES_PER_STEP := 2

  /**
   The module's four variables. A waiter is identified by a number, drawn in order of arrival.
   `holders` are the requests that hold a slot: granted and not yet given back. `lastHandOvers`
   counts the releases that handed their slot to the only waiter.
   */
  datatype State = State(limit: int, streak: int, active: int, waiting: seq<int>,
                         holders: set<int>, lastHandOvers: nat, next: int)

  function Initial(): State {
    State(INITIAL_CONCURRENT, 0, 0, [], {}, 0, 0)
  }

  // ---------- Steps ----------

  function DeliveredStep(s: State): State {
    var streak := s.streak + 1;
    if streak < SUCCESSES_PER_STEP || s.limit >= MAX_CONCURRENT then s.(streak := streak)
    else s.(limit := s.limit + 1, streak := 0)
  }

  function LostStep(s: State): State {
    s.(limit := INITIAL_CONCURRENT, streak := 0)
  }

  function AcquireStep(s: State): State {
    if s.active < s.limit
    then s.(active := s.active + 1, holders := s.holders + {s.next}, next := s.next + 1)
    else s.(waiting := s.waiting + [s.next], next := s.next + 1)
  }

  /** Hand the slot of `id` to the first waiter, if there is one. */
  function HandOver(s: State, id: int): State {
    if s.waiting == [] then s.(holders := s.holders - {id})
    else s.(waiting := s.waiting[1..], holders := s.holders - {id} + {s.waiting[0]},
            lastHandOvers := s.lastHandOvers + if |s.waiting| == 1 then 1 else 0)
  }

  /** releaseSlot as written: the queue is tested after the waiter has left it. */
  function ReleaseStep(s: State, id: int): State {
    var t := HandOver(s, id);
    if t.waiting == [] then t.(active := t.active - 1) else t
  }

  /** The repaired release: the queue is tested first. */
  function RepairedStep(s: State, id: int): State {
    if s.waiting == [] then s.(holders := s.holders - {id}, active := s.active - 1)
    else s.(waiting := s.waiting[1..], holders := s.holders - {id} + {s.waiting[0]})
  }

  function Leave(waiting: seq<int>, id: int): seq<int> {
    if waiting == [] then []
    else if waiting[0] == id then waiting[1..]
    else [waiting[0]] + Leave(waiting[1..], id)
  }

  /** abandon: every request ends here, whether it was served, cancelled or never started. */
  function AbandonStep(s: State, id: int, repaired: bool): State {
    if id in s.holders then (if repaired then RepairedStep(s, id) else ReleaseStep(s, id))
    else s.(waiting := Leave(s.waiting, id))
  }

  // ---------- The gate as an object ----------

  class Limiter {
    var limit: int
    var streak: int
    var active: int
    var waiting: seq<int>
    var next: int
    ghost var holders: set<int>
    ghost var lastHandOvers: nat

    ghost function View(): State
      reads this
    {
      State(limit, streak, active, waiting, holders, lastHandOvers, next)
    }

    constructor ()
      ensures View() == Initial()
    {
      limit, streak, active, waiting, next := INITIAL_CONCURRENT, 0, 0, [], 0;
      holders, lastHandOvers := {}, 0;
    }

    method OnDelivered()
      modifies this`limit, this`streak
      ensures View() == DeliveredStep(old(View()))
    {
      streak := streak + 1;
      if streak < SUCCESSES_PER_STEP || limit >= MAX_CONCURRENT {
        return;
      }
      limit := limit + 1;
      streak := 0;
    }

    method OnLost()
      modifies this`limit, this`streak
      ensures View() == LostStep(old(View()))
    {
      limit := INITIAL_CONCURRENT;
      streak := 0;
    }

    method Acquire() returns (id: int, granted: bool)
      modifies this
      ensures View() == AcquireStep(old(View()))
      ensures id == old(next) && (granted <==> old(active) < old(limit))
    {
      id, granted := next, active < limit;
      next := next + 1;
      if granted {
        active := active + 1;
        holders := holders + {id};
      } else {
        waiting := waiting + [id];
      }
    }

    method HandOverSlot(ghost id: int) returns (granted: Option<int>)
      modifies this`waiting, this`holders, this`lastHandOvers
      ensures View() == HandOver(old(View()), id)
      ensures granted == if old(waiting) == [] then None else Some(old(waiting)[0])
    {
      granted := None;
      holders := holders - {id};
      if waiting != [] {
        granted := Some(waiting[0]);
        lastHandOvers := lastHandOvers + if |waiting| == 1 then 1 else 0;
        holders := holders + {waiting[0]};
        waiting := waiting[1..];
      }
    }

    method ReleaseSlot(ghost id: int) returns (granted: Option<int>)
      modifies this`waiting, this`active, this`holders, this`lastHandOvers
      ensures View() == ReleaseStep(old(View()), id)
      ensures granted == if old(waiting) == [] then None else Some(old(waiting)[0])
    {
      granted := HandOverSlot(id);
      if |waiting| == 0 {
        active := active - 1;
      }
    }

    method ReleaseSlotRepaired(ghost id: int) returns (granted: Option<int>)
      modifies this`waiting, this`active, this`holders
      ensures View() == RepairedStep(old(View()), id)
      ensures granted == if old(waiting) == [] then None else Some(old(waiting)[0])
    {
      granted := None;
      holders := holders - {id};
      if |waiting| == 0 {
        active := active - 1;
      } else {
        granted := Some(waiting[0]);
        holders := holders + {waiting[0]};
        waiting := waiting[1..];
      }
    }

    /** `held` is the closure's granted flag. */
    method Abandon(id: int, held: bool)
      requires held <==> id in holders
      modifies this`waiting, this`active, this`holders, this`lastHandOvers
      ensures View() == AbandonStep(old(View()), id, false)
    {
      if held {
        var _ := ReleaseSlot(id);
        return;
      }
      var i := 0;
      LeaveAt(waiting, id, 0);
      while i < |waiting| && waiting[i] != id
        invariant 0 <= i <= |waiting| && waiting == old(waiting)
        invariant forall k :: 0 <= k < i ==> waiting[k] != id
        invariant View() == old(View())
      {
        i := i + 1;
      }
      LeaveAt(waiting, id, i);
      if i < |waiting| {
        waiting := waiting[..i] + waiting[i + 1..];
      }
    }
  }

  lemma {:induction false} LeaveAt(waiting: seq<int>, id: int, i: nat)
    requires i <= |waiting| && forall k :: 0 <= k < i ==> waiting[k] != id
    ensures i == |waiting| ==> Leave(waiting, id) == waiting
    ensures i < |waiting| && waiting[i] == id ==> Leave(waiting, id) == waiting[..i] + waiting[i + 1..]
    decreases |waiting|
  {
    if i > 0 {
      LeaveAt(waiting[1..], id, i - 1);
    }
  }

  // ---------- Runs ----------

  datatype Event = Arrive | Abandon(id: int) | Delivered | Lost

  ghost predicate Enabled(s: State, e: Event) {
    e.Abandon? ==> e.id in s.holders || e.id in s.waiting
  }

  function Apply(s: State, e: Event, repaired: bool): State {
    match e
    case Arrive => AcquireStep(s)
    case Abandon(id) => AbandonStep(s, id, repaired)
    case Delivered => DeliveredStep(s)
    case Lost => LostStep(s)
  }

  ghost predicate CanRun(s: State, es: seq<Event>, repaired: bool)
    decreases |es|
  {
    es == [] || (Enabled(s, es[0]) && CanRun(Apply(s, es[0], repaired), es[1..], repaired))
  }

  function After(s: State, es: seq<Event>, repaired: bool): State
    decreases |es|
  {
    if es == [] then s else After(Apply(s, es[0], repaired), es[1..], repaired)
  }

  /** Waiters stand in order of arrival, each once, and nobody both waits and holds. */
  ghost predicate Orderly(s: State) {
    && (forall i, j :: 0 <= i < j < |s.waiting| ==> s.waiting[i] < s.waiting[j])
    && (forall i :: 0 <= i < |s.waiting| ==> s.waiting[i] < s.next && s.waiting[i] !in s.holders)
    && (forall id :: id in s.holders ==> id < s.next)
  }

  ghost predicate LimitOk(s: State) {
    INITIAL_CONCURRENT <= s.limit <= MAX_CONCURRENT && 0 <= s.streak && s.active <= MAX_CONCURRENT
  }

  ghost predicate Inv(s: State) {
    && Orderly(s) && LimitOk(s)
    && |s.holders| == s.active + s.lastHandOvers
    && (s.waiting != [] ==> s.holders != {})
  }

  lemma {:induction false} LeaveFacts(waiting: seq<int>, id: int)
    requires forall i, j :: 0 <= i < j < |waiting| ==> waiting[i] < waiting[j]
    ensures forall i, j :: 0 <= i < j < |Leave(waiting, id)| ==> Leave(waiting, id)[i] < Leave(waiting, id)[j]
    ensures forall x :: x in Leave(waiting, id) <==> x in waiting && x != id
  {
    if waiting != [] {
      LeaveFacts(waiting[1..], id);
      assert waiting == [waiting[0]] + waiting[1..];
      var rest := Leave(waiting[1..], id);
      forall i | 0 <= i < |rest|
        ensures waiting[0] < rest[i]
      {
        assert rest[i] in rest && rest[i] in waiting[1..];
      }
    }
  }

  /** A queued entry that leaves disturbs nobody's place. */
  lemma LeaveOrderly(s: State, id: int)
    requires Orderly(s)
    ensures Orderly(s.(waiting := Leave(s.waiting, id)))
    ensures Leave(s.waiting, id) != [] ==> s.waiting != []
  {
    LeaveFacts(s.waiting, id);
    var rest := Leave(s.waiting, id);
    forall i | 0 <= i < |rest|
      ensures rest[i] < s.next && rest[i] !in s.holders
    {
      assert rest[i] in rest && rest[i] in s.waiting;
    }
  }

  lemma ArriveOrderly(s: State)
    requires Orderly(s)
    ensures Orderly(AcquireStep(s)) && s.next !in s.holders
  {
  }

  lemma HandOverOrderly(s: State, id: int)
    requires Orderly(s) && id in s.holders
    ensures Orderly(HandOver(s, id))
    ensures s.waiting == [] ==> |HandOver(s, id).holders| == |s.holders| - 1
    ensures s.waiting != [] ==> |HandOver(s, id).holders| == |s.holders| && s.waiting[0] in HandOver(s, id).holders
  {
    if s.waiting != [] {
      assert s.waiting[0] !in s.holders;
    }
  }

  lemma ReleaseKeeps(s: State, id: int)
    requires Inv(s) && id in s.holders
    ensures Inv(ReleaseStep(s, id))
  {
    HandOverOrderly(s, id);
  }

  lemma ArriveKeeps(s: State)
    requires Inv(s)
    ensures Inv(AcquireStep(s))
  {
    ArriveOrderly(s);
    if s.active >= s.limit {
      assert |s.holders| >= 1;
    }
  }

  lemma EventKeeps(s: State, e: Event)
    requires Inv(s) && Enabled(s, e)
    ensures Inv(Apply(s, e, false))
  {
    match e
    case Arrive => ArriveKeeps(s);
    case Abandon(id) =>
      if id in s.holders {
        ReleaseKeeps(s, id);
      } else {
        LeaveOrderly(s, id);
      }
    case Delivered =>
    case Lost =>
  }

  lemma {:induction false} RunKeeps(s: State, es: seq<Event>)
    requires Inv(s) && CanRun(s, es, false)
    ensures Inv(After(s, es, false))
    decreases |es|
  {
    if es != [] {
      EventKeeps(s, es[0]);
      RunKeeps(Apply(s, es[0], false), es[1..]);
    }
  }

  /**
   The code as written, over every run: the slots really held are `active` plus the number of
   releases that handed over to the last waiter; whoever waits, somebody holds a slot and will
   release it; and the count agrees with the slots exactly when no such release has happened.
   */
  lemma SlotAccounting(es: seq<Event>)
    requires CanRun(Initial(), es, false)
    ensures Accounted(After(Initial(), es, false))
  {
    AccountedFrom(Initial(), es);
  }

  ghost predicate Accounted(t: State) {
    && |t.holders| == t.active + t.lastHandOvers
    && (t.waiting != [] ==> |t.holders| >= 1)
    && (|t.holders| == t.active <==> t.lastHandOvers == 0)
  }

  lemma AccountedFrom(s: State, es: seq<Event>)
    requires Inv(s) && CanRun(s, es, false)
    ensures Accounted(After(s, es, false))
  {
    RunKeeps(s, es);
    InvSays(After(s, es, false));
  }

  lemma InvSays(t: State)
    requires Inv(t)
    ensures |t.holders| == t.active + t.lastHandOvers
    ensures t.waiting != [] ==> |t.holders| >= 1
  {
    if t.waiting != [] {
      assert |t.holders| != 0;
    }
  }

  /** Per release: as written it does what the repaired one does exactly when not one single waiter is queued. */
  lemma AgreesIffNotOneWaiter(s: State, id: int)
    requires id in s.holders
    ensures ReleaseStep(s, id).(lastHandOvers := s.lastHandOvers) == RepairedStep(s, id) <==> |s.waiting| != 1
    ensures |s.waiting| == 1 ==> ReleaseStep(s, id).active == RepairedStep(s, id).active - 1
  {
  }

  ghost predicate RepairedInv(s: State) {
    Orderly(s) && LimitOk(s) && |s.holders| == s.active && (s.waiting != [] ==> s.holders != {})
  }

  lemma RepairedReleaseKeeps(s: State, id: int)
    requires RepairedInv(s) && id in s.holders
    ensures RepairedInv(RepairedStep(s, id))
  {
    HandOverOrderly(s, id);
    var t := HandOver(s, id);
    assert RepairedStep(s, id).waiting == t.waiting && RepairedStep(s, id).holders == t.holders;
  }

  lemma RepairedArriveKeeps(s: State)
    requires RepairedInv(s)
    ensures RepairedInv(AcquireStep(s))
  {
    ArriveOrderly(s);
    if s.active >= s.limit {
      assert |s.holders| >= 1;
    }
  }

  lemma RepairedEventKeeps(s: State, e: Event)
    requires RepairedInv(s) && Enabled(s, e)
    ensures RepairedInv(Apply(s, e, true))
  {
    match e
    case Arrive => RepairedArriveKeeps(s);
    case Abandon(id) =>
      if id in s.holders {
        RepairedReleaseKeeps(s, id);
      } else {
        LeaveOrderly(s, id);
      }
    case Delivered =>
    case Lost =>
  }

  lemma {:induction false} RepairedRunKeeps(s: State, es: seq<Event>)
    requires RepairedInv(s) && CanRun(s, es, true)
    ensures RepairedInv(After(s, es, true))
    decreases |es|
  {
    if es != [] {
      RepairedEventKeeps(s, es[0]);
      RepairedRunKeeps(Apply(s, es[0], true), es[1..]);
    }
  }

  /** The repaired gate never has more slots out than it counts, and never more than the ceiling. */
  lemma RepairedGateHolds(es: seq<Event>)
    requires CanRun(Initial(), es, true)
    ensures var t := After(Initial(), es, true);
            |t.holders| == t.active && t.active <= 6 && (t.waiting != [] ==> t.holders != {})
  {
    RepairedRunKeeps(Initial(), es);
  }

  // ---------- Waiters are served in order ----------

  ghost predicate AllRelease(s: State, ids: seq<int>)
    decreases |ids|
  {
    ids == [] || (ids[0] in s.holders && AllRelease(ReleaseStep(s, ids[0]), ids[1..]))
  }

  function Released(s: State, ids: seq<int>): State
    decreases |ids|
  {
    if ids == [] then s else Released(ReleaseStep(s, ids[0]), ids[1..])
  }

  /** k releases, by whichever holders, serve exactly the first k waiters. */
  lemma {:induction false} ServedInOrder(s: State, ids: seq<int>)
    requires Orderly(s) && AllRelease(s, ids) && |ids| <= |s.waiting|
    ensures Released(s, ids).waiting == s.waiting[|ids|..]
    ensures Released(s, ids).holders == s.holders + Elems(s.waiting[..|ids|]) - Elems(ids)
    decreases |ids|
  {
    if ids == [] {
      assert s.waiting[..0] == [] && s.waiting[0..] == s.waiting;
    } else {
      OneServed(s, ids[0]);
      ServedInOrder(ReleaseStep(s, ids[0]), ids[1..]);
      SameWaiters(s.waiting, |ids|);
      SameHolders(s.holders, s.waiting, ids);
    }
  }

  lemma OneServed(s: State, id: int)
    requires Orderly(s) && id in s.holders && s.waiting != []
    ensures Orderly(ReleaseStep(s, id))
    ensures ReleaseStep(s, id).waiting == s.waiting[1..]
    ensures ReleaseStep(s, id).holders == s.holders - {id} + {s.waiting[0]}
  {
    HandOverOrderly(s, id);
  }

  lemma SameWaiters(waiting: seq<int>, k: nat)
    requires 1 <= k <= |waiting|
    ensures waiting[1..][k - 1..] == waiting[k..]
  {
  }

  lemma SameHolders(holders: set<int>, waiting: seq<int>, ids: seq<int>)
    requires ids != [] && |ids| <= |waiting|
    requires ids[0] in holders && forall i :: 0 <= i < |waiting| ==> waiting[i] !in holders
    ensures holders - {ids[0]} + {waiting[0]} + Elems(waiting[1..][..|ids| - 1]) - Elems(ids[1..]) ==
            holders + Elems(waiting[..|ids|]) - Elems(ids)
  {
    var k := |ids|;
    assert waiting[..k] == [waiting[0]] + waiting[1..][..k - 1];
    assert Elems(waiting[..k]) == {waiting[0]} + Elems(waiting[1..][..k - 1]);
    assert ids == [ids[0]] + ids[1..];
    assert Elems(ids) == {ids[0]} + Elems(ids[1..]);
    assert ids[0] !in waiting[..k];
  }

  // ---------- The count drifts without bound ----------

  ghost predicate Reachable(s: State) {
    exists es :: CanRun(Initial(), es, false) && After(Initial(), es, false) == s
  }

  lemma {:induction false} AppendEvent(s: State, es: seq<Event>, e: Event)
    requires CanRun(s, es, false) && Enabled(After(s, es, false), e)
    ensures CanRun(s, es + [e], false) && After(s, es + [e], false) == Apply(After(s, es, false), e, false)
    decreases |es|
  {
    if es == [] {
      assert (es + [e])[1..] == [];
      assert CanRun(Apply(s, e, false), [], false);
    } else {
      assert (es + [e])[1..] == es[1..] + [e];
      AppendEvent(Apply(s, es[0], false), es[1..], e);
    }
  }

  lemma ReachableInv(s: State)
    requires Reachable(s)
    ensures Inv(s)
  {
    var es :| CanRun(Initial(), es, false) && After(Initial(), es, false) == s;
    RunKeeps(Initial(), es);
  }

  lemma ReachableStep(s: State, e: Event)
    requires Reachable(s) && Enabled(s, e)
    ensures Inv(s)
    ensures Reachable(Apply(s, e, false)) && Inv(Apply(s, e, false))
  {
    var es :| CanRun(Initial(), es, false) && After(Initial(), es, false) == s;
    AppendEvent(Initial(), es, e);
    ReachableInv(s);
    EventKeeps(s, e);
  }

  /** Nobody holds, nobody waits, and one request at a time is allowed. */
  ghost predicate Idle(s: State) {
    Reachable(s) && s.limit == 1 && s.waiting == [] && s.holders == {}
  }

  /** From an idle gate, requests are let in until `active` reaches the limit. */
  lemma {:induction false} FillUp(s: State) returns (t: State)
    requires Idle(s) && s.active <= 0
    ensures Reachable(t) && t.limit == 1 && t.waiting == [] && t.active == 1
    ensures |t.holders| == 1 - s.active
  {
    t := s;
    while t.active < 1
      invariant Reachable(t) && t.limit == 1 && t.waiting == [] && t.active <= 1
      invariant |t.holders| == t.active - s.active
      decreases 1 - t.active
    {
      ReachableStep(t, Arrive);
      t := Apply(t, Arrive, false);
    }
  }

  /** One queued request is enough to make the gate forget one slot for good. */
  lemma {:induction false} ForgetsOne(s: State) returns (t: State)
    requires Idle(s) && s.active <= 0
    ensures Idle(t) && t.active == s.active - 1
  {
    t := FillUp(s);
    ReachableStep(t, Arrive);
    t := Apply(t, Arrive, false);
    var id := Pick(t.holders);
    ReachableStep(t, Abandon(id));
    t := Apply(t, Abandon(id), false);
    ReachableStep(t, Lost);
    while t.holders != {}
      invariant Reachable(t) && Inv(t) && t.limit == 1 && t.waiting == []
      invariant t.active - |t.holders| == s.active - 1
      decreases |t.holders|
    {
      var h := Pick(t.holders);
      ReachableStep(t, Abandon(h));
      t := Apply(t, Abandon(h), false);
      ReachableStep(t, Lost);
    }
  }

  lemma {:induction false} Drifts(n: nat) returns (t: State)
    ensures Idle(t) && t.active + n == 0
  {
    if n == 0 {
      t := Initial();
      assert CanRun(Initial(), [], false) && After(Initial(), [], false) == t;
    } else {
      var s := Drifts(n - 1);
      t := ForgetsOne(s);
    }
  }

  /**
   So the gate as written has no ceiling: for every n some run ends with more than n requests in
   flight at once although the limit is one.
   */
  lemma NoCeiling(n: nat)
    ensures exists es :: CanRun(Initial(), es, false) &&
              After(Initial(), es, false).limit == 1 && |After(Initial(), es, false).holders| > n
  {
    var s := Drifts(n);
    var t := FillUp(s);
    var es :| CanRun(Initial(), es, false) && After(Initial(), es, false) == t;
  }

  // ---------- Slow start ----------

  function DeliveredMany(s: State, n: nat): State {
    if n == 0 then s else DeliveredStep(DeliveredMany(s, n - 1))
  }

  function Min(a: int, b: int): int {
    if a < b then a else b
  }

  /** Every second answer opens one more slot, up to the ceiling. */
  lemma {:induction false} SlowStart(s: State, n: nat)
    requires INITIAL_CONCURRENT <= s.limit <= MAX_CONCURRENT && 0 <= s.streak
    requires s.limit < MAX_CONCURRENT ==> s.streak < SUCCESSES_PER_STEP
    ensures DeliveredMany(s, n).limit == Min(MAX_CONCURRENT, s.limit + (s.streak + n) / 2)
    ensures DeliveredMany(s, n).limit < MAX_CONCURRENT ==> DeliveredMany(s, n).streak == (s.streak + n) % 2
  {
    if n > 0 {
      SlowStart(s, n - 1);
    }
  }

  /** From the start: one request at a time, one more after every second answer, six at most; a loss starts over. */
  lemma FromOneToSix(n: nat)
    ensures DeliveredMany(Initial(), n).limit == Min(6, 1 + n / 2)
    ensures LostStep(DeliveredMany(Initial(), n)).limit == 1 && LostStep(DeliveredMany(Initial(), n)).streak == 0
  {
    SlowStart(Initial(), n);
  }

  /** What the tap sees of one request: values, and at most an error, lost or refused. */
  datatype Signal = Value | Refused | NoAnswer

  function TapStep(counted: bool, s: State, x: Signal): (bool, State) {
    match x
    case Value => if counted then (counted, s) else (true, DeliveredStep(s))
    case Refused => if counted then (counted, s) else (true, DeliveredStep(s))
    case NoAnswer => (true, LostStep(s))
  }

  function TapAll(counted: bool, s: State, xs: seq<Signal>): State
    decreases |xs|
  {
    if xs == [] then s else var (c, t) := TapStep(counted, s, xs[0]); TapAll(c, t, xs[1..])
  }

  /** One request counts once: answers move the limit as one delivery, and a loss always ends at one. */
  lemma {:induction false} CountedOnce(s: State, xs: seq<Signal>)
    ensures NoAnswer !in xs ==> TapAll(false, s, xs) == if xs == [] then s else DeliveredStep(s)
    ensures NoAnswer in xs ==> TapAll(false, s, xs) == s.(limit := 1, streak := 0)
  {
    if xs != [] {
      var (c, t) := TapStep(false, s, xs[0]);
      TapCounted(t, xs[1..]);
      assert xs == [xs[0]] + xs[1..];
    }
  }

  lemma {:induction false} TapCounted(s: State, xs: seq<Signal>)
    ensures TapAll(true, s, xs) == if NoAnswer in xs then s.(limit := 1, streak := 0) else s
    decreases |xs|
  {
    if xs != [] {
      var (c, t) := TapStep(true, s, xs[0]);
      TapCounted(t, xs[1..]);
      assert xs == [xs[0]] + xs[1..];
    }
  }
}
