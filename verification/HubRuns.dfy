/**
 What the hub keeps over every run: presence, the socket cap and the counters, whatever the order of
 registrations, disconnects, timers, broadcasts and failed writes.
 */
module HubRuns {
  import opened Common
  import opened Hub

  datatype Event =
    | Connect(c: Conn, uid: Uid, now: int, late: bool, victims: set<Conn>, dead: set<Conn>)
    | Disconnect(c: Conn, uid: Uid)
    | Fire(timer: int)
    | Expire(dead: set<Conn>)
    | Force(uid: Uid)
    | Direct(sender: Uid, to: Uid, dead: set<Conn>)
    | Fan(who: set<Uid>, dead: set<Conn>)

  /** A socket registers once and unregisters once; a pooled connection object may come back later. */
  ghost predicate Enabled(s: State, e: Event) {
    match e
    case Connect(c, uid, now, _, victims, _) => c !in s.pending && Stale(Insert(s.socks, c, uid, now), uid, s.cap, victims)
    case Disconnect(c, uid) => c in s.pending && s.pending[c] == uid
    case Fire(t) => t in s.running
    case Expire(_) => s.expired != []
    case _ => true
  }

  ghost function Apply(s: State, e: Event): State
    requires Enabled(s, e)
  {
    match e
    case Connect(c, uid, now, late, victims, dead) => RegisterStep(s, c, uid, now, late, victims, dead)
    case Disconnect(c, uid) => UnregisterStep(s, c, uid)
    case Fire(t) => FireStep(s, t)
    case Expire(dead) => ExpireStep(s, dead)
    case Force(uid) => ForceOfflineStep(s, uid)
    case Direct(sender, to, dead) => DirectStep(s, sender, to, dead)
    case Fan(who, dead) => FanOut(s, who, dead)
  }

  // ---------- The invariant ----------

  ghost predicate Counted(s: State) {
    && s.socks.since.Keys == s.socks.clients.Keys
    && s.socks.total == |s.socks.clients.Keys|
    && s.registered == s.socks.total + s.socks.closed + s.evicted
    && 0 <= s.writeErrors <= s.socks.closed
  }

  ghost predicate Capped(s: State) {
    forall uid :: |SocketsOf(s.socks.clients, uid)| <= s.cap
  }

  /** Every live socket belongs to an online user and will be unregistered later. */
  ghost predicate LiveOnline(s: State) {
    forall c :: c in s.socks.clients ==>
      s.socks.clients[c] in s.online && c in s.pending && s.pending[c] == s.socks.clients[c]
  }

  ghost predicate TimersOk(s: State) {
    && (forall t :: t in s.running ==> t < s.nextTimer)
    && (forall u :: u in s.graceTimers ==> s.graceTimers[u] < s.nextTimer)
    && (forall u :: u in s.graceTimers && s.graceTimers[u] in s.running ==> s.running[s.graceTimers[u]] == u)
  }

  /** Something is still to come that will look at this user's presence again. */
  ghost predicate Awaited(s: State, u: Uid) {
    || (exists t :: t in s.running && s.running[t] == u)
    || u in s.expired
    || (exists c :: c in s.pending && s.pending[c] == u)
    || u in s.dropped
  }

  ghost predicate Presence(s: State) {
    LiveOnline(s) && TimersOk(s) && forall u :: u in s.online ==> Awaited(s, u)
  }

  ghost predicate Inv(s: State) {
    Counted(s) && Capped(s) && Presence(s)
  }

  // ---------- Closing sockets ----------

  /** Closing live sockets moves them from the live count to the closed count and keeps the cap. */
  lemma CloseKeeps(s: State, gone: set<Conn>)
    requires Counted(s) && Capped(s) && gone <= s.socks.clients.Keys
    ensures Counted(s.(socks := CloseAll(s.socks, gone))) && Capped(s.(socks := CloseAll(s.socks, gone)))
    ensures Counted(s.(socks := CloseAll(s.socks, gone), writeErrors := s.writeErrors + |gone|))
  {
    var t := CloseAll(s.socks, gone);
    KeysMinus(s.socks.clients, gone);
    KeysMinus(s.socks.since, gone);
    RemoveCard(s.socks.clients.Keys, gone);
    forall uid
      ensures |SocketsOf(t.clients, uid)| <= s.cap
    {
      SubsetCard(SocketsOf(t.clients, uid), SocketsOf(s.socks.clients, uid));
    }
  }

  /** Registering and trimming: one more registration, and nobody is above the cap. */
  lemma AdmitCounts(s: State, c: Conn, uid: Uid, now: int, victims: set<Conn>)
    requires Counted(s) && c !in s.socks.clients
    requires Stale(Insert(s.socks, c, uid, now), uid, s.cap, victims)
    ensures Counted(Admitted(s, c, uid, now, victims))
  {
    var s1 := Insert(s.socks, c, uid, now);
    KeysPut(s.socks.clients, c, uid);
    KeysPut(s.socks.since, c, now);
    EvictKeys(s1, victims);
  }

  lemma EvictKeys(s: Sockets, victims: set<Conn>)
    requires s.since.Keys == s.clients.Keys && victims <= s.clients.Keys
    ensures Evict(s, victims).since.Keys == Evict(s, victims).clients.Keys
    ensures |Evict(s, victims).clients.Keys| == |s.clients.Keys| - |victims|
  {
    KeysMinus(s.clients, victims);
    KeysMinus(s.since, victims);
    RemoveCard(s.clients.Keys, victims);
  }

  lemma AdmitCaps(s: State, c: Conn, uid: Uid, now: int, victims: set<Conn>)
    requires Capped(s) && c !in s.socks.clients
    requires Stale(Insert(s.socks, c, uid, now), uid, s.cap, victims)
    ensures Capped(Admitted(s, c, uid, now, victims))
  {
    var s1 := Insert(s.socks, c, uid, now);
    var t := Evict(s1, victims);
    var mine := SocketsOf(s1.clients, uid);
    forall u
      ensures |SocketsOf(t.clients, u)| <= s.cap
    {
      if u == uid {
        assert SocketsOf(t.clients, uid) == mine - victims;
        RemoveCard(mine, victims);
      } else {
        SubsetCard(SocketsOf(t.clients, u), SocketsOf(s.socks.clients, u));
      }
    }
  }

  // ---------- Bookkeeping ----------

  /**
   After every event the total is the number of live sockets, the two maps have the same keys,
   registrations are live plus closed plus evicted, and no user has more sockets than the cap.
   */
  lemma EventKeepsCounts(s: State, e: Event)
    requires Counted(s) && Capped(s) && LiveOnline(s) && Enabled(s, e)
    ensures Counted(Apply(s, e)) && Capped(Apply(s, e))
  {
    if e.Connect? {
      ConnectCounts(s, e.c, e.uid, e.now, e.late, e.victims, e.dead);
    } else if e.Disconnect? {
      DisconnectCounts(s, e.c, e.uid);
    } else if e.Direct? || e.Fan? {
      FanCounts(s, if e.Direct? then {e.to, e.sender} else e.who, e.dead);
    } else {
      TimerCounts(s, e);
    }
  }

  lemma ConnectCounts(s: State, c: Conn, uid: Uid, now: int, late: bool, victims: set<Conn>, dead: set<Conn>)
    requires Counted(s) && Capped(s) && c !in s.socks.clients
    requires Stale(Insert(s.socks, c, uid, now), uid, s.cap, victims)
    ensures var t := RegisterStep(s, c, uid, now, late, victims, dead); Counted(t) && Capped(t)
  {
    AdmitCounts(s, c, uid, now, victims);
    AdmitCaps(s, c, uid, now, victims);
    AnnounceCounts(Admitted(s, c, uid, now, victims), uid, late, dead);
  }

  lemma DisconnectCounts(s: State, c: Conn, uid: Uid)
    requires Counted(s) && Capped(s)
    ensures var t := UnregisterStep(s, c, uid); Counted(t) && Capped(t)
  {
    if c in s.socks.clients {
      CloseKeeps(s, {c});
    }
  }

  lemma FanCounts(s: State, who: set<Uid>, dead: set<Conn>)
    requires Counted(s) && Capped(s)
    ensures Counted(FanOut(s, who, dead)) && Capped(FanOut(s, who, dead))
  {
    CloseKeeps(s, Failing(s.socks.clients, who, dead));
  }

  lemma TimerCounts(s: State, e: Event)
    requires Counted(s) && Capped(s) && Enabled(s, e) && (e.Fire? || e.Expire? || e.Force?)
    ensures Counted(Apply(s, e)) && Capped(Apply(s, e))
  {
    if e.Expire? {
      CloseKeeps(s, FailingAny(s.socks.clients, e.dead));
      assert Apply(s, e).socks == s.socks || Apply(s, e).socks == CloseAll(s.socks, FailingAny(s.socks.clients, e.dead));
    } else if e.Force? {
      CloseKeeps(s, SocketsOf(s.socks.clients, e.uid));
      assert Apply(s, e).socks == CloseAll(s.socks, SocketsOf(s.socks.clients, e.uid));
    }
  }

  lemma AnnounceCounts(s: State, uid: Uid, late: bool, dead: set<Conn>)
    requires Counted(s) && Capped(s)
    ensures var t := AnnounceOnline(CancelGrace(s, uid, late), uid, dead); Counted(t) && Capped(t)
  {
    CloseKeeps(s, FailingAny(s.socks.clients, dead));
  }

  // ---------- Presence ----------

  lemma AwaitedStays(s: State, t: State)
    requires forall u :: u in s.online ==> Awaited(s, u)
    requires t.online <= s.online
    requires forall k :: k in s.running ==> k in t.running && t.running[k] == s.running[k]
    requires forall u :: u in s.expired ==> u in t.expired
    requires forall c :: c in s.pending ==> c in t.pending && t.pending[c] == s.pending[c]
    requires s.dropped <= t.dropped
    ensures forall u :: u in t.online ==> Awaited(t, u)
  {
    forall u | u in t.online
      ensures Awaited(t, u)
    {
      assert Awaited(s, u);
    }
  }

  lemma ConnectKeepsTimers(s: State, c: Conn, uid: Uid, now: int, late: bool, victims: set<Conn>, dead: set<Conn>)
    requires LiveOnline(s) && TimersOk(s) && c !in s.pending
    ensures LiveOnline(RegisterStep(s, c, uid, now, late, victims, dead))
    ensures TimersOk(RegisterStep(s, c, uid, now, late, victims, dead))
  {
  }

  lemma ConnectKeepsPresence(s: State, c: Conn, uid: Uid, now: int, late: bool, victims: set<Conn>, dead: set<Conn>)
    requires Presence(s) && c !in s.pending
    ensures Presence(RegisterStep(s, c, uid, now, late, victims, dead))
  {
    var t := RegisterStep(s, c, uid, now, late, victims, dead);
    ConnectKeepsTimers(s, c, uid, now, late, victims, dead);
    forall u | u in t.online
      ensures Awaited(t, u)
    {
      if u == uid {
        assert c in t.pending && t.pending[c] == u;
      } else {
        ConnectAwaits(s, c, uid, now, late, victims, dead, u);
      }
    }
  }

  lemma ConnectAwaits(s: State, c: Conn, uid: Uid, now: int, late: bool, victims: set<Conn>, dead: set<Conn>, u: Uid)
    requires TimersOk(s) && c !in s.pending && u != uid && Awaited(s, u)
    ensures Awaited(RegisterStep(s, c, uid, now, late, victims, dead), u)
  {
    var t := RegisterStep(s, c, uid, now, late, victims, dead);
    if k :| k in s.running && s.running[k] == u {
      assert k in t.running && t.running[k] == u;
    } else if d :| d in s.pending && s.pending[d] == u {
      assert d in t.pending && t.pending[d] == u;
    }
  }

  lemma ArmKeepsPresence(s: State, uid: Uid)
    requires LiveOnline(s) && TimersOk(s)
    requires forall u :: u in s.online && u != uid ==> Awaited(s, u)
    ensures Presence(Arm(s, uid))
  {
    var t := Arm(s, uid);
    assert t.running[s.nextTimer] == uid;
    forall u | u in t.online
      ensures Awaited(t, u)
    {
      if u != uid {
        assert Awaited(s, u);
        if k :| k in s.running && s.running[k] == u {
          assert k in t.running && t.running[k] == u;
        }
      }
    }
  }

  lemma DisconnectKeepsPresence(s: State, c: Conn, uid: Uid)
    requires Presence(s) && c in s.pending && s.pending[c] == uid
    ensures Presence(UnregisterStep(s, c, uid))
  {
    var s1 := s.(socks := if c in s.socks.clients then CloseAll(s.socks, {c}) else s.socks, pending := s.pending - {c});
    forall u | u in s1.online && u != uid
      ensures Awaited(s1, u)
    {
      assert Awaited(s, u);
      if d :| d in s.pending && s.pending[d] == u {
        assert d in s1.pending && s1.pending[d] == u;
      }
    }
    if !HasSocket(s1.socks.clients, uid) {
      if uid in s1.online {
        ArmKeepsPresence(s1, uid);
      }
    } else {
      var d :| d in s1.socks.clients && s1.socks.clients[d] == uid;
      assert d in s1.pending && s1.pending[d] == uid;
    }
  }

  lemma FireKeepsPresence(s: State, timer: int)
    requires Presence(s) && timer in s.running
    ensures Presence(FireStep(s, timer))
  {
    var t := FireStep(s, timer);
    forall u | u in t.online
      ensures Awaited(t, u)
    {
      assert Awaited(s, u);
      if k :| k in s.running && s.running[k] == u {
        if k == timer {
          assert |s.expired| < EXPIRY_CHANNEL ==> t.expired[|s.expired|] == u;
        } else {
          assert k in t.running && t.running[k] == u;
        }
      }
    }
  }

  lemma ExpireKeepsPresence(s: State, dead: set<Conn>)
    requires Presence(s) && s.expired != []
    ensures Presence(ExpireStep(s, dead))
  {
    var t, uid := ExpireStep(s, dead), s.expired[0];
    assert s.expired == [uid] + s.expired[1..];
    forall u | u in t.online
      ensures Awaited(t, u)
    {
      assert Awaited(s, u);
      if u == uid {
        var c :| c in s.socks.clients && s.socks.clients[c] == uid;
        assert c in t.pending && t.pending[c] == u;
      } else if u in s.expired {
        assert u in t.expired;
      }
    }
  }

  lemma EventKeepsPresence(s: State, e: Event)
    requires Presence(s) && Enabled(s, e)
    ensures Presence(Apply(s, e))
  {
    match e
    case Connect(c, uid, now, late, victims, dead) => ConnectKeepsPresence(s, c, uid, now, late, victims, dead);
    case Disconnect(c, uid) => DisconnectKeepsPresence(s, c, uid);
    case Fire(t) => FireKeepsPresence(s, t);
    case Expire(dead) => ExpireKeepsPresence(s, dead);
    case Force(uid) =>
      var s1 := s.(socks := CloseAll(s.socks, SocketsOf(s.socks.clients, uid)), online := s.online + {uid});
      forall u | u in s1.online && u != uid
        ensures Awaited(s1, u)
      {
        assert Awaited(s, u);
      }
      ArmKeepsPresence(s1, uid);
    case Direct(sender, to, dead) => AwaitedStays(s, Apply(s, e));
    case Fan(who, dead) => AwaitedStays(s, Apply(s, e));
  }

  /** A user goes offline only in an event at whose start they have no socket. */
  lemma OfflineOnlyWithoutSocket(s: State, e: Event, u: Uid)
    requires Enabled(s, e)
    requires u in s.online && u !in Apply(s, e).online
    ensures e.Expire? && s.expired[0] == u
    ensures !HasSocket(s.socks.clients, u) && !HasSocket(Apply(s, e).socks.clients, u)
  {
  }

  // ---------- Runs ----------

  ghost predicate CanRun(s: State, es: seq<Event>)
    decreases |es|
  {
    es == [] || (Enabled(s, es[0]) && CanRun(Apply(s, es[0]), es[1..]))
  }

  ghost function After(s: State, es: seq<Event>): State
    requires CanRun(s, es)
    decreases |es|
  {
    if es == [] then s else After(Apply(s, es[0]), es[1..])
  }

  lemma {:induction false} RunKeeps(s: State, es: seq<Event>)
    requires Inv(s) && CanRun(s, es)
    ensures Inv(After(s, es))
    decreases |es|
  {
    if es != [] {
      EventKeepsCounts(s, es[0]);
      EventKeepsPresence(s, es[0]);
      RunKeeps(Apply(s, es[0]), es[1..]);
    }
  }

  lemma StartIsFine(cap: nat)
    ensures Inv(Start(cap))
  {
    assert forall uid :: SocketsOf(Start(cap).socks.clients, uid) == {};
  }

  function Directs(es: seq<Event>): nat {
    if es == [] then 0 else (if es[0].Direct? then 1 else 0) + Directs(es[1..])
  }

  function Connects(es: seq<Event>): nat {
    if es == [] then 0 else (if es[0].Connect? then 1 else 0) + Connects(es[1..])
  }

  /** The sockets that have registered and not unregistered since, with their users. */
  function StillOpen(open: map<Conn, Uid>, es: seq<Event>): map<Conn, Uid>
    decreases |es|
  {
    if es == [] then open
    else StillOpen(match es[0]
                   case Connect(c, uid, _, _, _, _) => open[c := uid]
                   case Disconnect(c, _) => open - {c}
                   case _ => open, es[1..])
  }

  /** What the books say, event by event. */
  lemma {:induction false} BooksKept(s: State, es: seq<Event>)
    requires CanRun(s, es)
    ensures After(s, es).messages == s.messages + Directs(es) && After(s, es).cap == s.cap
    ensures After(s, es).registered == s.registered + Connects(es)
    ensures After(s, es).pending == StillOpen(s.pending, es)
    decreases |es|
  {
    if es != [] {
      BooksKept(Apply(s, es[0]), es[1..]);
    }
  }

  /** The counters after any run. */
  lemma Bookkeeping(cap: nat, es: seq<Event>)
    requires CanRun(Start(cap), es)
    ensures var t := After(Start(cap), es);
            && t.socks.since.Keys == t.socks.clients.Keys
            && t.socks.total == |t.socks.clients.Keys|
            && t.registered == |t.socks.clients.Keys| + t.socks.closed + t.evicted
            && t.writeErrors <= t.socks.closed
            && (forall uid :: |SocketsOf(t.socks.clients, uid)| <= t.cap)
            && t.messages == Directs(es) && t.registered == Connects(es)
  {
    StartIsFine(cap);
    RunKeeps(Start(cap), es);
    BooksKept(Start(cap), es);
  }

  /** In so many words: after any run no user is behind more than `cap` live sockets. */
  lemma CapHolds(cap: nat, es: seq<Event>, uid: Uid, conns: set<Conn>)
    requires CanRun(Start(cap), es)
    requires forall c :: c in conns <==> c in After(Start(cap), es).socks.clients && After(Start(cap), es).socks.clients[c] == uid
    ensures |conns| <= cap
  {
    Bookkeeping(cap, es);
    BooksKept(Start(cap), es);
    var mine := SocketsOf(After(Start(cap), es).socks.clients, uid);
    forall c
      ensures c in conns <==> c in mine
    {
    }
    assert conns == mine;
  }

  /**
   Presence after any run: a user with a live socket is online, and an online user without one has a
   running grace timer, a queued expiry, or a socket whose unregister is still to come. The last
   alternative is that the expiry channel was full when a timer of theirs fired.
   */
  lemma PresenceAlways(cap: nat, es: seq<Event>, u: Uid)
    requires CanRun(Start(cap), es)
    ensures var t := After(Start(cap), es);
            && (HasSocket(t.socks.clients, u) ==> u in t.online)
            && (u in t.online && !HasSocket(t.socks.clients, u) ==>
                  || (exists k :: k in t.running && t.running[k] == u)
                  || u in t.expired
                  || (exists c :: c in t.pending && c !in t.socks.clients && t.pending[c] == u)
                  || u in t.dropped)
  {
    StartIsFine(cap);
    RunKeeps(Start(cap), es);
    AwaitedElsewhere(After(Start(cap), es), u);
  }

  lemma AwaitedElsewhere(t: State, u: Uid)
    requires Presence(t)
    ensures HasSocket(t.socks.clients, u) ==> u in t.online
    ensures u in t.online && !HasSocket(t.socks.clients, u) ==>
              || (exists k :: k in t.running && t.running[k] == u)
              || u in t.expired
              || (exists c :: c in t.pending && c !in t.socks.clients && t.pending[c] == u)
              || u in t.dropped
  {
    if u in t.online && !HasSocket(t.socks.clients, u) {
      assert Awaited(t, u);
      if c :| c in t.pending && t.pending[c] == u {
        assert c !in t.socks.clients;
      }
    }
  }

  /** Once the timers and the channel have run dry, online means exactly: has a live socket. */
  lemma QuietPresence(cap: nat, es: seq<Event>, u: Uid)
    requires CanRun(Start(cap), es)
    requires var t := After(Start(cap), es);
             t.running == map[] && t.expired == [] && u !in t.dropped && t.pending.Keys == t.socks.clients.Keys
    ensures var t := After(Start(cap), es);
            u in t.online <==> HasSocket(t.socks.clients, u)
  {
    PresenceAlways(cap, es, u);
  }

  // ---------- With room in the channel ----------

  /** A timer that goes off with fewer than 1024 expiries queued puts exactly its user at the end. */
  lemma FireOffers(s: State, timer: int)
    requires timer in s.running
    ensures var t := Apply(s, Fire(timer));
            && t.running == s.running - {timer} && t.online == s.online && t.socks == s.socks
            && (|s.expired| < 1024 ==> t.expired == s.expired + [s.running[timer]] && t.dropped == s.dropped)
            && (|s.expired| >= 1024 ==> t.expired == s.expired && t.dropped == s.dropped + {s.running[timer]})
  {
  }

  /** Only that makes a user one whose expiry was dropped. */
  lemma DroppedOnlyWhenFull(s: State, e: Event, u: Uid)
    requires Enabled(s, e) && u in Apply(s, e).dropped && u !in s.dropped
    ensures e.Fire? && s.running[e.timer] == u && |s.expired| >= 1024
  {
  }

  /** No timer of this run goes off with 1024 expiries queued. */
  ghost predicate AlwaysRoom(s: State, es: seq<Event>)
    requires CanRun(s, es)
    decreases |es|
  {
    es == [] || ((es[0].Fire? ==> |s.expired| < 1024) && AlwaysRoom(Apply(s, es[0]), es[1..]))
  }

  lemma NoneDropped(s: State, e: Event)
    requires Enabled(s, e) && s.dropped == {} && (e.Fire? ==> |s.expired| < 1024)
    ensures Apply(s, e).dropped == {}
  {
  }

  lemma {:induction false} NothingDropped(s: State, es: seq<Event>)
    requires CanRun(s, es) && AlwaysRoom(s, es) && s.dropped == {}
    ensures After(s, es).dropped == {}
    decreases |es|
  {
    if es != [] {
      NoneDropped(s, es[0]);
      NothingDropped(Apply(s, es[0]), es[1..]);
    }
  }

  /**
   As long as the channel never fills up: a user with a live socket is online, and an online user
   without one has a timer, a queued expiry or an unregister still to come.
   */
  lemma PresenceWithRoom(cap: nat, es: seq<Event>, u: Uid)
    requires CanRun(Start(cap), es) && AlwaysRoom(Start(cap), es)
    ensures var t := After(Start(cap), es);
            && (HasSocket(t.socks.clients, u) ==> u in t.online)
            && (u in t.online && !HasSocket(t.socks.clients, u) ==>
                  || (exists k :: k in t.running && t.running[k] == u)
                  || u in t.expired
                  || (var open := StillOpen(map[], es); exists c :: c in open && c !in t.socks.clients && open[c] == u))
  {
    PresenceAlways(cap, es, u);
    BooksKept(Start(cap), es);
    NothingDropped(Start(cap), es);
  }

  /** And once timers and channel have run dry, online means exactly: has a live socket. */
  lemma QuietWithRoom(cap: nat, es: seq<Event>, u: Uid)
    requires CanRun(Start(cap), es) && AlwaysRoom(Start(cap), es)
    requires var t := After(Start(cap), es);
             t.running == map[] && t.expired == [] && t.pending.Keys == t.socks.clients.Keys
    ensures var t := After(Start(cap), es);
            u in t.online <==> HasSocket(t.socks.clients, u)
  {
    NothingDropped(Start(cap), es);
    QuietPresence(cap, es, u);
  }

  /** A grace period starts exactly when the last socket of an online user goes. */
  lemma DisconnectStartsGrace(s: State, c: Conn, uid: Uid)
    requires Enabled(s, Disconnect(c, uid)) && TimersOk(s)
    ensures var t := Apply(s, Disconnect(c, uid));
            && t.socks.clients == s.socks.clients - {c} && t.online == s.online && t.pending == s.pending - {c}
            && t.running ==
               (if uid in s.online && forall d :: d in t.socks.clients ==> t.socks.clients[d] != uid
                then s.running[s.nextTimer := uid] else s.running)
            && t.graceTimers ==
               (if uid in s.online && forall d :: d in t.socks.clients ==> t.socks.clients[d] != uid
                then s.graceTimers[uid := s.nextTimer] else s.graceTimers)
            && s.nextTimer !in s.running
  {
  }

  /** An expiry turns its user offline exactly when they are online without a socket, and nobody else. */
  lemma ExpiryDecides(s: State, dead: set<Conn>, u: Uid)
    requires s.expired != []
    ensures var t := Apply(s, Expire(dead));
            && t.expired == s.expired[1..] && t.graceTimers == s.graceTimers - {s.expired[0]}
            && (u in t.online <==>
                  u in s.online && !(u == s.expired[0] && forall c :: c in s.socks.clients ==> s.socks.clients[c] != u))
  {
  }

  /** With a cap of at least one and a clock that has moved on, the socket just registered survives. */
  lemma NewcomerSurvives(s: State, c: Conn, uid: Uid, now: int, victims: set<Conn>)
    requires Inv(s) && c !in s.pending && s.cap >= 1
    requires Stale(Insert(s.socks, c, uid, now), uid, s.cap, victims)
    requires forall d :: d in SocketsOf(s.socks.clients, uid) ==> s.socks.since[d] < now
    ensures c !in victims
  {
    YoungestStays(Insert(s.socks, c, uid, now), uid, s.cap, victims, c);
  }

  lemma YoungestStays(s: Sockets, uid: Uid, cap: nat, victims: set<Conn>, c: Conn)
    requires cap >= 1 && Stale(s, uid, cap, victims)
    requires forall d :: d in SocketsOf(s.clients, uid) && d != c ==> Age(s.since, d) < Age(s.since, c)
    ensures c !in victims
  {
    var mine := SocketsOf(s.clients, uid);
    RemoveCard(mine, victims);
    if victims != {} {
      var k := Pick(mine - victims);
      assert c in victims ==> Age(s.since, c) <= Age(s.since, k);
    }
  }

  /** A full user loses exactly one socket, the oldest. */
  lemma FullUserLosesOldest(s: State, c: Conn, uid: Uid, now: int, victims: set<Conn>)
    requires Inv(s) && c !in s.pending && s.cap >= 1 && |SocketsOf(s.socks.clients, uid)| == s.cap
    requires Stale(Insert(s.socks, c, uid, now), uid, s.cap, victims)
    requires forall d :: d in SocketsOf(s.socks.clients, uid) ==> s.socks.since[d] < now
    ensures exists v :: victims == {v} && v in SocketsOf(s.socks.clients, uid) &&
              forall d :: d in SocketsOf(s.socks.clients, uid) ==> s.socks.since[v] <= s.socks.since[d]
  {
    NewcomerSurvives(s, c, uid, now, victims);
    var s1 := Insert(s.socks, c, uid, now);
    var mine, others := SocketsOf(s1.clients, uid), SocketsOf(s.socks.clients, uid);
    assert mine == others + {c};
    var v := Pick(victims);
    RemoveCard(victims, {v});
    assert victims == {v};
    forall d | d in others
      ensures s.socks.since[v] <= s.socks.since[d]
    {
      if d != v {
        assert d in mine - victims;
        assert Age(s1.since, v) <= Age(s1.since, d);
      }
    }
  }

  /** A reconnect stops the timer on record unless that has gone off; one that was overwritten before stays running. */
  lemma ReconnectStopsTheTimer(s: State, c: Conn, uid: Uid, now: int, late: bool, victims: set<Conn>, dead: set<Conn>)
    ensures var t := RegisterStep(s, c, uid, now, late, victims, dead);
            && uid in t.online && uid !in t.graceTimers
            && (uid in s.graceTimers && !late ==> s.graceTimers[uid] !in t.running)
            && (forall k :: k in s.running && (late || !(uid in s.graceTimers && k == s.graceTimers[uid])) ==>
                  k in t.running && t.running[k] == s.running[k])
  {
  }

  /** Going offline by request closes every socket of that user and no other, and leaves a timer running. */
  lemma ForceOfflineClosesAll(s: State, uid: Uid, c: Conn)
    requires TimersOk(s)
    ensures var t := ForceOfflineStep(s, uid);
            && !HasSocket(t.socks.clients, uid) && uid in t.online
            && (c in s.socks.clients && s.socks.clients[c] != uid ==>
                  c in t.socks.clients && t.socks.clients[c] == s.socks.clients[c])
            && exists k :: k in t.running && k !in s.running && t.running[k] == uid
  {
    assert ForceOfflineStep(s, uid).running[s.nextTimer] == uid;
  }

  /** A broadcast closes exactly the addressed sockets whose write fails. */
  lemma OnlyFailedSocketsClose(s: State, who: set<Uid>, dead: set<Conn>, c: Conn)
    requires c in s.socks.clients
    ensures var t := FanOut(s, who, dead).socks.clients;
            && (c in t <==> !(s.socks.clients[c] in who && c in dead))
            && (c in t ==> t[c] == s.socks.clients[c])
            && t.Keys <= s.socks.clients.Keys
    ensures var t := FanOut(s, who, dead);
            && t.writeErrors - s.writeErrors == t.socks.closed - s.socks.closed
            && t.socks.closed - s.socks.closed == |set d | d in s.socks.clients && s.socks.clients[d] in who && d in dead|
  {
  }
}
