/**
 backend/handlers/handlers.go, runHub: the goroutine that owns the sockets, the presence set and the
 grace timers. Each case of its select loop is one method. Map ranges run in any order, and the set
 `dead` says which sockets fail the writes of that event.
 */
module Hub {
  import opened Common

  const EXPIRY_CHANNEL := 1024

  type Conn = int
  type Uid = int

  /** The socket table: who is behind each socket, when it was registered, and the two counters. */
  datatype Sockets = Sockets(clients: map<Conn, Uid>, since: map<Conn, int>, total: int, closed: int)

  /**
   The hub's own fields, then what surrounds it: the timers whose callback is still to come, the
   graceExpired channel, the sockets whose unregister is still to come, the users whose expiry found
   the channel full since they were last seen, and the running counts of registrations and evictions.
   */
  datatype State = State(
    socks: Sockets, online: set<Uid>, graceTimers: map<Uid, int>, messages: int, writeErrors: int, cap: nat,
    running: map<int, Uid>, nextTimer: int, expired: seq<Uid>,
    pending: map<Conn, Uid>, dropped: set<Uid>, registered: int, evicted: int)

  function Start(cap: nat): State {
    State(Sockets(map[], map[], 0, 0), {}, map[], 0, 0, cap, map[], 0, [], map[], {}, 0, 0)
  }

  function SocketsOf(clients: map<Conn, Uid>, uid: Uid): set<Conn> {
    set c | c in clients && clients[c] == uid
  }

  predicate HasSocket(clients: map<Conn, Uid>, uid: Uid) {
    exists c :: c in clients && clients[c] == uid
  }

  function Audience(clients: map<Conn, Uid>, who: set<Uid>): set<Conn> {
    set c | c in clients && clients[c] in who
  }

  /** The sockets of the audience that fail the write. */
  function Failing(clients: map<Conn, Uid>, who: set<Uid>, dead: set<Conn>): set<Conn> {
    set c | c in clients && clients[c] in who && c in dead
  }

  function FailingAny(clients: map<Conn, Uid>, dead: set<Conn>): set<Conn> {
    set c | c in clients && c in dead
  }

  // ---------- Presence frames ----------

  datatype Frame = UserOnline(uid: Uid) | UserOffline(uid: Uid)

  datatype Sent = Sent(to: Conn, frame: Frame)

  function Recipients(sent: seq<Sent>): seq<Conn> {
    seq(|sent|, i requires 0 <= i < |sent| => sent[i].to)
  }

  /** This frame, and no other, was written once to each of these sockets. */
  ghost predicate Told(sent: seq<Sent>, conns: set<Conn>, frame: Frame) {
    Lists(Recipients(sent), conns) && forall i :: 0 <= i < |sent| ==> sent[i].frame == frame
  }

  // ---------- Steps on the socket table ----------

  /** Closing some live sockets through closeConn. */
  function CloseAll(s: Sockets, gone: set<Conn>): Sockets {
    Sockets(s.clients - gone, s.since - gone, s.total - |gone|, s.closed + |gone|)
  }

  function Insert(s: Sockets, c: Conn, uid: Uid, now: int): Sockets {
    Sockets(s.clients[c := uid], s.since[c := now], s.total + 1, s.closed)
  }

  /** dropStaleSockets removes sockets without counting them as closed. */
  function Evict(s: Sockets, victims: set<Conn>): Sockets {
    Sockets(s.clients - victims, s.since - victims, s.total - |victims|, s.closed)
  }

  function Age(since: map<Conn, int>, c: Conn): int {
    if c in since then since[c] else 0
  }

  function Older(since: map<Conn, int>): (Conn, Conn) -> bool {
    (a: Conn, b: Conn) => Age(since, a) < Age(since, b)
  }

  /** The sockets dropStaleSockets may close: as many as exceed the cap, none younger than one it keeps. */
  ghost predicate Stale(s: Sockets, uid: Uid, cap: nat, victims: set<Conn>) {
    var mine := SocketsOf(s.clients, uid);
    && victims <= mine
    && |victims| == (if |mine| <= cap then 0 else |mine| - cap)
    && forall v, k :: v in victims && k in mine - victims ==> Age(s.since, v) <= Age(s.since, k)
  }

  // ---------- Steps of the hub ----------

  function Arm(s: State, uid: Uid): State {
    s.(graceTimers := s.graceTimers[uid := s.nextTimer], running := s.running[s.nextTimer := uid],
       nextTimer := s.nextTimer + 1, dropped := s.dropped - {uid})
  }

  /** Stop comes too late for a timer that has gone off and whose callback is still on its way. */
  function CancelGrace(s: State, uid: Uid, late: bool): State {
    if uid in s.graceTimers
    then s.(running := if late then s.running else s.running - {s.graceTimers[uid]}, graceTimers := s.graceTimers - {uid})
    else s
  }

  /** The first socket of a user is announced to everybody; sockets that fail the write are closed. */
  function AnnounceOnline(s: State, uid: Uid, dead: set<Conn>): State {
    if uid in s.online then s
    else s.(online := s.online + {uid}, socks := CloseAll(s.socks, FailingAny(s.socks.clients, dead)))
  }

  function Admitted(s: State, c: Conn, uid: Uid, now: int, victims: set<Conn>): State {
    s.(socks := Evict(Insert(s.socks, c, uid, now), victims), pending := s.pending[c := uid],
       dropped := s.dropped - {uid}, registered := s.registered + 1, evicted := s.evicted + |victims|)
  }

  function RegisterStep(s: State, c: Conn, uid: Uid, now: int, late: bool, victims: set<Conn>, dead: set<Conn>): State {
    AnnounceOnline(CancelGrace(Admitted(s, c, uid, now, victims), uid, late), uid, dead)
  }

  function UnregisterStep(s: State, c: Conn, uid: Uid): State {
    var s1 := s.(socks := if c in s.socks.clients then CloseAll(s.socks, {c}) else s.socks, pending := s.pending - {c});
    if !HasSocket(s1.socks.clients, uid) && uid in s1.online then Arm(s1, uid) else s1
  }

  /** A timer fires: its callback offers the user to the channel and gives up when it is full. */
  function FireStep(s: State, t: int): State
    requires t in s.running
  {
    var s1 := s.(running := s.running - {t});
    if |s.expired| < EXPIRY_CHANNEL then s1.(expired := s.expired + [s.running[t]])
    else s1.(dropped := s.dropped + {s.running[t]})
  }

  function ExpireStep(s: State, dead: set<Conn>): State
    requires s.expired != []
  {
    var uid := s.expired[0];
    var s1 := s.(expired := s.expired[1..], graceTimers := s.graceTimers - {uid});
    if !HasSocket(s.socks.clients, uid) && uid in s.online
    then s1.(online := s.online - {uid}, socks := CloseAll(s.socks, FailingAny(s.socks.clients, dead)))
    else s1
  }

  function ForceOfflineStep(s: State, uid: Uid): State {
    Arm(s.(socks := CloseAll(s.socks, SocketsOf(s.socks.clients, uid)), online := s.online + {uid}), uid)
  }

  /** Writing one frame to every socket of some users; sockets that fail are closed and counted. */
  function FanOut(s: State, who: set<Uid>, dead: set<Conn>): State {
    var failed := Failing(s.socks.clients, who, dead);
    s.(socks := CloseAll(s.socks, failed), writeErrors := s.writeErrors + |failed|)
  }

  function DirectStep(s: State, sender: Uid, to: Uid, dead: set<Conn>): State {
    FanOut(s, {to, sender}, dead).(messages := s.messages + 1)
  }

  /** Some live socket of the user takes the frame. */
  predicate Reached(clients: map<Conn, Uid>, uid: Uid, dead: set<Conn>) {
    exists c :: c in SocketsOf(clients, uid) && c !in dead
  }

  function Unreached(clients: map<Conn, Uid>, who: set<Uid>, dead: set<Conn>): set<Uid> {
    set m | m in who && !Reached(clients, m, dead)
  }

  // ---------- The hub as an object ----------

  class RunHub {
    var clients: map<Conn, Uid>
    var connOpened: map<Conn, int>
    var online: set<Uid>
    var graceTimers: map<Uid, int>
    var total: int
    var closed: int
    var messages: int
    var writeErrors: int
    const cap: nat
    var running: map<int, Uid>
    var nextTimer: int
    var expired: seq<Uid>
    ghost var pending: map<Conn, Uid>
    ghost var dropped: set<Uid>
    ghost var registered: int
    ghost var evicted: int

    ghost function Socks(): Sockets
      reads this`clients, this`connOpened, this`total, this`closed
    {
      Sockets(clients, connOpened, total, closed)
    }

    ghost function View(): State
      reads this
    {
      State(Socks(), online, graceTimers, messages, writeErrors, cap,
            running, nextTimer, expired, pending, dropped, registered, evicted)
    }

    constructor (cap: nat)
      ensures View() == Start(cap)
    {
      this.cap := cap;
      clients, connOpened, online, graceTimers := map[], map[], {}, map[];
      total, closed, messages, writeErrors := 0, 0, 0, 0;
      running, nextTimer, expired := map[], 0, [];
      pending, dropped, registered, evicted := map[], {}, 0, 0;
    }

    method CloseConn(c: Conn)
      modifies this`clients, this`connOpened, this`total, this`closed
      ensures Socks() == if c in old(clients) then CloseAll(old(Socks()), {c}) else old(Socks())
    {
      if c !in clients {
        return;
      }
      clients := clients - {c};
      connOpened := connOpened - {c};
      total := total - 1;
      closed := closed + 1;
    }

    /**
     One pass over the clients that writes a frame to every socket of the given users. `delivered`
     says whether some socket of `wanted` took it.
     */
    method WriteTo(who: set<Uid>, wanted: Uid, dead: set<Conn>)
      returns (written: seq<Conn>, failures: nat, delivered: bool)
      modifies this`clients, this`connOpened, this`total, this`closed
      ensures Lists(written, Audience(old(clients), who))
      ensures Socks() == CloseAll(old(Socks()), Failing(old(clients), who, dead))
      ensures failures == |Failing(old(clients), who, dead)|
      ensures wanted in who ==> (delivered <==> Reached(old(clients), wanted, dead))
    {
      written, failures, delivered := [], 0, false;
      ghost var was := Socks();
      ghost var failed: set<Conn> := {};
      var rows := AnyOrder(clients.Keys);
      for i := 0 to |rows|
        invariant NoDup(written)
        invariant forall c :: c in written <==> c in rows[..i] && was.clients[c] in who
        invariant forall c :: c in failed <==> c in written && c in dead
        invariant Socks() == CloseAll(was, failed)
        invariant failures == |failed|
        invariant delivered <==> exists c :: c in written && was.clients[c] == wanted && c !in dead
      {
        var c := rows[i];
        assert rows[..i + 1] == rows[..i] + [c];
        assert c in Elems(rows) && c !in rows[..i];
        assert c in clients && clients[c] == was.clients[c];
        if clients[c] in who {
          written := written + [c];
          if c in dead {
            failures := failures + 1;
            CloseMore(was, failed, c);
            failed := failed + {c};
            CloseConn(c);
          } else if clients[c] == wanted {
            delivered := true;
          }
        }
      }
      forall c
        ensures c in written <==> c in Audience(was.clients, who)
        ensures c in failed <==> c in Failing(was.clients, who, dead)
      {
        AllRows(rows, was.clients.Keys, c);
      }
      assert Elems(written) == Audience(was.clients, who);
      assert failed == Failing(was.clients, who, dead);
      assert delivered ==> Reached(was.clients, wanted, dead);
    }

    method DropStaleSockets(uid: Uid) returns (victims: set<Conn>)
      modifies this`clients, this`connOpened, this`total, this`evicted
      ensures Stale(old(Socks()), uid, cap, victims)
      ensures Socks() == Evict(old(Socks()), victims)
      ensures evicted == old(evicted) + |victims|
    {
      victims := {};
      var listed := AnyOrder(SocketsOf(clients, uid));
      NoDupCardinality(listed);
      if |listed| <= cap {
        return;
      }
      var mine := SortBy(listed, Older(connOpened));
      SortByLists(listed, SocketsOf(clients, uid), Older(connOpened));
      var excess := |mine| - cap;
      PrefixIsStale(Socks(), uid, cap, mine, Elems(mine[..excess]));
      victims := CloseFirst(mine, excess);
    }

    /** Close the first `excess` sockets of a list. */
    method CloseFirst(mine: seq<Conn>, excess: nat) returns (victims: set<Conn>)
      requires NoDup(mine) && excess <= |mine|
      modifies this`clients, this`connOpened, this`total, this`evicted
      ensures victims == Elems(mine[..excess])
      ensures Socks() == Evict(old(Socks()), victims)
      ensures evicted == old(evicted) + |victims|
    {
      victims := {};
      ghost var was := Socks();
      for i := 0 to excess
        invariant victims == Elems(mine[..i])
        invariant Socks() == Evict(was, victims)
        invariant evicted == old(evicted) + |victims|
      {
        PrefixGrows(mine, i);
        EvictMore(was, victims, mine[i]);
        victims := victims + {mine[i]};
        EvictOne(mine[i]);
      }
    }

    method EvictOne(c: Conn)
      modifies this`clients, this`connOpened, this`total, this`evicted
      ensures Socks() == Evict(old(Socks()), {c}) && evicted == old(evicted) + 1
    {
      clients := clients - {c};
      connOpened := connOpened - {c};
      total := total - 1;
      evicted := evicted + 1;
    }

    /**
     `late` says that the timer on record has gone off already. Everybody connected, the newcomer
     included, is told once that a user has come online, and nobody when the user was online.
     */
    method Register(c: Conn, uid: Uid, now: int, late: bool, dead: set<Conn>) returns (victims: set<Conn>, sent: seq<Sent>)
      modifies this
      ensures uid in old(online) ==> sent == []
      ensures uid !in old(online) ==> Told(sent, old(clients).Keys + {c} - victims, UserOnline(uid))
      ensures Stale(Insert(old(Socks()), c, uid, now), uid, cap, victims)
      ensures View() == RegisterStep(old(View()), c, uid, now, late, victims, dead)
    {
      victims := Admit(c, uid, now);
      StopGrace(uid, late);
      sent := ShowOnline(uid, dead);
    }

    /** A reconnect within the grace period. Only the timer on record can be stopped. */
    method StopGrace(uid: Uid, late: bool)
      modifies this`graceTimers, this`running
      ensures View() == CancelGrace(old(View()), uid, late)
    {
      if uid in graceTimers {
        if !late {
          running := running - {graceTimers[uid]};
        }
        graceTimers := graceTimers - {uid};
      }
    }

    method ShowOnline(uid: Uid, dead: set<Conn>) returns (sent: seq<Sent>)
      modifies this`online, this`clients, this`connOpened, this`total, this`closed
      ensures View() == AnnounceOnline(old(View()), uid, dead)
      ensures uid in old(online) ==> sent == []
      ensures uid !in old(online) ==> Told(sent, old(clients).Keys, UserOnline(uid))
    {
      sent := [];
      if uid !in online {
        online := online + {uid};
        sent := Announce(UserOnline(uid), dead);
      }
    }

    /** The new socket goes in first, and the cap is enforced after that. */
    method Admit(c: Conn, uid: Uid, now: int) returns (victims: set<Conn>)
      modifies this`clients, this`connOpened, this`total, this`pending, this`registered, this`evicted, this`dropped
      ensures Stale(Insert(old(Socks()), c, uid, now), uid, cap, victims)
      ensures View() == Admitted(old(View()), c, uid, now, victims)
      ensures clients.Keys == old(clients).Keys + {c} - victims
    {
      victims := AdmitSocket(c, uid, now);
      AdmittedKeys(old(Socks()), c, uid, now, victims);
      pending, registered, dropped := pending[c := uid], registered + 1, dropped - {uid};
    }

    method AdmitSocket(c: Conn, uid: Uid, now: int) returns (victims: set<Conn>)
      modifies this`clients, this`connOpened, this`total, this`evicted
      ensures Stale(Insert(old(Socks()), c, uid, now), uid, cap, victims)
      ensures Socks() == Evict(Insert(old(Socks()), c, uid, now), victims)
      ensures evicted == old(evicted) + |victims|
    {
      InsertSocket(c, uid, now);
      victims := DropStaleSockets(uid);
    }

    method InsertSocket(c: Conn, uid: Uid, now: int)
      modifies this`clients, this`connOpened, this`total
      ensures Socks() == Insert(old(Socks()), c, uid, now)
    {
      clients := clients[c := uid];
      connOpened := connOpened[c := now];
      total := total + 1;
    }

    /** A presence frame to every live socket. */
    method Announce(frame: Frame, dead: set<Conn>) returns (sent: seq<Sent>)
      modifies this`clients, this`connOpened, this`total, this`closed
      ensures Told(sent, old(clients).Keys, frame)
      ensures Socks() == CloseAll(old(Socks()), FailingAny(old(clients), dead))
    {
      assert Failing(clients, clients.Values, dead) == FailingAny(clients, dead);
      assert Audience(clients, clients.Values) == clients.Keys;
      var written, _, _ := WriteTo(clients.Values, 0, dead);
      sent := seq(|written|, i requires 0 <= i < |written| => Sent(written[i], frame));
      assert Recipients(sent) == written;
    }

    method Unregister(c: Conn, uid: Uid)
      modifies this
      ensures View() == UnregisterStep(old(View()), c, uid)
    {
      CloseConn(c);
      pending := pending - {c};
      if !HasSocket(clients, uid) && uid in online {
        StartGrace(uid);
      }
    }

    method StartGrace(uid: Uid)
      modifies this`graceTimers, this`running, this`nextTimer, this`dropped
      ensures View() == Arm(old(View()), uid)
    {
      graceTimers := graceTimers[uid := nextTimer];
      running := running[nextTimer := uid];
      nextTimer := nextTimer + 1;
      dropped := dropped - {uid};
    }

    method TimerFires(t: int)
      requires t in running
      modifies this
      ensures View() == FireStep(old(View()), t)
      ensures |old(expired)| < 1024 ==> expired == old(expired) + [old(running)[t]] && dropped == old(dropped)
      ensures |old(expired)| >= 1024 ==> expired == old(expired)
    {
      var uid := running[t];
      running := running - {t};
      if |expired| < EXPIRY_CHANNEL {
        expired := expired + [uid];
      } else {
        dropped := dropped + {uid};
      }
    }

    /** Everybody connected is told once that the user has gone offline, if that is so. */
    method GraceExpired(dead: set<Conn>) returns (sent: seq<Sent>)
      requires expired != []
      modifies this
      ensures View() == ExpireStep(old(View()), dead)
      ensures var uid := old(expired)[0];
              if uid in old(online) && uid !in online then Told(sent, old(clients).Keys, UserOffline(uid)) else sent == []
    {
      var uid := TakeExpired();
      sent := [];
      if !HasSocket(clients, uid) && uid in online {
        sent := ShowOffline(uid, dead);
      }
    }

    method TakeExpired() returns (uid: Uid)
      requires expired != []
      modifies this`expired, this`graceTimers
      ensures uid == old(expired)[0]
      ensures View() == old(View()).(expired := old(expired)[1..], graceTimers := old(graceTimers) - {uid})
    {
      uid := expired[0];
      expired := expired[1..];
      graceTimers := graceTimers - {uid};
    }

    method ShowOffline(uid: Uid, dead: set<Conn>) returns (sent: seq<Sent>)
      modifies this`online, this`clients, this`connOpened, this`total, this`closed
      ensures Told(sent, old(clients).Keys, UserOffline(uid))
      ensures View() == old(View()).(online := old(online) - {uid},
                                     socks := CloseAll(old(Socks()), FailingAny(old(clients), dead)))
    {
      online := online - {uid};
      sent := Announce(UserOffline(uid), dead);
    }

    method ForceOffline(uid: Uid)
      modifies this
      ensures View() == ForceOfflineStep(old(View()), uid)
    {
      CloseAllOf(uid);
      if uid !in online {
        online := online + {uid};
      }
      assert online == old(online) + {uid};
      StartGrace(uid);
    }

    method CloseAllOf(uid: Uid)
      modifies this`clients, this`connOpened, this`total, this`closed
      ensures Socks() == CloseAll(old(Socks()), SocketsOf(old(clients), uid))
    {
      ghost var was := Socks();
      var rows := AnyOrder(clients.Keys);
      ghost var gone: set<Conn> := {};
      for i := 0 to |rows|
        invariant forall c :: c in gone <==> c in rows[..i] && was.clients[c] == uid
        invariant Socks() == CloseAll(was, gone)
      {
        var c := rows[i];
        assert rows[..i + 1] == rows[..i] + [c];
        assert c in Elems(rows) && c !in rows[..i];
        if clients[c] == uid {
          CloseMore(was, gone, c);
          gone := gone + {c};
          CloseConn(c);
        }
      }
      forall c
        ensures c in gone <==> c in SocketsOf(was.clients, uid)
      {
        AllRows(rows, was.clients.Keys, c);
      }
      assert gone == SocketsOf(was.clients, uid);
    }

    /** WriteTo, with its failures counted as write errors. */
    method WriteCounted(who: set<Uid>, wanted: Uid, dead: set<Conn>) returns (written: seq<Conn>, delivered: bool)
      modifies this`clients, this`connOpened, this`total, this`closed, this`writeErrors
      ensures View() == FanOut(old(View()), who, dead)
      ensures Lists(written, Audience(old(clients), who))
      ensures wanted in who ==> (delivered <==> Reached(old(clients), wanted, dead))
    {
      var failures: nat;
      written, failures, delivered := WriteTo(who, wanted, dead);
      writeErrors := writeErrors + failures;
    }

    /**
     A direct message: the sockets it was written to, and whether a push follows. With an id, either
     a socket of the recipient took the frame or a push follows, never both.
     */
    method Broadcast(id: int, sender: Uid, to: Uid, dead: set<Conn>) returns (written: seq<Conn>, push: bool)
      modifies this`clients, this`connOpened, this`total, this`closed, this`writeErrors, this`messages
      ensures View() == DirectStep(old(View()), sender, to, dead)
      ensures Lists(written, Audience(old(clients), {to, sender}))
      ensures push <==> id > 0 && !Took(written, old(clients), to, dead)
    {
      messages := messages + 1;
      var delivered: bool;
      written, delivered := WriteCounted({to, sender}, to, dead);
      TookIffReached(written, old(clients), {to, sender}, to, dead);
      push := !delivered && id > 0;
    }

    /** broadcastToUser, and with all users broadcastAll: no push behind it. */
    method BroadcastTo(who: set<Uid>, dead: set<Conn>) returns (written: seq<Conn>)
      modifies this`clients, this`connOpened, this`total, this`closed, this`writeErrors
      ensures View() == FanOut(old(View()), who, dead)
      ensures Lists(written, Audience(old(clients), who))
    {
      var delivered: bool;
      written, delivered := WriteCounted(who, 0, dead);
    }

    /**
     A group message: every member but the author is written to in turn, and gets a push exactly when
     no socket of theirs took the frame. `rows` are the member rows, distinct by the table's key.
     */
    method BroadcastGroup(rows: seq<Uid>, author: Uid, dead: set<Conn>) returns (written: seq<Conn>, pushes: seq<Uid>)
      requires NoDup(rows)
      modifies this`clients, this`connOpened, this`total, this`closed, this`writeErrors
      ensures View() == FanOut(old(View()), Elems(rows) - {author}, dead)
      ensures Settled(old(clients), Elems(rows), author, dead, written, pushes)
    {
      written, pushes := [], [];
      ghost var was := View();
      ghost var done: set<Uid> := {};
      for i := 0 to |rows|
        invariant forall m :: m in done <==> m in rows[..i] && m != author
        invariant View() == FanOut(was, done, dead)
        invariant Lists(written, Audience(was.socks.clients, done))
        invariant Lists(pushes, Unreached(was.socks.clients, done, dead))
      {
        assert rows[..i + 1] == rows[..i] + [rows[i]] && rows[i] !in rows[..i];
        if rows[i] != author {
          var more, delivered := ToMember(rows[i], was, done, dead);
          AppendLists(written, more, Audience(was.socks.clients, done), Audience(was.socks.clients, {rows[i]}));
          written := written + more;
          UnreachedGrows(was.socks.clients, done, rows[i], dead);
          if !delivered {
            AppendLists(pushes, [rows[i]], Unreached(was.socks.clients, done, dead), {rows[i]});
            pushes := pushes + [rows[i]];
          }
          done := done + {rows[i]};
        }
      }
      forall m
        ensures m in done <==> m in Elems(rows) - {author}
      {
        AllRows(rows, Elems(rows), m);
      }
      assert done == Elems(rows) - {author};
      DeliverOrPush(was.socks.clients, Elems(rows), author, dead, written, pushes);
    }

    /** One pass of the inner loop. */
    method ToMember(m: Uid, ghost was: State, ghost done: set<Uid>, dead: set<Conn>)
      returns (written: seq<Conn>, delivered: bool)
      requires m !in done && View() == FanOut(was, done, dead)
      modifies this`clients, this`connOpened, this`total, this`closed, this`writeErrors
      ensures View() == FanOut(was, done + {m}, dead)
      ensures Lists(written, Audience(was.socks.clients, {m}))
      ensures Audience(was.socks.clients, done) !! Audience(was.socks.clients, {m})
      ensures Audience(was.socks.clients, done + {m}) == Audience(was.socks.clients, done) + Audience(was.socks.clients, {m})
      ensures delivered <==> Reached(was.socks.clients, m, dead)
    {
      MemberStep(was, done, m, dead);
      written, delivered := WriteCounted({m}, m, dead);
    }
  }

  // ---------- Facts about the loops ----------

  lemma AllRows<T>(rows: seq<T>, all: set<T>, x: T)
    requires Lists(rows, all)
    ensures x in rows[..|rows|] <==> x in all
  {
    assert rows[..|rows|] == rows;
    assert x in Elems(rows) <==> x in rows;
  }

  /** Two listings of disjoint sets, one after the other. */
  lemma AppendLists<T>(a: seq<T>, b: seq<T>, x: set<T>, y: set<T>)
    requires Lists(a, x) && Lists(b, y) && x !! y
    ensures Lists(a + b, x + y)
  {
    forall i, j | 0 <= i < j < |a + b|
      ensures (a + b)[i] != (a + b)[j]
    {
      if i < |a| <= j {
        assert a[i] in Elems(a) && b[j - |a|] in Elems(b);
      }
    }
    assert Elems(a + b) == Elems(a) + Elems(b);
  }

  /** Closing in two rounds is closing at once. */
  lemma CloseTwice(was: Sockets, first: set<Conn>, second: set<Conn>)
    requires first !! second
    ensures CloseAll(CloseAll(was, first), second) == CloseAll(was, first + second)
    ensures |first + second| == |first| + |second|
  {
    assert |first + second| == |first| + |second|;
    assert (was.clients - first) - second == was.clients - (first + second);
    assert (was.since - first) - second == was.since - (first + second);
  }

  lemma CloseMore(was: Sockets, gone: set<Conn>, c: Conn)
    requires c in was.clients && c !in gone
    ensures c in CloseAll(was, gone).clients
    ensures CloseAll(was, gone + {c}) == CloseAll(CloseAll(was, gone), {c})
  {
    CloseTwice(was, gone, {c});
  }

  lemma AdmittedKeys(was: Sockets, c: Conn, uid: Uid, now: int, victims: set<Conn>)
    ensures Evict(Insert(was, c, uid, now), victims).clients.Keys == was.clients.Keys + {c} - victims
  {
    KeysPut(was.clients, c, uid);
    KeysMinus(was.clients[c := uid], victims);
  }

  lemma PrefixGrows(mine: seq<Conn>, i: nat)
    requires NoDup(mine) && i < |mine|
    ensures Elems(mine[..i + 1]) == Elems(mine[..i]) + {mine[i]} && mine[i] !in Elems(mine[..i])
  {
    assert mine[..i + 1] == mine[..i] + [mine[i]];
  }

  lemma EvictMore(was: Sockets, victims: set<Conn>, v: Conn)
    requires v !in victims
    ensures Evict(was, victims + {v}) == Evict(Evict(was, victims), {v})
  {
    assert (was.clients - victims) - {v} == was.clients - (victims + {v});
    assert (was.since - victims) - {v} == was.since - (victims + {v});
  }

  lemma UnreachedGrows(clients: map<Conn, Uid>, done: set<Uid>, m: Uid, dead: set<Conn>)
    requires m !in done
    ensures m !in Unreached(clients, done, dead)
    ensures Unreached(clients, done + {m}, dead) ==
            if Reached(clients, m, dead) then Unreached(clients, done, dead) else Unreached(clients, done, dead) + {m}
  {
  }

  /** Writing to one more member touches only that member's sockets, which are all still there. */
  lemma MemberStep(was: State, done: set<Uid>, m: Uid, dead: set<Conn>)
    requires m !in done
    ensures var s, clients := FanOut(was, done, dead), was.socks.clients;
            && Audience(s.socks.clients, {m}) == Audience(clients, {m})
            && Audience(clients, done) !! Audience(clients, {m})
            && Audience(clients, done + {m}) == Audience(clients, done) + Audience(clients, {m})
            && (Reached(s.socks.clients, m, dead) <==> Reached(clients, m, dead))
            && FanOut(s, {m}, dead) == FanOut(was, done + {m}, dead)
  {
    var s, clients := FanOut(was, done, dead), was.socks.clients;
    var a, b := Failing(clients, done, dead), Failing(clients, {m}, dead);
    assert Audience(s.socks.clients, {m}) == Audience(clients, {m});
    assert SocketsOf(s.socks.clients, m) == SocketsOf(clients, m);
    assert Audience(clients, done + {m}) == Audience(clients, done) + Audience(clients, {m});
    assert Failing(clients, done + {m}, dead) == a + b;
    assert Failing(s.socks.clients, {m}, dead) == b;
    CloseTwice(was.socks, a, b);
  }

  /** The oldest sockets in a list sorted by age are the ones dropStaleSockets may take. */
  lemma PrefixIsStale(was: Sockets, uid: Uid, cap: nat, mine: seq<Conn>, victims: set<Conn>)
    requires Lists(mine, SocketsOf(was.clients, uid)) && Sorted(mine, Older(was.since))
    requires |mine| == |SocketsOf(was.clients, uid)| > cap
    requires victims == Elems(mine[..|mine| - cap])
    ensures Stale(was, uid, cap, victims)
  {
    NoDupCardinality(mine[..|mine| - cap]);
    forall v | v in victims
      ensures v in SocketsOf(was.clients, uid)
    {
      assert v in Elems(mine);
    }
    forall v, k | v in victims && k in SocketsOf(was.clients, uid) - victims
      ensures Age(was.since, v) <= Age(was.since, k)
    {
      assert k in Elems(mine);
      var old_ones := mine[..|mine| - cap];
      assert mine == old_ones + mine[|mine| - cap..];
      var i :| 0 <= i < |old_ones| && old_ones[i] == v;
      assert k !in old_ones && k in mine[|mine| - cap..];
      var j :| 0 <= j < cap && mine[|mine| - cap..][j] == k;
      assert !Older(was.since)(mine[|mine| - cap + j], mine[i]);
    }
  }

  // ---------- Deliver or push ----------

  /** Some socket of m was written to and took the frame. */
  ghost predicate Took(written: seq<Conn>, clients: map<Conn, Uid>, m: Uid, dead: set<Conn>) {
    exists c :: c in written && c in SocketsOf(clients, m) && c !in dead
  }

  lemma TookIffReached(written: seq<Conn>, clients: map<Conn, Uid>, who: set<Uid>, m: Uid, dead: set<Conn>)
    requires Lists(written, Audience(clients, who)) && m in who
    ensures Took(written, clients, m, dead) <==> Reached(clients, m, dead)
  {
    if Reached(clients, m, dead) {
      var c :| c in SocketsOf(clients, m) && c !in dead;
      assert c in Elems(written);
    }
  }

  /**
   Every member but the author has either a socket that took the frame or exactly one push, never
   both; nobody else is written to or pushed to, and no socket is written to twice.
   */
  ghost predicate Settled(clients: map<Conn, Uid>, members: set<Uid>, author: Uid, dead: set<Conn>,
                          written: seq<Conn>, pushes: seq<Uid>) {
    && NoDup(written) && NoDup(pushes)
    && (forall m :: m in pushes <==> m in members && m != author && !Took(written, clients, m, dead))
    && (forall c :: c in written <==> c in clients && clients[c] in members && clients[c] != author)
  }

  /** Writing to everybody's sockets and pushing to the unreached settles a group message. */
  lemma DeliverOrPush(clients: map<Conn, Uid>, members: set<Uid>, author: Uid, dead: set<Conn>,
                      written: seq<Conn>, pushes: seq<Uid>)
    requires Lists(written, Audience(clients, members - {author}))
    requires Lists(pushes, Unreached(clients, members - {author}, dead))
    ensures Settled(clients, members, author, dead, written, pushes)
  {
    forall c
      ensures c in written <==> c in clients && clients[c] in members && clients[c] != author
    {
      assert c in written <==> c in Elems(written);
    }
    forall m
      ensures m in pushes <==> m in members && m != author && !Took(written, clients, m, dead)
    {
      assert m in pushes <==> m in Elems(pushes);
      if m in members && m != author {
        TookIffReached(written, clients, members - {author}, m, dead);
      }
    }
  }
}
