/**
 How far the flood of backend/federation/handler.go reaches: who learns of the new server, a federation
 that attains the bound on sends, and who is never told in time.
 */
module GossipReach {
  import opened Common
  import opened Route
  import opened Gossip

  // ---------- Who learns of the server ----------

  /** Every packet that is ever in flight: those at the start, and what the events send. */
  ghost function Traffic(d: nat, w: World, es: seq<Event>): seq<Packet>
    requires CanRun(d, w, es)
    decreases |es|
  {
    if es == [] then [] else SentBy(w, es[0]) + Traffic(d, Apply(d, w, es[0]), es[1..])
  }

  /** All that is in flight announces this server and names this announcer. */
  ghost predicate OneTopic(ps: seq<Packet>, server: Peer, via: int) {
    forall p :: p in ps ==> p.body.server == server && p.body.via == via
  }

  /** The home has a row for the server: the one it had before, and else the announced one. */
  ghost predicate Informed(before: map<int, Tables>, after: map<int, Tables>, at: int, server: Peer, via: int) {
    && at in before && at in after && server.id in after[at].network
    && after[at].network[server.id] ==
       (if server.id in before[at].network then before[at].network[server.id] else Known(server.baseUrl, via))
  }

  /** What a home has for this server stays; what it may gain is the announced row. */
  ghost predicate Settles(before: map<int, Tables>, after: map<int, Tables>, server: Peer, via: int) {
    && before.Keys == after.Keys
    && forall at :: at in before && server.id in after[at].network ==> Informed(before, after, at, server, via)
  }

  ghost predicate Keeps(before: map<int, Tables>, after: map<int, Tables>, id: int) {
    && before.Keys == after.Keys
    && forall at :: at in before && id in before[at].network ==>
         id in after[at].network && after[at].network[id] == before[at].network[id]
  }

  lemma EventSettles(d: nat, w: World, e: Event, server: Peer, via: int)
    requires Enabled(d, w, e) && OneTopic(w.inFlight, server, via)
    ensures Keeps(w.homes, Apply(d, w, e).homes, server.id)
    ensures Settles(w.homes, Apply(d, w, e).homes, server, via)
    ensures e.Deliver? && w.inFlight[e.index].body.hops < 5 ==>
              Informed(w.homes, Apply(d, w, e).homes, w.inFlight[e.index].dest, server, via)
  {
    if e.Deliver? {
      assert w.inFlight[e.index] in w.inFlight;
    }
  }

  lemma EventKeepsTopic(d: nat, w: World, e: Event, server: Peer, via: int)
    requires Enabled(d, w, e) && OneTopic(w.inFlight, server, via)
    ensures OneTopic(Apply(d, w, e).inFlight, server, via) && OneTopic(SentBy(w, e), server, via)
  {
    if e.Deliver? {
      assert w.inFlight[e.index] in w.inFlight;
    }
  }

  lemma SettlesTrans(a: map<int, Tables>, b: map<int, Tables>, c: map<int, Tables>, server: Peer, via: int)
    requires Settles(a, b, server, via) && Keeps(a, b, server.id)
    requires Settles(b, c, server, via) && Keeps(b, c, server.id)
    ensures Settles(a, c, server, via) && Keeps(a, c, server.id)
  {
    forall at | at in a && server.id in c[at].network
      ensures Informed(a, c, at, server, via)
    {
      assert Informed(b, c, at, server, via);
      if server.id in b[at].network {
        assert Informed(a, b, at, server, via);
      }
    }
  }

  lemma {:induction false} RunSettles(d: nat, w: World, es: seq<Event>, server: Peer, via: int)
    requires CanRun(d, w, es) && OneTopic(w.inFlight, server, via)
    ensures Settles(w.homes, After(d, w, es).homes, server, via)
    ensures Keeps(w.homes, After(d, w, es).homes, server.id)
    decreases |es|
  {
    if es != [] {
      EventSettles(d, w, es[0], server, via);
      EventKeepsTopic(d, w, es[0], server, via);
      RunSettles(d, Apply(d, w, es[0]), es[1..], server, via);
      SettlesTrans(w.homes, Apply(d, w, es[0]).homes, After(d, w, es).homes, server, via);
    }
  }

  /** A packet other than the one that an event consumes stays in flight. */
  lemma StaysInFlight(d: nat, w: World, e: Event, p: Packet)
    requires Enabled(d, w, e) && !e.Lose?
    requires p in w.inFlight + SentBy(w, e)
    ensures p in Apply(d, w, e).inFlight || (e.Deliver? && p == w.inFlight[e.index])
  {
    if p in w.inFlight && e.Deliver? {
      assert w.inFlight == w.inFlight[..e.index] + [w.inFlight[e.index]] + w.inFlight[e.index + 1..];
    }
  }

  /**
   A finished flood without losses informs everybody it wrote to: every home to which a packet with
   fewer than five hops was ever sent has a row for the announced server, with the announced URL and
   announcer unless it had one before; and no home gets any other row for it.
   */
  lemma {:induction false} FloodInforms(d: nat, w: World, es: seq<Event>, server: Peer, via: int)
    requires CanRun(d, w, es) && OneTopic(w.inFlight, server, via)
    requires forall e :: e in es ==> !e.Lose?
    requires After(d, w, es).inFlight == []
    ensures Settles(w.homes, After(d, w, es).homes, server, via)
    ensures forall p :: p in w.inFlight + Traffic(d, w, es) && p.body.hops < 5 ==>
              Informed(w.homes, After(d, w, es).homes, p.dest, server, via)
    decreases |es|
  {
    RunSettles(d, w, es, server, via);
    if es != [] {
      var e, t := es[0], Apply(d, w, es[0]);
      assert e in es && forall e' :: e' in es[1..] ==> e' in es;
      EventSettles(d, w, e, server, via);
      EventKeepsTopic(d, w, e, server, via);
      RunSettles(d, t, es[1..], server, via);
      FloodInforms(d, t, es[1..], server, via);
      forall p | p in w.inFlight + Traffic(d, w, es) && p.body.hops < 5
        ensures Informed(w.homes, After(d, w, es).homes, p.dest, server, via)
      {
        if p in w.inFlight + SentBy(w, e) {
          StaysInFlight(d, w, e, p);
        }
        assert p in t.inFlight + Traffic(d, t, es[1..]) || Informed(w.homes, t.homes, p.dest, server, via);
        assert server.id in After(d, w, es).homes[p.dest].network;
      }
    }
  }

  // ---------- A federation that attains it ----------

  function Members(d: nat): (ids: set<int>)
    ensures forall id :: id in ids <==> 0 <= id <= d
  {
    if d == 0 then {0} else Members(d - 1) + {d}
  }

  /** d + 1 homes, each directly connected to all the others, and nobody has heard of the new server. */
  function Clique(d: nat): map<int, Tables> {
    map at | at in Members(d) :: Tables(map id | id in Members(d) - {at} :: Server("", Active), map[])
  }

  /** The neighbours of one member of the clique, in order. */
  function Others(d: nat, at: int): seq<int> {
    seq(d, k => if k < at then k else k + 1)
  }

  lemma OthersAreListed(d: nat, at: int, db: Tables, via: int)
    requires 0 <= at <= d && !(0 <= via <= d)
    requires at in Clique(d) && db.servers == Clique(d)[at].servers
    ensures Lists(Others(d, at), Neighbours(db, via)) && |Others(d, at)| == d
  {
    var rows := Others(d, at);
    forall x
      ensures x in rows <==> x in Neighbours(db, via)
    {
      if x in Neighbours(db, via) {
        assert rows[if x < at then x else x - 1] == x;
      }
    }
  }

  /** A clique somewhere in a flood: whatever the homes have learned, their neighbours are the others. */
  ghost predicate InClique(d: nat, w: World, via: int) {
    && !(0 <= via <= d)
    && w.homes.Keys == Clique(d).Keys
    && (forall at :: at in w.homes ==> w.homes[at].servers == Clique(d)[at].servers)
    && (forall p :: p in w.inFlight ==> p.body.via == via && 0 <= p.dest <= d)
  }

  /** Every packet arrives, and every home reads its neighbours in the same order. */
  ghost predicate InOrder(d: nat, es: seq<Event>) {
    forall e :: e in es ==> e.Deliver? && e.rows == Others(d, e.at)
  }

  /** The packet in front reaches its home, which tells all the others. */
  lemma FrontArrives(d: nat, w: World, via: int) returns (e: Event)
    requires InClique(d, w, via) && w.inFlight != []
    ensures Enabled(d, w, e) && InOrder(d, [e]) && InClique(d, Apply(d, w, e), via)
    ensures FloodOf(d, Apply(d, w, e).inFlight) + |Apply(d, w, e).inFlight| + 1 == FloodOf(d, w.inFlight) + |w.inFlight|
  {
    var p := w.inFlight[0];
    assert p in w.inFlight && p.dest in w.homes;
    var rows := Others(d, p.dest);
    e := Deliver(0, p.dest, rows);
    OthersAreListed(d, p.dest, Handled(w.homes[p.dest], p.body), via);
    var t := Apply(d, w, e);
    assert Without(w.inFlight, 0) == w.inFlight[1..];
    forall q | q in t.inFlight
      ensures q.body.via == via && 0 <= q.dest <= d
    {
      if q !in w.inFlight[1..] {
        var i :| 0 <= i < |rows| && SentBy(w, e)[i] == q;
      }
    }
    FloodOfConcat(d, w.inFlight[1..], SentBy(w, e));
    FloodOfSends(d, p.body, rows);
  }

  /** From such a world every packet can be delivered until none is left. */
  lemma {:induction false} FloodEnds(d: nat, w: World, via: int) returns (es: seq<Event>)
    requires InClique(d, w, via)
    ensures CanRun(d, w, es) && InOrder(d, es) && After(d, w, es).inFlight == []
    decreases FloodOf(d, w.inFlight) + |w.inFlight|
  {
    if w.inFlight == [] {
      es := [];
    } else {
      var e := FrontArrives(d, w, via);
      var rest := FloodEnds(d, Apply(d, w, e), via);
      es := [e] + rest;
      assert e in [e] && es[0] == e && es[1..] == rest;
    }
  }

  lemma InOrderIsFull(d: nat, w: World, es: seq<Event>)
    requires InOrder(d, es)
    ensures FullRun(d, es)
  {
  }

  /**
   The bound is attained. For every d and h there is a federation, one announcement with h hops in
   it and a finished run that makes exactly Flood(d, h) sends: d·2^(4-h) of them if d is at least
   4 - h, and 16·d from h = 0 with four or more neighbours.
   */
  lemma BoundIsAttained(d: nat, h: int, server: Peer) returns (w: World, es: seq<Event>)
    requires h < MAX_HOPS
    ensures w == World(Clique(d), [Packet(0, Announcement(server, -1, h))])
    ensures CanRun(d, w, es) && After(d, w, es).inFlight == []
    ensures TotalSent(d, w, es) == Flood(d, h)
    ensures d == 0 || d >= 4 - h ==> TotalSent(d, w, es) == d * Pow2(4 - h)
  {
    w := World(Clique(d), [Packet(0, Announcement(server, -1, h))]);
    es := FloodEnds(d, w, -1);
    InOrderIsFull(d, w, es);
    FloodIsExact(d, w, es);
    assert FloodOf(d, w.inFlight) == Flood(d, h) + FloodOf(d, []);
    BoundIsReached(d, h);
  }

  /** In a run in order, a home far down the order is only ever told with many hops. */
  ghost predicate Late(h: int, ps: seq<Packet>) {
    forall p :: p in ps ==> 0 <= p.dest && p.body.hops >= h + p.dest
  }

  lemma StaysLate(d: nat, w: World, e: Event, h: int)
    requires Enabled(d, w, e) && InOrder(d, [e]) && Late(h, w.inFlight)
    ensures Late(h, Apply(d, w, e).inFlight)
  {
    assert e in [e];
    var p, sent := w.inFlight[e.index], SentBy(w, e);
    assert p in w.inFlight;
    forall q | q in sent
      ensures 0 <= q.dest && q.body.hops >= h + q.dest
    {
      var i :| 0 <= i < |sent| && sent[i] == q;
      assert q == Packet(e.rows[i], p.body.(hops := p.body.hops + 1 + i));
    }
  }

  lemma NotToldInTime(d: nat, w: World, e: Event, h: int, m: int, id: int)
    requires Enabled(d, w, e) && InOrder(d, [e]) && Late(h, w.inFlight)
    requires h + m >= 5 && m in w.homes && id !in w.homes[m].network
    ensures m in Apply(d, w, e).homes && id !in Apply(d, w, e).homes[m].network
  {
    assert e in [e];
    assert w.inFlight[e.index] in w.inFlight;
  }

  lemma {:induction false} NeverToldInTime(d: nat, w: World, es: seq<Event>, h: int, m: int, id: int)
    requires CanRun(d, w, es) && InOrder(d, es) && Late(h, w.inFlight)
    requires h + m >= 5 && m in w.homes && id !in w.homes[m].network
    ensures m in After(d, w, es).homes && id !in After(d, w, es).homes[m].network
    decreases |es|
  {
    if es != [] {
      assert es[0] in es;
      assert forall e :: e in [es[0]] ==> e == es[0];
      StaysLate(d, w, es[0], h);
      NotToldInTime(d, w, es[0], h, m, id);
      NeverToldInTime(d, Apply(d, w, es[0]), es[1..], h, m, id);
    }
  }

  /**
   How far a flood reaches. Hops are counted per neighbour and not per step, so where homes read their
   neighbours in the same order, every finished flood from h hops in a clique informs exactly the homes
   0 to 4 - h; the others are written to, but only with five hops or more, and ignore it.
   */
  lemma CliqueReach(d: nat, h: int, server: Peer, es: seq<Event>, m: int)
    requires h < MAX_HOPS && 0 <= m <= d
    requires var w := World(Clique(d), [Packet(0, Announcement(server, -1, h))]);
             CanRun(d, w, es) && InOrder(d, es) && After(d, w, es).inFlight == []
    ensures var after := After(d, World(Clique(d), [Packet(0, Announcement(server, -1, h))]), es).homes;
            m in after && (server.id in after[m].network <==> h + m < 5)
  {
    var w := World(Clique(d), [Packet(0, Announcement(server, -1, h))]);
    if h + m < 5 {
      var p := ToldDirectly(d, w, es, m);
      FloodInforms(d, w, es, server, -1);
    } else {
      NeverToldInTime(d, w, es, h, m, server.id);
    }
  }

  /** And there is such a flood. */
  lemma CliqueFloods(d: nat, h: int, server: Peer) returns (es: seq<Event>)
    ensures var w := World(Clique(d), [Packet(0, Announcement(server, -1, h))]);
            CanRun(d, w, es) && InOrder(d, es) && After(d, w, es).inFlight == []
  {
    es := FloodEnds(d, World(Clique(d), [Packet(0, Announcement(server, -1, h))]), -1);
  }

  /** The first home writes to home m with m hops more. */
  lemma ToldDirectly(d: nat, w: World, es: seq<Event>, m: int) returns (p: Packet)
    requires CanRun(d, w, es) && InOrder(d, es) && After(d, w, es).inFlight == []
    requires |w.inFlight| == 1 && w.inFlight[0].dest == 0 && w.inFlight[0].body.hops < 5 && 0 <= m <= d
    ensures p in w.inFlight + Traffic(d, w, es) && p.dest == m && p.body.hops == w.inFlight[0].body.hops + m
  {
    p := w.inFlight[0];
    if m > 0 {
      var e := es[0];
      assert e in es && e.rows == Others(d, 0);
      var sent := SentBy(w, e);
      p := sent[m - 1];
      assert p in sent && p in Traffic(d, w, es);
    }
  }
}
