/**
 backend/federation/handler.go, HandleGossipNewPeer: the hop-limited flood that tells every
 household about a new one. A home is modelled as the object the handler updates; the whole
 federation is a set of homes and a list of announcements in flight, delivered in any order.
 */
module Gossip {
  import opened Common
  import opened Route

  const MAX_HOPS := 5

  datatype Peer = Peer(id: int, baseUrl: string)

  /** The body of /gossip/new-peer. The hop count comes off the wire, so it may be negative. */
  datatype Announcement = Announcement(server: Peer, via: int, hops: int)

  datatype Packet = Packet(dest: int, body: Announcement)

  datatype Reply = MaxHopsReached | Propagated

  // ---------- One home ----------

  /** INSERT OR IGNORE: the first row written for a server stays. */
  function Learn(db: Tables, req: Announcement): Tables {
    if req.server.id in db.network then db
    else db.(network := db.network[req.server.id := Known(req.server.baseUrl, req.via)])
  }

  function Handled(db: Tables, req: Announcement): Tables {
    if req.hops >= MAX_HOPS then db else Learn(db, req)
  }

  function Neighbours(db: Tables, via: int): set<int> {
    ActiveIds(db) - {via}
  }

  /** What one accepted announcement sends on: the i-th neighbour is told i + 1 more hops. */
  function Sends(req: Announcement, rows: seq<int>): seq<Packet> {
    seq(|rows|, i requires 0 <= i < |rows| => Packet(rows[i], req.(hops := req.hops + 1 + i)))
  }

  /**
   Every active server but the announcing one is told exactly once, the i-th of them with i + 1 hops
   more, and about the same server by the same announcer.
   */
  ghost predicate Announces(db: Tables, req: Announcement, rows: seq<int>, sent: seq<Packet>) {
    && NoDup(rows) && |sent| == |rows|
    && (forall id :: id in rows <==> id in db.servers && db.servers[id].status == Active && id != req.via)
    && (forall i :: 0 <= i < |sent| ==>
          sent[i].dest == rows[i] && sent[i].body == Announcement(req.server, req.via, req.hops + 1 + i))
  }

  /** The server gets a row with the announced URL and announcer unless it has one; nothing else changes. */
  ghost predicate LearntFrom(before: Tables, after: Tables, req: Announcement) {
    && after.servers == before.servers
    && after.network.Keys == before.network.Keys + {req.server.id}
    && (forall id :: id in before.network ==> after.network[id] == before.network[id])
    && (req.server.id !in before.network ==> after.network[req.server.id] == Known(req.server.baseUrl, req.via))
  }

  class Home {
    var db: Tables

    constructor (db: Tables)
      ensures this.db == db
    {
      this.db := db;
    }

    method HandleGossipNewPeer(request: Announcement) returns (reply: Reply, sent: seq<Packet>, rows: seq<int>)
      modifies this
      ensures db == Handled(old(db), request)
      ensures request.hops >= 5 ==> db == old(db) && reply == MaxHopsReached && sent == []
      ensures request.hops < 5 ==> sent == Sends(request, rows) && Announces(db, request, rows, sent)
      ensures request.hops < 5 ==> reply == Propagated && LearntFrom(old(db), db, request)
    {
      var req := request;
      sent, rows := [], [];
      if req.hops >= MAX_HOPS {
        return MaxHopsReached, sent, rows;
      }
      if req.server.id !in db.network {
        db := db.(network := db.network[req.server.id := Known(req.server.baseUrl, req.via)]);
      }
      rows := AnyOrder(Neighbours(db, req.via));
      for i := 0 to |rows|
        invariant req == request.(hops := request.hops + i)
        invariant |sent| == i
        invariant forall k :: 0 <= k < i ==> sent[k] == Packet(rows[k], request.(hops := request.hops + 1 + k))
      {
        req := req.(hops := req.hops + 1);
        sent := sent + [Packet(rows[i], req)];
      }
      reply := Propagated;
      assert forall id :: id in rows <==> id in Elems(rows);
    }
  }

  // ---------- The whole federation ----------

  datatype World = World(homes: map<int, Tables>, inFlight: seq<Packet>)

  /**
   One thing that can happen: a packet reaches the home `at` that it was sent to, whose neighbours are
   read in the order `rows`; a packet is lost; or a home's peer table changes under everybody's feet.
   */
  datatype Event =
    | Deliver(index: nat, at: int, rows: seq<int>)
    | Lose(index: nat)
    | Rewire(at: int, servers: map<int, Server>)

  function Without(s: seq<Packet>, i: nat): seq<Packet>
    requires i < |s|
  {
    s[..i] + s[i + 1..]
  }

  /** The event can happen in w when no home has more than d active neighbours to send to. */
  ghost predicate Enabled(d: nat, w: World, e: Event) {
    match e
    case Deliver(i, at, rows) =>
      && i < |w.inFlight| && at == w.inFlight[i].dest && at in w.homes && |rows| <= d
      && Lists(rows, Neighbours(Handled(w.homes[at], w.inFlight[i].body), w.inFlight[i].body.via))
    case Lose(i) => i < |w.inFlight|
    case Rewire(at, _) => at in w.homes
  }

  function SentBy(w: World, e: Event): seq<Packet> {
    if e.Deliver? && e.index < |w.inFlight| && w.inFlight[e.index].body.hops < MAX_HOPS
    then Sends(w.inFlight[e.index].body, e.rows)
    else []
  }

  ghost function Apply(d: nat, w: World, e: Event): World
    requires Enabled(d, w, e)
  {
    match e
    case Deliver(i, at, rows) =>
      World(w.homes[at := Handled(w.homes[at], w.inFlight[i].body)], Without(w.inFlight, i) + SentBy(w, e))
    case Lose(i) => w.(inFlight := Without(w.inFlight, i))
    case Rewire(at, servers) => w.(homes := w.homes[at := w.homes[at].(servers := servers)])
  }

  ghost predicate CanRun(d: nat, w: World, es: seq<Event>)
    decreases |es|
  {
    es == [] || (Enabled(d, w, es[0]) && CanRun(d, Apply(d, w, es[0]), es[1..]))
  }

  ghost function After(d: nat, w: World, es: seq<Event>): World
    requires CanRun(d, w, es)
    decreases |es|
  {
    if es == [] then w else After(d, Apply(d, w, es[0]), es[1..])
  }

  /** Everything sent during a run. */
  ghost function TotalSent(d: nat, w: World, es: seq<Event>): nat
    requires CanRun(d, w, es)
    decreases |es|
  {
    if es == [] then 0 else |SentBy(w, es[0])| + TotalSent(d, Apply(d, w, es[0]), es[1..])
  }

  function Deliveries(es: seq<Event>): nat {
    if es == [] then 0 else (if es[0].Deliver? then 1 else 0) + Deliveries(es[1..])
  }

  // ---------- The bound ----------

  function Pow2(n: nat): nat {
    if n == 0 then 1 else 2 * Pow2(n - 1)
  }

  /** The most sends that an announcement received with h hops can cause. */
  function Spread(d: nat, h: int): nat {
    if h >= MAX_HOPS then 0 else d * Pow2(4 - h)
  }

  lemma {:induction false} SpreadDoubles(d: nat, h: int)
    requires h < MAX_HOPS
    ensures h == 4 ==> Spread(d, h) == d
    ensures h < 4 ==> Spread(d, h) == 2 * Spread(d, h + 1)
    ensures Spread(d, h) >= d
    decreases MAX_HOPS - h
  {
    if h == 4 {
      assert Pow2(0) == 1;
    } else {
      SpreadDoubles(d, h + 1);
      var half: int := Pow2(3 - h);
      assert Pow2(4 - h) == 2 * half;
      assert d * (2 * half) == 2 * (d * half);
    }
  }

  /** The potential of a bag of packets. */
  function Potential(d: nat, s: seq<Packet>): nat {
    if s == [] then 0 else Spread(d, s[0].body.hops) + Potential(d, s[1..])
  }

  lemma {:induction false} PotentialConcat(d: nat, a: seq<Packet>, b: seq<Packet>)
    ensures Potential(d, a + b) == Potential(d, a) + Potential(d, b)
  {
    if a == [] {
      assert a + b == b;
    } else {
      assert (a + b)[1..] == a[1..] + b;
      PotentialConcat(d, a[1..], b);
    }
  }

  lemma {:induction false} PotentialWithout(d: nat, s: seq<Packet>, i: nat)
    requires i < |s|
    ensures Potential(d, s) == Potential(d, Without(s, i)) + Spread(d, s[i].body.hops)
  {
    assert s == s[..i] + ([s[i]] + s[i + 1..]);
    PotentialConcat(d, s[..i], [s[i]] + s[i + 1..]);
    PotentialConcat(d, s[..i], s[i + 1..]);
    assert ([s[i]] + s[i + 1..])[1..] == s[i + 1..];
  }

  /** The children of one announcement leave room for d more sends, however many children there are. */
  lemma {:induction false} ChildrenSpread(d: nat, req: Announcement, rows: seq<int>)
    ensures req.hops >= 4 ==> Potential(d, Sends(req, rows)) == 0
    ensures req.hops < 4 ==> Potential(d, Sends(req, rows)) + d <= Spread(d, req.hops)
    decreases |rows|
  {
    if req.hops < 4 {
      SpreadDoubles(d, req.hops);
    }
    if rows != [] {
      var next := req.(hops := req.hops + 1);
      assert Sends(req, rows)[1..] == Sends(next, rows[1..]);
      ChildrenSpread(d, next, rows[1..]);
      if req.hops < 4 {
        SpreadDoubles(d, req.hops + 1);
      }
    }
  }

  /** One event: what it sends is paid for out of the potential. */
  lemma {:induction false} EventPays(d: nat, w: World, e: Event)
    requires Enabled(d, w, e)
    ensures |SentBy(w, e)| + Potential(d, Apply(d, w, e).inFlight) <= Potential(d, w.inFlight)
    ensures |Apply(d, w, e).inFlight| == |w.inFlight| + |SentBy(w, e)| - (if e.Rewire? then 0 else 1)
  {
    match e
    case Rewire(_, _) =>
    case Lose(i) => PotentialWithout(d, w.inFlight, i);
    case Deliver(i, at, rows) =>
      var req := w.inFlight[i].body;
      PotentialWithout(d, w.inFlight, i);
      PotentialConcat(d, Without(w.inFlight, i), SentBy(w, e));
      if req.hops < MAX_HOPS {
        ChildrenSpread(d, req, rows);
        SpreadDoubles(d, req.hops);
      }
  }

  /** Over any run at all, the sends so far plus the remaining potential never exceed the start. */
  lemma {:induction false} RunPays(d: nat, w: World, es: seq<Event>)
    requires CanRun(d, w, es)
    ensures TotalSent(d, w, es) + Potential(d, After(d, w, es).inFlight) <= Potential(d, w.inFlight)
    ensures Deliveries(es) + |After(d, w, es).inFlight| <= |w.inFlight| + TotalSent(d, w, es)
    decreases |es|
  {
    if es != [] {
      EventPays(d, w, es[0]);
      RunPays(d, Apply(d, w, es[0]), es[1..]);
    }
  }

  /**
   Gossip dies out. One announcement in flight with h < 5 hops causes at most d·2^(4-h) sends in
   the whole federation, under every interleaving, loss and change of neighbours; so 16·d from h = 0.
   */
  lemma {:induction false} GossipDiesOut(d: nat, w: World, es: seq<Event>)
    requires CanRun(d, w, es)
    requires |w.inFlight| == 1 && w.inFlight[0].body.hops < MAX_HOPS
    ensures TotalSent(d, w, es) <= d * Pow2(4 - w.inFlight[0].body.hops)
    ensures Deliveries(es) <= 1 + d * Pow2(4 - w.inFlight[0].body.hops)
    ensures w.inFlight[0].body.hops == 0 ==> TotalSent(d, w, es) <= 16 * d
  {
    RunPays(d, w, es);
    assert Potential(d, w.inFlight) == Spread(d, w.inFlight[0].body.hops);
    if w.inFlight[0].body.hops == 0 {
      assert Pow2(4) == 16 by { assert Pow2(2) == 4; }
    }
  }

  // ---------- The bound is the right one ----------

  /** The sends caused when every home has exactly d neighbours and nothing is lost. */
  function Flood(d: nat, h: int): nat
    decreases if h >= MAX_HOPS then 0 else MAX_HOPS - h, 1, 0
  {
    if h >= MAX_HOPS then 0 else d + FloodChildren(d, h, d)
  }

  /** The sends caused by n children told h + 1, h + 2, ... hops. */
  function FloodChildren(d: nat, h: int, n: nat): nat
    decreases if h >= MAX_HOPS then 0 else MAX_HOPS - h, 0, n
  {
    if n == 0 || h + 1 >= MAX_HOPS then 0 else Flood(d, h + 1) + FloodChildren(d, h + 1, n - 1)
  }

  /** d·2^(4-h) is reached exactly when d is zero or at least 4 - h. */
  lemma {:induction false} BoundIsReached(d: nat, h: int)
    requires h < MAX_HOPS
    ensures Flood(d, h) <= Spread(d, h)
    ensures Flood(d, h) == Spread(d, h) <==> d == 0 || d >= 4 - h
    decreases MAX_HOPS - h, 1, 0
  {
    FloodChildrenBound(d, h, d);
  }

  lemma {:induction false} FloodChildrenBound(d: nat, h: int, n: nat)
    requires h < MAX_HOPS && n <= d
    ensures FloodChildren(d, h, n) + d <= Spread(d, h)
    ensures FloodChildren(d, h, n) + d == Spread(d, h) <==> d == 0 || n >= 4 - h
    decreases MAX_HOPS - h, 0, n
  {
    SpreadDoubles(d, h);
    if h < 4 {
      SpreadDoubles(d, h + 1);
      if n > 0 {
        BoundIsReached(d, h + 1);
        FloodChildrenBound(d, h + 1, n - 1);
      }
    }
  }

  function FloodOf(d: nat, s: seq<Packet>): nat {
    if s == [] then 0 else Flood(d, s[0].body.hops) + FloodOf(d, s[1..])
  }

  lemma {:induction false} FloodOfConcat(d: nat, a: seq<Packet>, b: seq<Packet>)
    ensures FloodOf(d, a + b) == FloodOf(d, a) + FloodOf(d, b)
  {
    if a == [] {
      assert a + b == b;
    } else {
      assert (a + b)[1..] == a[1..] + b;
      FloodOfConcat(d, a[1..], b);
    }
  }

  lemma {:induction false} FloodOfSends(d: nat, req: Announcement, rows: seq<int>)
    ensures FloodOf(d, Sends(req, rows)) == FloodChildren(d, req.hops, |rows|)
    decreases |rows|
  {
    if rows != [] {
      var next := req.(hops := req.hops + 1);
      assert Sends(req, rows)[1..] == Sends(next, rows[1..]);
      FloodOfSends(d, next, rows[1..]);
    }
  }

  /** Every home has exactly d neighbours and every packet arrives. */
  ghost predicate FullRun(d: nat, es: seq<Event>) {
    forall e :: e in es ==> e.Deliver? && |e.rows| == d
  }

  /** A finished full flood makes exactly Flood(d, h) sends, whatever the order of deliveries. */
  lemma {:induction false} FloodIsExact(d: nat, w: World, es: seq<Event>)
    requires CanRun(d, w, es) && FullRun(d, es)
    ensures TotalSent(d, w, es) + FloodOf(d, After(d, w, es).inFlight) == FloodOf(d, w.inFlight)
    decreases |es|
  {
    if es != [] {
      var e := es[0];
      assert e in es && e.Deliver?;
      var s, i := w.inFlight, e.index;
      assert s == s[..i] + ([s[i]] + s[i + 1..]);
      FloodOfConcat(d, s[..i], [s[i]] + s[i + 1..]);
      FloodOfConcat(d, s[..i], s[i + 1..]);
      assert ([s[i]] + s[i + 1..])[1..] == s[i + 1..];
      FloodOfConcat(d, Without(s, i), SentBy(w, e));
      FloodOfSends(d, s[i].body, e.rows);
      FloodIsExact(d, Apply(d, w, e), es[1..]);
    }
  }

  // ---------- What gossip does to routing ----------

  /**
   An accepted announcement of an unknown, not directly connected server makes it routable, through the
   neighbour that the announcing server is reached by.
   */
  lemma AnnouncedPeerIsRoutable(db: Tables, req: Announcement, hop: int)
    requires req.hops < MAX_HOPS && req.server.id !in db.network && !IsActive(db, req.server.id)
    requires FirstActive(db, req.via, hop)
    ensures FirstActive(Handled(db, req), req.server.id, hop)
  {
    var later := Handled(db, req);
    RouteIsStable(db, later, req.via, hop);
    HopInherited(later, req.via, req.server.id, hop);
  }

  /** Without changes of peer status, every home's tables only gain rows during a run. */
  lemma {:induction false} TablesOnlyGrow(d: nat, w: World, es: seq<Event>)
    requires CanRun(d, w, es)
    requires forall e :: e in es ==> !e.Rewire?
    ensures After(d, w, es).homes.Keys == w.homes.Keys
    ensures forall at :: at in w.homes ==> Extends(w.homes[at], After(d, w, es).homes[at])
    decreases |es|
  {
    if es != [] {
      assert es[0] in es;
      TablesOnlyGrow(d, Apply(d, w, es[0]), es[1..]);
    }
  }

  /** So no flood ever redirects a route that a home already had. */
  lemma {:induction false} GossipKeepsRoutes(d: nat, w: World, es: seq<Event>, at: int, target: int, hop: int)
    requires CanRun(d, w, es)
    requires forall e :: e in es ==> !e.Rewire?
    requires at in w.homes && FirstActive(w.homes[at], target, hop)
    ensures at in After(d, w, es).homes && FirstActive(After(d, w, es).homes[at], target, hop)
  {
    TablesOnlyGrow(d, w, es);
    RouteIsStable(w.homes[at], After(d, w, es).homes[at], target, hop);
  }
}
