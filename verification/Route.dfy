/**
 backend/federation/route.go: the breadth-first search that picks the neighbour through
 which a remote server is reached.
 */
module Route {
  import opened Common

  datatype Status = Active | Unreachable | Blocked | Pending

  datatype Server = Server(baseUrl: string, status: Status)

  /** One row of federation_network. The table's primary key is server_id, so a server has one parent. */
  datatype Known = Known(baseUrl: string, knownBy: int)

  datatype Tables = Tables(servers: map<int, Server>, network: map<int, Known>)

  datatype RouteHop = RouteHop(serverId: int, baseUrl: string, nextHopId: int)

  datatype Node = Node(serverId: int, nextHop: int)

  predicate IsActive(db: Tables, id: int) {
    id in db.servers && db.servers[id].status == Active
  }

  function ActiveIds(db: Tables): set<int> {
    set id | id in db.servers && db.servers[id].status == Active
  }

  function KnownBy(db: Tables, id: int): set<int> {
    set c | c in db.network && db.network[c].knownBy == id
  }

  // ---------- What a route is, stated on the graph alone ----------

  ghost predicate IsEdge(db: Tables, a: int, b: int) {
    b in db.network && db.network[b].knownBy == a
  }

  /** A walk along known_by edges that starts at an active server and ends at the target. */
  ghost predicate IsRoute(db: Tables, path: seq<int>, target: int) {
    && path != []
    && path[0] in db.servers && db.servers[path[0]].status == Active
    && path[|path| - 1] == target
    && forall i :: 0 < i < |path| ==> path[i] in db.network && db.network[path[i]].knownBy == path[i - 1]
  }

  ghost predicate IsShortestRoute(db: Tables, path: seq<int>, target: int) {
    && IsRoute(db, path, target)
    && forall other :: IsRoute(db, other, target) ==> |path| <= |other|
  }

  // ---------- The parent chain ----------

  /** The k-th ancestor of a server, if the chain is that long. */
  function Ancestor(db: Tables, id: int, k: nat): Option<int>
    decreases k
  {
    if k == 0 then Some(id)
    else if id in db.network then Ancestor(db, db.network[id].knownBy, k - 1)
    else None
  }

  /** `hop` is the first active server on the parent chain of `id`, k steps up. */
  ghost predicate FirstActiveAt(db: Tables, id: int, hop: int, k: nat) {
    && Ancestor(db, id, k) == Some(hop)
    && IsActive(db, hop)
    && forall j: nat :: j < k ==> Ancestor(db, id, j).Some? && !IsActive(db, Ancestor(db, id, j).value)
  }

  ghost predicate FirstActive(db: Tables, id: int, hop: int) {
    exists k: nat :: FirstActiveAt(db, id, hop, k)
  }

  lemma {:induction false} AncestorStep(db: Tables, id: int, k: nat)
    ensures Ancestor(db, id, k + 1) ==
            match Ancestor(db, id, k)
            case None => None
            case Some(a) => if a in db.network then Some(db.network[a].knownBy) else None
    decreases k
  {
    if k > 0 && id in db.network {
      AncestorStep(db, db.network[id].knownBy, k - 1);
    }
  }

  /** A route is exactly a climb of the target's parent chain that ends at an active server. */
  lemma {:induction false} RouteIsClimb(db: Tables, path: seq<int>, target: int)
    requires IsRoute(db, path, target)
    ensures Ancestor(db, target, |path| - 1) == Some(path[0])
  {
    ClimbAlong(db, path, target, |path| - 1);
  }

  lemma {:induction false} ClimbAlong(db: Tables, path: seq<int>, target: int, k: nat)
    requires IsRoute(db, path, target)
    requires k < |path|
    ensures Ancestor(db, target, k) == Some(path[|path| - 1 - k])
  {
    if k > 0 {
      ClimbAlong(db, path, target, k - 1);
      AncestorStep(db, target, k - 1);
      assert IsEdge(db, path[|path| - 1 - k], path[|path| - 1 - k + 1]);
    }
  }

  lemma {:induction false} ClimbIsRoute(db: Tables, target: int, k: nat, top: int) returns (path: seq<int>)
    requires Ancestor(db, target, k) == Some(top)
    requires IsActive(db, top)
    ensures IsRoute(db, path, target) && |path| == k + 1 && path[0] == top
    decreases k
  {
    if k == 0 {
      path := [top];
    } else {
      var rest := ClimbIsRoute(db, db.network[target].knownBy, k - 1, top);
      path := rest + [target];
      forall i | 0 <= i < |path| - 1
        ensures IsEdge(db, path[i], path[i + 1])
      {
        if i < |rest| - 1 {
          assert IsEdge(db, rest[i], rest[i + 1]);
        }
      }
    }
  }

  /** The first active server on the chain is where every shortest route begins. */
  lemma {:induction false} FirstActiveIsShortest(db: Tables, target: int, hop: int)
    requires FirstActive(db, target, hop)
    ensures exists path :: IsShortestRoute(db, path, target) && path[0] == hop
    ensures forall path :: IsShortestRoute(db, path, target) ==> path[0] == hop
  {
    var k: nat :| FirstActiveAt(db, target, hop, k);
    var best := ClimbIsRoute(db, target, k, hop);
    forall other | IsRoute(db, other, target)
      ensures |best| <= |other|
      ensures |other| == |best| ==> other[0] == hop
    {
      RouteIsClimb(db, other, target);
      if |other| - 1 < k {
        assert false;
      }
    }
    assert IsShortestRoute(db, best, target);
  }

  // ---------- The search ----------

  /** A set that holds every active server and, with a server, everything known through it. */
  ghost predicate Closed(db: Tables, seen: set<int>) {
    && ActiveIds(db) <= seen
    && forall p, c :: p in seen && IsEdge(db, p, c) ==> c in seen
  }

  lemma {:induction false} ClosedCoversRoutes(db: Tables, seen: set<int>, path: seq<int>, target: int)
    requires Closed(db, seen)
    requires IsRoute(db, path, target)
    ensures target in seen
  {
    var i := 0;
    while i < |path| - 1
      invariant 0 <= i <= |path| - 1
      invariant path[i] in seen
    {
      assert IsEdge(db, path[i], path[i + 1]);
      i := i + 1;
    }
  }

  /** A child that is not active itself inherits its parent's first active ancestor. */
  lemma {:induction false} HopInherited(db: Tables, parent: int, child: int, hop: int)
    requires FirstActive(db, parent, hop)
    requires IsEdge(db, parent, child)
    requires !IsActive(db, child)
    ensures FirstActive(db, child, hop)
  {
    var k: nat :| FirstActiveAt(db, parent, hop, k);
    forall j: nat | j < k + 1
      ensures Ancestor(db, child, j).Some? && !IsActive(db, Ancestor(db, child, j).value)
    {
      if j > 0 {
        assert Ancestor(db, child, j) == Ancestor(db, parent, j - 1);
      }
    }
    assert FirstActiveAt(db, child, hop, k + 1);
  }

  function Ids(queue: seq<Node>): set<int> {
    set n | n in queue :: n.serverId
  }

  /** The search state: `done` are the servers whose children have been queued already. */
  ghost predicate Frontier(db: Tables, visited: set<int>, queue: seq<Node>, done: set<int>) {
    && visited <= ActiveIds(db) + db.network.Keys
    && visited == done + Ids(queue)
    && done !! Ids(queue)
    && (forall i, j :: 0 <= i < j < |queue| ==> queue[i].serverId != queue[j].serverId)
    && (forall n :: n in queue ==> FirstActive(db, n.serverId, n.nextHop))
  }

  lemma Pushed(db: Tables, visited: set<int>, queue: seq<Node>, done: set<int>, id: int, hop: int)
    requires Frontier(db, visited, queue, done)
    requires id !in visited && id in ActiveIds(db) + db.network.Keys
    requires FirstActive(db, id, hop)
    ensures Frontier(db, visited + {id}, queue + [Node(id, hop)], done)
  {
    var queue' := queue + [Node(id, hop)];
    forall x
      ensures x in Ids(queue') <==> x in Ids(queue) + {id}
    {
      if x in Ids(queue') {
        var n :| n in queue' && n.serverId == x;
        assert n in queue || n == Node(id, hop);
      }
      if x in Ids(queue) {
        var n :| n in queue && n.serverId == x;
        assert n in queue';
      }
      if x == id {
        assert queue'[|queue|] in queue';
      }
    }
    forall i, j | 0 <= i < j < |queue'|
      ensures queue'[i].serverId != queue'[j].serverId
    {
      assert queue[i] in queue && queue[i].serverId in Ids(queue);
    }
  }

  lemma Popped(db: Tables, visited: set<int>, queue: seq<Node>, done: set<int>)
    requires Frontier(db, visited, queue, done)
    requires queue != []
    ensures queue[0].serverId !in done && FirstActive(db, queue[0].serverId, queue[0].nextHop)
    ensures Frontier(db, visited, queue[1..], done + {queue[0].serverId})
  {
    var first, rest := queue[0], queue[1..];
    assert first in queue && first.serverId in Ids(queue);
    forall x
      ensures x in Ids(queue) <==> x in Ids(rest) + {first.serverId}
    {
      if x in Ids(queue) {
        var n :| n in queue && n.serverId == x;
        assert n == first || n in rest;
      }
      if x in Ids(rest) {
        var n :| n in rest && n.serverId == x;
        assert n in queue;
      }
    }
    forall n | n in rest
      ensures n.serverId != first.serverId
    {
      var k :| 0 <= k < |rest| && rest[k] == n;
      assert queue[k + 1] == n;
    }
  }

  /** The multi-source start: every active server, each its own next hop. */
  method Sources(db: Tables) returns (visited: set<int>, queue: seq<Node>)
    ensures visited == ActiveIds(db)
    ensures Frontier(db, visited, queue, {})
  {
    visited, queue := {}, [];
    var rows := AnyOrder(ActiveIds(db));
    for i := 0 to |rows|
      invariant visited == Elems(rows[..i])
      invariant Frontier(db, visited, queue, {})
    {
      var id := rows[i];
      assert rows[..i + 1] == rows[..i] + [id];
      assert id in Elems(rows);
      assert id !in rows[..i];
      assert FirstActiveAt(db, id, id, 0);
      Pushed(db, visited, queue, {}, id, id);
      visited := visited + {id};
      queue := queue + [Node(id, id)];
    }
    assert rows[..|rows|] == rows;
  }

  /** The inner loop: queue the servers known through `current` that were not seen before. */
  method Expand(db: Tables, visited: set<int>, queue: seq<Node>, current: Node, ghost done: set<int>)
    returns (visited': set<int>, queue': seq<Node>)
    requires ActiveIds(db) <= visited
    requires Frontier(db, visited, queue, done)
    requires FirstActive(db, current.serverId, current.nextHop)
    ensures visited' == visited + KnownBy(db, current.serverId)
    ensures queue <= queue' && forall n :: n in queue'[|queue|..] ==> n.nextHop == current.nextHop
    ensures Frontier(db, visited', queue', done)
  {
    visited', queue' := visited, queue;
    var rows := AnyOrder(KnownBy(db, current.serverId));
    for i := 0 to |rows|
      invariant visited' == visited + Elems(rows[..i])
      invariant queue <= queue' && forall n :: n in queue'[|queue|..] ==> n.nextHop == current.nextHop
      invariant Frontier(db, visited', queue', done)
    {
      var id := rows[i];
      assert rows[..i + 1] == rows[..i] + [id];
      assert id in Elems(rows);
      if id !in visited' {
        HopInherited(db, current.serverId, id, current.nextHop);
        Pushed(db, visited', queue', done, id, current.nextHop);
        visited' := visited' + {id};
        queue' := queue' + [Node(id, current.nextHop)];
      }
    }
    assert rows[..|rows|] == rows;
  }

  /**
   The search over the tables. `visited` and `queue` are the source's map and slice; row orders
   are arbitrary. The answer is nil exactly when no route exists, and otherwise names the first
   hop of a shortest one.
   */
  method FindRoute(db: Tables, target: int) returns (r: Option<RouteHop>)
    ensures r.None? <==> forall path :: !IsRoute(db, path, target)
    ensures r.Some? ==> r.value.serverId == target
    ensures r.Some? ==> FirstActive(db, target, r.value.nextHopId)
    ensures r.Some? ==> exists path :: IsShortestRoute(db, path, target) && path[0] == r.value.nextHopId
    ensures r.Some? ==> forall path :: IsShortestRoute(db, path, target) ==> path[0] == r.value.nextHopId
    ensures r.Some? && IsActive(db, target) ==> r.value.baseUrl == db.servers[target].baseUrl
    ensures r.Some? && !IsActive(db, target) ==>
              target in db.network && r.value.baseUrl == db.network[target].baseUrl
  {
    if IsActive(db, target) {
      r := Some(RouteHop(target, db.servers[target].baseUrl, target));
      assert FirstActiveAt(db, target, target, 0);
      assert IsRoute(db, [target], target);
      FirstActiveIsShortest(db, target, target);
      return;
    }
    var visited, queue := Sources(db);
    ghost var done: set<int> := {};
    ghost var all := ActiveIds(db) + db.network.Keys;
    while queue != []
      invariant ActiveIds(db) <= visited
      invariant Frontier(db, visited, queue, done)
      invariant target !in done
      invariant forall p, c :: p in done && IsEdge(db, p, c) ==> c in visited
      decreases |all - done|
    {
      var current := queue[0];
      Popped(db, visited, queue, done);
      queue := queue[1..];
      if current.serverId == target {
        assert target in db.network by {
          var k: nat :| FirstActiveAt(db, target, current.nextHop, k);
          assert k > 0;
        }
        r := Some(RouteHop(target, db.network[target].baseUrl, current.nextHop));
        FirstActiveIsShortest(db, target, current.nextHop);
        return;
      }
      SubsetCard(all - (done + {current.serverId}), all - done);
      done := done + {current.serverId};
      visited, queue := Expand(db, visited, queue, current, done);
    }
    r := None;
    assert Closed(db, visited);
    forall path | IsRoute(db, path, target)
      ensures false
    {
      ClosedCoversRoutes(db, visited, path, target);
    }
  }

  // ---------- Gossip never redirects a route ----------

  /** Later tables: the same peers, and every network row that was there is still there unchanged. */
  ghost predicate Extends(db: Tables, later: Tables) {
    && later.servers == db.servers
    && forall id :: id in db.network ==> id in later.network && later.network[id] == db.network[id]
  }

  /** Rows added to federation_network leave the answer for an already routable target as it was. */
  lemma {:induction false} RouteIsStable(db: Tables, later: Tables, target: int, hop: int)
    requires Extends(db, later)
    requires FirstActive(db, target, hop)
    ensures FirstActive(later, target, hop)
    ensures forall path :: IsShortestRoute(later, path, target) ==> path[0] == hop
  {
    var k: nat :| FirstActiveAt(db, target, hop, k);
    forall j: nat | j <= k
      ensures Ancestor(later, target, j) == Ancestor(db, target, j)
    {
      SameAncestor(db, later, target, j);
    }
    assert FirstActiveAt(later, target, hop, k);
    FirstActiveIsShortest(later, target, hop);
  }

  lemma {:induction false} SameAncestor(db: Tables, later: Tables, id: int, k: nat)
    requires Extends(db, later)
    requires Ancestor(db, id, k).Some?
    ensures Ancestor(later, id, k) == Ancestor(db, id, k)
    decreases k
  {
    if k > 0 {
      SameAncestor(db, later, db.network[id].knownBy, k - 1);
    }
  }
}
