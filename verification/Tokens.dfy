/**
 backend/database/tokens.go: refresh tokens that stay usable for a grace period after they were
 exchanged, in a table that deletes rows as it goes. The clock counts whole seconds.
 */
module Tokens {
  import opened Common

  datatype Row = Row(user: int, expires: int, usedAt: Option<int>)

  type Table = map<string, Row>

  // ---------- The table, step by step ----------

  /** token_id is UNIQUE: a second INSERT fails. */
  function SaveStep(t: Table, user: int, id: string, expires: int): Table {
    if id in t then t else t[id := Row(user, expires, None)]
  }

  function ClaimStep(t: Table, id: string, grace: nat, now: int): (Table, Option<int>) {
    if id !in t then (t, None)
    else if now > t[id].expires then (t - {id}, None)
    else match t[id].usedAt
         case Some(used) => if now - used > grace then (t - {id}, None) else (t, Some(t[id].user))
         case None => (t[id := t[id].(usedAt := Some(now))], Some(t[id].user))
  }

  predicate Purged(r: Row, grace: nat, now: int) {
    (r.usedAt.Some? && r.usedAt.value < now - grace) || r.expires < now
  }

  function PurgeStep(t: Table, grace: nat, now: int): Table {
    map id | id in t && !Purged(t[id], grace, now) :: t[id]
  }

  function LogoutStep(t: Table, user: int): Table {
    map id | id in t && t[id].user != user :: t[id]
  }

  class TokenStore {
    var rows: Table

    constructor ()
      ensures rows == map[]
    {
      rows := map[];
    }

    method SaveRefreshToken(user: int, id: string, expires: int) returns (ok: bool)
      modifies this
      ensures ok <==> id !in old(rows)
      ensures rows == SaveStep(old(rows), user, id, expires)
    {
      ok := id !in rows;
      if ok {
        rows := rows[id := Row(user, expires, None)];
      }
    }

    method DeleteRefreshToken(id: string)
      modifies this
      ensures rows == old(rows) - {id}
    {
      rows := rows - {id};
    }

    method ClaimRefreshToken(id: string, grace: nat, now: int) returns (user: Option<int>)
      modifies this
      ensures user.Some? <==>
                && id in old(rows) && now <= old(rows)[id].expires
                && (old(rows)[id].usedAt.Some? ==> now - old(rows)[id].usedAt.value <= grace)
      ensures user.Some? ==> id in rows && user.value == rows[id].user
      ensures user.Some? ==>
                rows[id] == old(rows)[id].(usedAt := if old(rows)[id].usedAt.Some? then old(rows)[id].usedAt else Some(now))
      ensures user.None? ==> id !in rows
      ensures rows - {id} == old(rows) - {id}
      ensures (rows, user) == ClaimStep(old(rows), id, grace, now)
    {
      if id !in rows {
        return None;
      }
      var row := rows[id];
      if now > row.expires {
        DeleteRefreshToken(id);
        return None;
      }
      if row.usedAt.Some? {
        if now - row.usedAt.value > grace {
          DeleteRefreshToken(id);
          return None;
        }
        return Some(row.user);
      }
      rows := rows[id := row.(usedAt := Some(now))];
      user := Some(row.user);
    }

    method PurgeReleasedRefreshTokens(grace: nat, now: int)
      modifies this
      ensures rows == PurgeStep(old(rows), grace, now)
      ensures forall id :: id in rows <==>
                && id in old(rows) && now <= old(rows)[id].expires
                && (old(rows)[id].usedAt.Some? ==> now - old(rows)[id].usedAt.value <= grace)
    {
      rows := PurgeStep(rows, grace, now);
    }

    method DeleteUserRefreshTokens(user: int)
      modifies this
      ensures rows == LogoutStep(old(rows), user)
    {
      rows := LogoutStep(rows, user);
    }
  }

  // ---------- What the deletions leave ----------

  /** A purge deletes exactly the tokens that a claim at that moment would refuse, and changes no other. */
  lemma PurgeKeepsTheLive(t: Table, grace: nat, now: int, id: string)
    ensures id in PurgeStep(t, grace, now) <==> ClaimStep(t, id, grace, now).1.Some?
    ensures id in PurgeStep(t, grace, now) ==> PurgeStep(t, grace, now)[id] == t[id]
  {
  }

  /** A logout everywhere deletes exactly that user's tokens. */
  lemma LogoutDeletesTheUsers(t: Table, user: int, id: string)
    ensures id in LogoutStep(t, user) <==> id in t && t[id].user != user
    ensures id in LogoutStep(t, user) ==> LogoutStep(t, user)[id] == t[id]
  {
  }

  // ---------- A specification that never deletes ----------

  datatype Entry = Entry(user: int, expires: int, firstClaim: Option<int>, loggedOut: bool)

  type Book = map<string, Entry>

  predicate Dead(e: Entry, grace: nat, now: int) {
    e.loggedOut || now > e.expires || (e.firstClaim.Some? && now - e.firstClaim.value > grace)
  }

  datatype Event = Issue(user: int, id: string, expires: int) | Claim(id: string) | Purge | Logout(user: int)

  datatype Stamped = At(now: int, e: Event)

  function BookStep(b: Book, x: Stamped, grace: nat): (Book, Option<int>) {
    match x.e
    case Issue(user, id, expires) => (b[id := Entry(user, expires, None, false)], None)
    case Claim(id) =>
      if id !in b || Dead(b[id], grace, x.now) then (b, None)
      else (b[id := b[id].(firstClaim := if b[id].firstClaim.Some? then b[id].firstClaim else Some(x.now))], Some(b[id].user))
    case Purge => (b, None)
    case Logout(user) =>
      (map id | id in b :: if b[id].user == user then b[id].(loggedOut := true) else b[id], None)
  }

  function TableStep(t: Table, x: Stamped, grace: nat): (Table, Option<int>) {
    match x.e
    case Issue(user, id, expires) => (SaveStep(t, user, id, expires), None)
    case Claim(id) => ClaimStep(t, id, grace, x.now)
    case Purge => (PurgeStep(t, grace, x.now), None)
    case Logout(user) => (LogoutStep(t, user), None)
  }

  /** The clock does not run backwards, and an issued id is a new one (ids are random). */
  ghost predicate CanRun(b: Book, start: int, xs: seq<Stamped>, grace: nat)
    decreases |xs|
  {
    xs != [] ==>
      && start <= xs[0].now
      && (xs[0].e.Issue? ==> xs[0].e.id !in b)
      && CanRun(BookStep(b, xs[0], grace).0, xs[0].now, xs[1..], grace)
  }

  function BookAfter(b: Book, xs: seq<Stamped>, grace: nat): Book
    decreases |xs|
  {
    if xs == [] then b else BookAfter(BookStep(b, xs[0], grace).0, xs[1..], grace)
  }

  function TableAfter(t: Table, xs: seq<Stamped>, grace: nat): Table
    decreases |xs|
  {
    if xs == [] then t else TableAfter(TableStep(t, xs[0], grace).0, xs[1..], grace)
  }

  function BookAnswers(b: Book, xs: seq<Stamped>, grace: nat): seq<Option<int>>
    decreases |xs|
  {
    if xs == [] then []
    else [BookStep(b, xs[0], grace).1] + BookAnswers(BookStep(b, xs[0], grace).0, xs[1..], grace)
  }

  function TableAnswers(t: Table, xs: seq<Stamped>, grace: nat): seq<Option<int>>
    decreases |xs|
  {
    if xs == [] then []
    else [TableStep(t, xs[0], grace).1] + TableAnswers(TableStep(t, xs[0], grace).0, xs[1..], grace)
  }

  function Clock(start: int, xs: seq<Stamped>): int {
    if xs == [] then start else xs[|xs| - 1].now
  }

  // ---------- The simulation ----------

  /** A row says what the book says; a missing row is a token that is dead already. */
  ghost predicate Agrees(t: Table, b: Book, grace: nat, now: int) {
    && (forall id :: id in t ==> id in b && b[id] == Entry(t[id].user, t[id].expires, t[id].usedAt, false))
    && (forall id :: id in b && id !in t ==> Dead(b[id], grace, now))
  }

  /** A claim: a deleted row was dead and stays dead, and a claimed one was claimed in the book too. */
  lemma ClaimAgrees(t: Table, b: Book, start: int, id: string, grace: nat, now: int)
    requires Agrees(t, b, grace, start) && start <= now
    ensures ClaimStep(t, id, grace, now).1 == BookStep(b, At(now, Claim(id)), grace).1
    ensures Agrees(ClaimStep(t, id, grace, now).0, BookStep(b, At(now, Claim(id)), grace).0, grace, now)
  {
    if id in t {
      assert b[id] == Entry(t[id].user, t[id].expires, t[id].usedAt, false);
    }
  }

  /** What the purge deletes is dead. */
  lemma PurgeAgrees(t: Table, b: Book, start: int, grace: nat, now: int)
    requires Agrees(t, b, grace, start) && start <= now
    ensures Agrees(PurgeStep(t, grace, now), b, grace, now)
  {
    forall id | id in b && id !in PurgeStep(t, grace, now)
      ensures Dead(b[id], grace, now)
    {
      if id in t {
        assert b[id] == Entry(t[id].user, t[id].expires, t[id].usedAt, false);
      }
    }
  }

  lemma LogoutAgrees(t: Table, b: Book, start: int, user: int, grace: nat, now: int)
    requires Agrees(t, b, grace, start) && start <= now
    ensures Agrees(LogoutStep(t, user), BookStep(b, At(now, Logout(user)), grace).0, grace, now)
  {
    forall id | id in b && id !in LogoutStep(t, user)
      ensures Dead(BookStep(b, At(now, Logout(user)), grace).0[id], grace, now)
    {
      if id in t {
        assert b[id] == Entry(t[id].user, t[id].expires, t[id].usedAt, false);
      }
    }
  }

  /** Every step answers as the book does and keeps the agreement. */
  lemma StepAgrees(t: Table, b: Book, start: int, x: Stamped, grace: nat)
    requires Agrees(t, b, grace, start) && start <= x.now
    requires x.e.Issue? ==> x.e.id !in b
    ensures TableStep(t, x, grace).1 == BookStep(b, x, grace).1
    ensures Agrees(TableStep(t, x, grace).0, BookStep(b, x, grace).0, grace, x.now)
  {
    match x.e
    case Issue(_, _, _) =>
    case Claim(id) => ClaimAgrees(t, b, start, id, grace, x.now);
    case Purge => PurgeAgrees(t, b, start, grace, x.now);
    case Logout(user) => LogoutAgrees(t, b, start, user, grace, x.now);
  }

  /**
   Deletion is invisible. For every run under a clock that does not run backwards, every claim gets
   the answer of a book that never deletes: accepted exactly when the token was issued, its user has
   not logged out since, it has not expired, and it was not claimed before or first claimed at most
   `grace` ago.
   */
  lemma {:induction false} DeletionIsInvisible(t: Table, b: Book, start: int, xs: seq<Stamped>, grace: nat)
    requires Agrees(t, b, grace, start) && CanRun(b, start, xs, grace)
    ensures TableAnswers(t, xs, grace) == BookAnswers(b, xs, grace)
    ensures Agrees(TableAfter(t, xs, grace), BookAfter(b, xs, grace), grace, Clock(start, xs))
    decreases |xs|
  {
    if xs != [] {
      StepAgrees(t, b, start, xs[0], grace);
      DeletionIsInvisible(TableStep(t, xs[0], grace).0, BookStep(b, xs[0], grace).0, xs[0].now, xs[1..], grace);
    }
  }

  /** From the empty table on. */
  lemma AnswersFromTheStart(start: int, xs: seq<Stamped>, grace: nat)
    requires CanRun(map[], start, xs, grace)
    ensures TableAnswers(map[], xs, grace) == BookAnswers(map[], xs, grace)
  {
    DeletionIsInvisible(map[], map[], start, xs, grace);
  }

  /** What a run does to one issued token: it stays issued, never comes back, and keeps its first claim. */
  lemma {:induction false} EntryOverRun(b: Book, start: int, xs: seq<Stamped>, grace: nat, id: string)
    requires CanRun(b, start, xs, grace) && id in b
    ensures start <= Clock(start, xs)
    ensures id in BookAfter(b, xs, grace)
    ensures BookAfter(b, xs, grace)[id].user == b[id].user && BookAfter(b, xs, grace)[id].expires == b[id].expires
    ensures b[id].firstClaim.Some? ==> BookAfter(b, xs, grace)[id].firstClaim == b[id].firstClaim
    ensures b[id].loggedOut ==> BookAfter(b, xs, grace)[id].loggedOut
    ensures (forall i :: 0 <= i < |xs| ==> xs[i].e != Logout(b[id].user)) ==>
              BookAfter(b, xs, grace)[id].loggedOut == b[id].loggedOut
    decreases |xs|
  {
    if xs != [] {
      var b' := BookStep(b, xs[0], grace).0;
      EntryOverRun(b', xs[0].now, xs[1..], grace, id);
      if forall i :: 0 <= i < |xs| ==> xs[i].e != Logout(b[id].user) {
        assert xs[0].e != Logout(b[id].user);
        forall i | 0 <= i < |xs[1..]|
          ensures xs[1..][i].e != Logout(b'[id].user)
        {
          assert xs[1..][i] == xs[i + 1];
        }
      }
    }
  }

  /** Once an issued token is refused, it is refused after every further run. */
  lemma RefusedForever(t: Table, b: Book, start: int, id: string, xs: seq<Stamped>, grace: nat, later: int)
    requires Agrees(t, b, grace, start) && id in b
    requires ClaimStep(t, id, grace, start).1 == None
    requires var s := BookStep(b, At(start, Claim(id)), grace).0; CanRun(s, start, xs, grace)
    requires later >= Clock(start, xs)
    ensures var s := ClaimStep(t, id, grace, start).0;
            ClaimStep(TableAfter(s, xs, grace), id, grace, later).1 == None
  {
    var x := At(start, Claim(id));
    StepAgrees(t, b, start, x, grace);
    DeletionIsInvisible(ClaimStep(t, id, grace, start).0, b, start, xs, grace);
    EntryOverRun(b, start, xs, grace, id);
    assert Dead(b[id], grace, start);
    assert Dead(BookAfter(b, xs, grace)[id], grace, later);
    StepAgrees(TableAfter(ClaimStep(t, id, grace, start).0, xs, grace), BookAfter(b, xs, grace),
               Clock(start, xs), At(later, Claim(id)), grace);
  }

  /**
   Two contexts that share a token: after a first claim, whatever else happens short of that user's
   logout, a second claim is accepted for the same user exactly while the grace period and the token last.
   */
  lemma SecondClaimWithinGrace(t: Table, b: Book, first: int, id: string, xs: seq<Stamped>, grace: nat, second: int)
    requires Agrees(t, b, grace, first) && id in b && b[id].firstClaim == None
    requires ClaimStep(t, id, grace, first).1.Some?
    requires var s := BookStep(b, At(first, Claim(id)), grace).0; CanRun(s, first, xs, grace)
    requires forall i :: 0 <= i < |xs| ==> xs[i].e != Logout(b[id].user)
    requires second >= Clock(first, xs)
    ensures var s := ClaimStep(t, id, grace, first).0;
            ClaimStep(TableAfter(s, xs, grace), id, grace, second).1 ==
              if second - first <= grace && second <= b[id].expires then Some(b[id].user) else None
  {
    StepAgrees(t, b, first, At(first, Claim(id)), grace);
    var s, c := ClaimStep(t, id, grace, first).0, BookStep(b, At(first, Claim(id)), grace).0;
    assert !Dead(b[id], grace, first);
    assert c[id] == b[id].(firstClaim := Some(first));
    DeletionIsInvisible(s, c, first, xs, grace);
    EntryOverRun(c, first, xs, grace, id);
    StepAgrees(TableAfter(s, xs, grace), BookAfter(c, xs, grace), Clock(first, xs), At(second, Claim(id)), grace);
  }
}
