/**
 backend/cache/lru_cache.go: the per-server file cache with its index table, and the eviction loop
 that keeps a running byte total while it removes rows and files.
 */
module LruCache {
  import opened Common

  const MEBIBYTE := 1024 * 1024

  /** The index table is unique on (server_id, cache_key). */
  datatype Key = Key(server: int, name: string)

  datatype Entry = Entry(size: nat, accessedAt: int)

  type Data = seq<int>

  type Index = map<Key, Entry>

  function Of(m: Index, server: int): set<Key> {
    set k | k in m && k.server == server
  }

  /** Bytes recorded for some keys. */
  ghost function Total(m: Index, ks: set<Key>): nat
    requires ks <= m.Keys
    decreases |ks|
  {
    if ks == {} then 0
    else
      var k :| k in ks;
      m[k].size + Total(m, ks - {k})
  }

  lemma {:induction false} TotalSplit(m: Index, ks: set<Key>, k: Key)
    requires ks <= m.Keys && k in ks
    ensures Total(m, ks) == m[k].size + Total(m, ks - {k})
    decreases |ks|
  {
    var first :| first in ks && Total(m, ks) == m[first].size + Total(m, ks - {first});
    if first != k {
      TotalSplit(m, ks - {first}, k);
      TotalSplit(m, ks - {k}, first);
      assert ks - {first} - {k} == ks - {k} - {first};
    }
  }

  lemma {:induction false} TotalSame(m: Index, n: Index, ks: set<Key>)
    requires ks <= m.Keys && ks <= n.Keys
    requires forall k :: k in ks ==> m[k].size == n[k].size
    ensures Total(m, ks) == Total(n, ks)
    decreases |ks|
  {
    if ks != {} {
      var k :| k in ks;
      TotalSplit(m, ks, k);
      TotalSplit(n, ks, k);
      TotalSame(m, n, ks - {k});
    }
  }

  function Accessed(m: Index, k: Key): int {
    if k in m then m[k].accessedAt else 0
  }

  function LongerAgo(m: Index): (Key, Key) -> bool {
    (a: Key, b: Key) => Accessed(m, a) < Accessed(m, b)
  }

  /**
   Keys of this server, longest unused first and none used later than a key that stays; and before
   each of them was removed, what was there did not fit.
   */
  ghost predicate OldestFirst(m: Index, server: int, limit: int, victims: seq<Key>) {
    && NoDup(victims) && Elems(victims) <= Of(m, server)
    && (forall i, j :: 0 <= i < j < |victims| ==> Accessed(m, victims[i]) <= Accessed(m, victims[j]))
    && (forall v, k :: v in victims && k in Of(m, server) && k !in victims ==> Accessed(m, v) <= Accessed(m, k))
    && (forall i :: 0 <= i < |victims| ==> Total(m, Of(m, server) - Elems(victims[..i])) > limit)
  }

  /** A possible eviction: the shortest such prefix after which what stays fits. */
  ghost predicate IsEviction(m: Index, server: int, limit: int, victims: seq<Key>) {
    OldestFirst(m, server, limit, victims) && Total(m, Of(m, server) - Elems(victims)) <= limit
  }

  ghost predicate Agree(m: Index, files: map<Key, Data>) {
    m.Keys == files.Keys && forall k :: k in m ==> m[k].size == |files[k]|
  }

  class Cache {
    var index: Index
    var files: map<Key, Data>
    /** disk_cache_limit in MiB; a server without a row has none. */
    var limits: map<int, int>

    /** The index and the files on disk agree. */
    ghost predicate Valid()
      reads this
    {
      Agree(index, files)
    }

    ghost function LimitBytes(server: int): int
      reads this
    {
      (if server in limits then limits[server] else 0) * 1048576
    }

    constructor (limits: map<int, int>)
      ensures Valid() && index == map[] && this.limits == limits
    {
      index, files := map[], map[];
      this.limits := limits;
    }

    /** SELECT COALESCE(SUM(size_bytes), 0). */
    method Sum(server: int) returns (total: nat)
      ensures total == Total(index, Of(index, server))
    {
      total := 0;
      var rest := Of(index, server);
      while rest != {}
        invariant rest <= Of(index, server)
        invariant total + Total(index, rest) == Total(index, Of(index, server))
        decreases |rest|
      {
        var k :| k in rest;
        TotalSplit(index, rest, k);
        total := total + index[k].size;
        rest := rest - {k};
      }
    }

    /** ORDER BY accessed_at ASC LIMIT 1, with ties left to the database. */
    method Oldest(server: int) returns (k: Key)
      requires Of(index, server) != {}
      ensures k in Of(index, server)
      ensures forall other :: other in Of(index, server) ==> Accessed(index, k) <= Accessed(index, other)
    {
      var listed := AnyOrder(Of(index, server));
      var sorted := SortBy(listed, LongerAgo(index));
      SortByLists(listed, Of(index, server), LongerAgo(index));
      assert |sorted| > 0;
      k := sorted[0];
      assert k in Elems(sorted);
      forall other | other in Of(index, server)
        ensures Accessed(index, k) <= Accessed(index, other)
      {
        assert other in Elems(sorted);
        var j :| 0 <= j < |sorted| && sorted[j] == other;
        assert j > 0 ==> !LongerAgo(index)(sorted[j], sorted[0]);
      }
    }

    method EnforceLimit(server: int) returns (victims: seq<Key>)
      requires Valid()
      modifies this`index, this`files
      ensures Valid()
      ensures LimitBytes(server) <= 0 ==> victims == []
      ensures LimitBytes(server) > 0 ==> IsEviction(old(index), server, LimitBytes(server), victims)
      ensures index == old(index) - Elems(victims) && files == old(files) - Elems(victims)
    {
      var limitMB := if server in limits then limits[server] else 0;
      if limitMB <= 0 {
        NothingRemoved(index, files, server);
        return [];
      }
      var totalBytes := Sum(server);
      victims := EvictDown(server, limitMB * MEBIBYTE, totalBytes);
    }

    /** The eviction loop, from the queried total down to the limit. */
    method EvictDown(server: int, limit: int, total: int) returns (victims: seq<Key>)
      requires Valid() && limit >= 0 && total == Total(index, Of(index, server))
      modifies this`index, this`files
      ensures Valid()
      ensures IsEviction(old(index), server, limit, victims)
      ensures index == old(index) - Elems(victims) && files == old(files) - Elems(victims)
    {
      victims := [];
      ghost var m, f := index, files;
      NothingRemoved(m, f, server);
      var totalBytes := total;
      while totalBytes > limit
        invariant OldestFirst(m, server, limit, victims)
        invariant index == m - Elems(victims) && files == f - Elems(victims)
        invariant totalBytes == Total(m, Of(m, server) - Elems(victims))
        decreases |Of(m, server) - Elems(victims)|
      {
        var k, size := EvictOldest(server, limit, m, f, victims);
        totalBytes := totalBytes - size;
        victims := victims + [k];
      }
      StillAgree(m, f, Elems(victims));
    }

    /**
     One round of the loop. The running total is the real sum, so while it exceeds the limit there is
     a row left and the query cannot come up empty.
     */
    method EvictOldest(server: int, limit: int, ghost m: Index, ghost f: map<Key, Data>, ghost victims: seq<Key>)
      returns (k: Key, size: nat)
      requires OldestFirst(m, server, limit, victims) && limit >= 0
      requires index == m - Elems(victims) && files == f - Elems(victims)
      requires Total(m, Of(m, server) - Elems(victims)) > limit
      modifies this`index, this`files
      ensures OldestFirst(m, server, limit, victims + [k])
      ensures index == m - Elems(victims + [k]) && files == f - Elems(victims + [k])
      ensures Total(m, Of(m, server) - Elems(victims)) == size + Total(m, Of(m, server) - Elems(victims + [k]))
      ensures |Of(m, server) - Elems(victims + [k])| < |Of(m, server) - Elems(victims)|
    {
      LeftOf(m, server, victims);
      k := Oldest(server);
      EvictMore(m, index, server, limit, victims, k);
      RemoveMore(m, f, server, victims, k);
      size := index[k].size;
      files := files - {k};
      index := index - {k};
    }

    /** `ok` says whether the directory and the file could be written. */
    method StoreFile(server: int, name: string, data: Data, now: int, ok: bool) returns (victims: seq<Key>)
      requires Valid()
      modifies this`index, this`files
      ensures Valid()
      ensures !ok ==> index == old(index) && files == old(files)
      ensures ok ==>
                var m := old(index)[Key(server, name) := Entry(|data|, now)];
                && (LimitBytes(server) <= 0 ==> victims == [])
                && (LimitBytes(server) > 0 ==> IsEviction(m, server, LimitBytes(server), victims))
                && index == m - Elems(victims)
                && files == old(files)[Key(server, name) := data] - Elems(victims)
    {
      victims := [];
      if !ok {
        return;
      }
      files := files[Key(server, name) := data];
      index := index[Key(server, name) := Entry(|data|, now)];
      victims := EnforceLimit(server);
    }

    method ReadFile(server: int, name: string, now: int) returns (data: Option<Data>)
      requires Valid()
      modifies this`index
      ensures Valid()
      ensures var k := Key(server, name);
              && data == (if k in files then Some(files[k]) else None)
              && index == (if k in files then old(index)[k := old(index)[k].(accessedAt := now)] else old(index))
    {
      var k := Key(server, name);
      if k !in files {
        return None;
      }
      index := index[k := index[k].(accessedAt := now)];
      data := Some(files[k]);
    }

    method ClearServerCache(server: int, ok: bool)
      requires Valid()
      modifies this`index, this`files
      ensures Valid()
      ensures index == (if ok then old(index) - Of(old(index), server) else old(index))
      ensures files == (if ok then old(files) - Of(old(index), server) else old(files))
    {
      if ok {
        files := map k | k in files && k.server != server :: files[k];
        index := map k | k in index && k.server != server :: index[k];
        assert index == old(index) - Of(old(index), server);
        assert files == old(files) - Of(old(index), server);
      }
    }
  }

  // ---------- The eviction loop ----------

  lemma NothingRemoved(m: Index, f: map<Key, Data>, server: int)
    ensures m - Elems([]) == m && f - Elems([]) == f && Of(m, server) - Elems([]) == Of(m, server)
  {
    assert Elems<Key>([]) == {};
  }

  lemma LeftOf(m: Index, server: int, victims: seq<Key>)
    ensures Of(m - Elems(victims), server) == Of(m, server) - Elems(victims)
  {
  }

  lemma RemoveMore(m: Index, f: map<Key, Data>, server: int, victims: seq<Key>, k: Key)
    requires k in Of(m, server) - Elems(victims)
    ensures m - Elems(victims + [k]) == m - Elems(victims) - {k}
    ensures f - Elems(victims + [k]) == f - Elems(victims) - {k}
    ensures Of(m, server) - Elems(victims + [k]) == Of(m, server) - Elems(victims) - {k}
    ensures |Of(m, server) - Elems(victims + [k])| < |Of(m, server) - Elems(victims)|
    ensures Total(m, Of(m, server) - Elems(victims)) == m[k].size + Total(m, Of(m, server) - Elems(victims + [k]))
  {
    assert Elems(victims + [k]) == Elems(victims) + {k};
    assert Of(m, server) - Elems(victims + [k]) == Of(m, server) - Elems(victims) - {k};
    TotalSplit(m, Of(m, server) - Elems(victims), k);
  }

  lemma StillAgree(m: Index, f: map<Key, Data>, gone: set<Key>)
    requires Agree(m, f)
    ensures Agree(m - gone, f - gone)
  {
  }

  lemma EvictMore(m: Index, left: Index, server: int, limit: int, victims: seq<Key>, k: Key)
    requires OldestFirst(m, server, limit, victims)
    requires left == m - Elems(victims) && k in Of(left, server)
    requires forall other :: other in Of(left, server) ==> Accessed(left, k) <= Accessed(left, other)
    requires Total(m, Of(m, server) - Elems(victims)) > limit
    ensures OldestFirst(m, server, limit, victims + [k])
  {
    var more := victims + [k];
    assert Elems(more) == Elems(victims) + {k};
    forall other | other in Of(m, server) && other !in victims
      ensures Accessed(m, k) <= Accessed(m, other)
    {
      assert other in Of(left, server);
    }
    forall i | 0 <= i < |more|
      ensures Total(m, Of(m, server) - Elems(more[..i])) > limit
    {
      assert more[..i] == victims[..i];
      assert victims[..|victims|] == victims;
    }
  }

  // ---------- What an eviction means ----------

  /** What a store leaves on disk for its server is within the limit. */
  lemma StoredBytesWithinLimit(m: Index, server: int, limit: int, victims: seq<Key>)
    requires IsEviction(m, server, limit, victims)
    ensures var left := m - Elems(victims); Total(left, Of(left, server)) <= limit
    ensures forall k :: k in m && k.server != server ==>
              k in m - Elems(victims) && (m - Elems(victims))[k] == m[k]
  {
    var left := m - Elems(victims);
    assert Of(left, server) == Of(m, server) - Elems(victims);
    TotalSame(m, left, Of(left, server));
  }

  /** Whatever is evicted was last used no later than anything of that server that stays, and in that order. */
  lemma TheOldestGo(m: Index, server: int, limit: int, victims: seq<Key>, i: nat, k: Key)
    requires IsEviction(m, server, limit, victims) && i < |victims|
    ensures victims[i] in m && victims[i].server == server
    ensures forall j :: 0 <= j < i ==> victims[j] in m && m[victims[j]].accessedAt <= m[victims[i]].accessedAt
    ensures k in m && k.server == server && k !in victims ==> m[victims[i]].accessedAt <= m[k].accessedAt
  {
    forall j | 0 <= j <= i
      ensures victims[j] in Of(m, server)
    {
      assert victims[j] in Elems(victims);
    }
    if k in m && k.server == server && k !in victims {
      var v := victims[i];
      assert v in victims && k in Of(m, server);
      assert Accessed(m, v) <= Accessed(m, k);
    }
  }

  /** With distinct access times there is only one possible eviction. */
  lemma EvictionIsUnique(m: Index, server: int, limit: int, a: seq<Key>, b: seq<Key>)
    requires IsEviction(m, server, limit, a) && IsEviction(m, server, limit, b)
    requires forall x, y :: x in Of(m, server) && y in Of(m, server) && x != y ==> Accessed(m, x) != Accessed(m, y)
    ensures a == b
  {
    if |a| <= |b| {
      CommonPrefix(m, server, limit, a, b, |a|);
      PrefixFits(m, server, limit, a, b);
    } else {
      CommonPrefix(m, server, limit, b, a, |b|);
      PrefixFits(m, server, limit, b, a);
    }
  }

  lemma PrefixFits(m: Index, server: int, limit: int, a: seq<Key>, b: seq<Key>)
    requires IsEviction(m, server, limit, a) && IsEviction(m, server, limit, b)
    requires |a| <= |b| && a[..|a|] == b[..|a|]
    ensures a == b
  {
    assert a[..|a|] == a;
    if |a| < |b| {
      PrefixTooShort(m, server, limit, b, |a|);
    }
    assert b[..|b|] == b;
  }

  lemma PrefixTooShort(m: Index, server: int, limit: int, victims: seq<Key>, i: int)
    requires IsEviction(m, server, limit, victims) && 0 <= i < |victims|
    ensures Total(m, Of(m, server) - Elems(victims[..i])) > limit
  {
  }

  lemma {:induction false} CommonPrefix(m: Index, server: int, limit: int, a: seq<Key>, b: seq<Key>, n: nat)
    requires IsEviction(m, server, limit, a) && IsEviction(m, server, limit, b)
    requires forall x, y :: x in Of(m, server) && y in Of(m, server) && x != y ==> Accessed(m, x) != Accessed(m, y)
    requires n <= |a| <= |b|
    ensures a[..n] == b[..n]
    decreases n
  {
    if n > 0 {
      CommonPrefix(m, server, limit, a, b, n - 1);
      NotBefore(m, server, limit, a, b, n);
      NotBefore(m, server, limit, b, a, n);
      SameVictim(m, server, limit, a, b, n - 1);
      assert a[..n] == a[..n - 1] + [a[n - 1]] && b[..n] == b[..n - 1] + [b[n - 1]];
    }
  }

  lemma SameVictim(m: Index, server: int, limit: int, a: seq<Key>, b: seq<Key>, i: nat)
    requires IsEviction(m, server, limit, a) && IsEviction(m, server, limit, b) && i < |a| && i < |b|
    requires forall x, y :: x in Of(m, server) && y in Of(m, server) && x != y ==> Accessed(m, x) != Accessed(m, y)
    requires Accessed(m, a[i]) == Accessed(m, b[i])
    ensures a[i] == b[i]
  {
    assert a[i] in Elems(a) && b[i] in Elems(b);
  }

  /** After the same n - 1 victims, the next one of a is not used later than the next one of b. */
  lemma NotBefore(m: Index, server: int, limit: int, a: seq<Key>, b: seq<Key>, n: nat)
    requires IsEviction(m, server, limit, a) && IsEviction(m, server, limit, b)
    requires 1 <= n <= |a| && n <= |b| && a[..n - 1] == b[..n - 1]
    ensures Accessed(m, a[n - 1]) <= Accessed(m, b[n - 1])
  {
    var x, y := a[n - 1], b[n - 1];
    assert x in Elems(a) && y in Elems(b);
    forall j | 0 <= j < n - 1
      ensures a[j] != y
    {
      assert a[..n - 1][j] == b[..n - 1][j];
    }
    if y in a {
      var j :| 0 <= j < |a| && a[j] == y;
    }
  }

  /** A file that fits on its own and is the last one used survives its own store. */
  lemma NewestSurvives(m: Index, server: int, limit: int, victims: seq<Key>, k: Key)
    requires IsEviction(m, server, limit, victims)
    requires k in Of(m, server) && m[k].size <= limit
    requires forall other :: other in Of(m, server) && other != k ==> Accessed(m, other) < Accessed(m, k)
    ensures k !in victims
  {
    if k in victims {
      var i :| 0 <= i < |victims| && victims[i] == k;
      OnlyNewestLeft(m, server, limit, victims, k, i);
      TotalSplit(m, {k}, k);
      PrefixTooShort(m, server, limit, victims, i);
    }
  }

  lemma OnlyNewestLeft(m: Index, server: int, limit: int, victims: seq<Key>, k: Key, i: nat)
    requires IsEviction(m, server, limit, victims) && i < |victims| && victims[i] == k && k in Of(m, server)
    requires forall other :: other in Of(m, server) && other != k ==> Accessed(m, other) < Accessed(m, k)
    ensures Of(m, server) - Elems(victims[..i]) == {k}
  {
    assert k !in victims[..i];
    forall other | other in Of(m, server) && other != k
      ensures other in victims[..i]
    {
      assert k in victims && other in victims;
      var j :| 0 <= j < |victims| && victims[j] == other;
      assert victims[..i][j] == other by { assert j < i; }
    }
  }
}
