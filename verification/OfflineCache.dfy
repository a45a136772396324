// Saving the query cache and merging it back (client/src/lib/offline-cache.ts).
module OfflineCache {
  import opened Wrappers

  type Key = string  // the hash of a query key
  type Data = string
  type Millis = nat

  const MAX_CACHE_AGE_MS: nat := 7 * 24 * 60 * 60_000

  datatype Status = Pending | Failed | Success

  // `data` is None where the source has undefined.
  datatype Query = Query(status: Status, data: Option<Data>, dataUpdatedAt: Millis)

  type Cache = map<Key, Query>

  datatype CachedQuery = CachedQuery(key: Key, data: Data, dataUpdatedAt: Millis)

  datatype CacheFile = CacheFile(version: int, savedAt: Millis, queries: seq<CachedQuery>)

  // ---- saving ----

  datatype Keyed = Keyed(key: Key, query: Query)

  predicate Saved(q: Query) {
    q.status == Success && q.data.Some?
  }

  // The entries for the first `n` queries of the cache.
  function Serialized(all: seq<Keyed>, n: nat): seq<CachedQuery>
    requires n <= |all|
  {
    if n == 0 then []
    else
      var q := all[n - 1];
      Serialized(all, n - 1)
      + if Saved(q.query) then [CachedQuery(q.key, q.query.data.value, q.query.dataUpdatedAt)] else []
  }

  // ---- merging ----

  predicate Fresh(e: CachedQuery, now: Millis) {
    now - e.dataUpdatedAt <= MAX_CACHE_AGE_MS
  }

  // A time stamp of 0 is falsy and so protects nothing.
  predicate Protected(c: Cache, key: Key, at: Millis) {
    key in c && c[key].dataUpdatedAt != 0 && c[key].dataUpdatedAt >= at
  }

  predicate Taken(c: Cache, e: CachedQuery, now: Millis) {
    Fresh(e, now) && !Protected(c, e.key, e.dataUpdatedAt)
  }

  function Restored(e: CachedQuery): Query {
    Query(Success, Some(e.data), e.dataUpdatedAt)
  }

  function Put(c: Cache, e: CachedQuery, now: Millis): Cache {
    if Taken(c, e, now) then c[e.key := Restored(e)] else c
  }

  // The cache and the count after the first `n` entries.
  function Hydrated(c: Cache, entries: seq<CachedQuery>, now: Millis, n: nat): (Cache, nat)
    requires n <= |entries|
  {
    if n == 0 then (c, 0)
    else
      var (before, restored) := Hydrated(c, entries, now, n - 1);
      (Put(before, entries[n - 1], now), if Taken(before, entries[n - 1], now) then restored + 1 else restored)
  }

  function Hydrate(c: Cache, entries: seq<CachedQuery>, now: Millis): (Cache, nat) {
    Hydrated(c, entries, now, |entries|)
  }

  predicate Loads(file: CacheFile, now: Millis) {
    file.version == 1 && now - file.savedAt <= MAX_CACHE_AGE_MS
  }

  function Load(c: Cache, file: CacheFile, now: Millis): Cache {
    if Loads(file, now) then Hydrate(c, file.queries, now).0 else c
  }

  // ---- the functions in the source's imperative form ----

  class QueryClient {
    var cache: Cache

    constructor (cache: Cache)
      ensures this.cache == cache
    {
      this.cache := cache;
    }

    method SetQueryData(key: Key, data: Data, updatedAt: Millis)
      modifies this
      ensures cache == old(cache)[key := Query(Success, Some(data), updatedAt)]
    {
      cache := cache[key := Query(Success, Some(data), updatedAt)];
    }

    method HydrateCache(file: CacheFile, now: Millis) returns (restored: nat)
      modifies this
      ensures (cache, restored) == Hydrate(old(cache), file.queries, now)
    {
      restored := 0;
      for i := 0 to |file.queries|
        invariant (cache, restored) == Hydrated(old(cache), file.queries, now, i)
      {
        var entry := file.queries[i];
        if now - entry.dataUpdatedAt > MAX_CACHE_AGE_MS { continue; }
        if entry.key in cache {
          var existing := cache[entry.key].dataUpdatedAt;
          if existing != 0 && existing >= entry.dataUpdatedAt { continue; }
        }
        SetQueryData(entry.key, entry.data, entry.dataUpdatedAt);
        restored := restored + 1;
      }
    }

    method LoadCacheFromDisk(file: Option<CacheFile>, now: Millis)
      modifies this
      ensures cache == if file.Some? then Load(old(cache), file.value, now) else old(cache)
    {
      if file.None? { return; }
      if file.value.version != 1 { return; }
      if now - file.value.savedAt > MAX_CACHE_AGE_MS { return; }
      var count := HydrateCache(file.value, now);
    }
  }

  // `all` is the cache in the order it is listed in.
  method SerializeCache(all: seq<Keyed>, now: Millis) returns (file: CacheFile)
    ensures file == CacheFile(1, now, Serialized(all, |all|))
  {
    var queries: seq<CachedQuery> := [];
    for i := 0 to |all|
      invariant queries == Serialized(all, i)
    {
      if all[i].query.status != Success { continue; }
      if all[i].query.data.None? { continue; }
      queries := queries + [CachedQuery(all[i].key, all[i].query.data.value, all[i].query.dataUpdatedAt)];
    }
    return CacheFile(1, now, queries);
  }

  // ---- newest wins ----

  predicate Candidate(entries: seq<CachedQuery>, key: Key, now: Millis, n: nat, i: nat)
    requires n <= |entries|
  {
    i < n && entries[i].key == key && Fresh(entries[i], now)
  }

  // The newest fresh entry for `key`: the first of equals, or the last when
  // their time is 0.
  ghost predicate Best(entries: seq<CachedQuery>, key: Key, now: Millis, n: nat, i: nat)
    requires n <= |entries|
  {
    && Candidate(entries, key, now, n, i)
    && forall j: nat :: Candidate(entries, key, now, n, j) ==>
         && entries[j].dataUpdatedAt <= entries[i].dataUpdatedAt
         && (entries[j].dataUpdatedAt == entries[i].dataUpdatedAt ==>
               if entries[i].dataUpdatedAt == 0 then j <= i else i <= j)
  }

  ghost predicate NoCandidate(entries: seq<CachedQuery>, key: Key, now: Millis, n: nat)
    requires n <= |entries|
  {
    forall i: nat :: !Candidate(entries, key, now, n, i)
  }

  // Of an old best and a new candidate at the end, one is the best.
  lemma BestOfOneMore(entries: seq<CachedQuery>, key: Key, now: Millis, n: nat, i: nat)
    requires 0 < n <= |entries| && Best(entries, key, now, n - 1, i)
    ensures var old_, e := entries[i].dataUpdatedAt, entries[n - 1].dataUpdatedAt;
            if Candidate(entries, key, now, n, n - 1) && (old_ < e || e == old_ == 0)
            then Best(entries, key, now, n, n - 1) else Best(entries, key, now, n, i)
  {
  }

  lemma {:induction false} BestUnlessNone(entries: seq<CachedQuery>, key: Key, now: Millis, n: nat)
    requires n <= |entries| && !NoCandidate(entries, key, now, n)
    ensures exists i: nat :: Best(entries, key, now, n, i)
    decreases n
  {
    if NoCandidate(entries, key, now, n - 1) {
      assert forall j: nat :: Candidate(entries, key, now, n, j) ==>
          j == n - 1 || Candidate(entries, key, now, n - 1, j);
      assert Best(entries, key, now, n, n - 1);
    } else {
      BestUnlessNone(entries, key, now, n - 1);
      var i: nat :| Best(entries, key, now, n - 1, i);
      BestOfOneMore(entries, key, now, n, i);
    }
  }

  predicate SameAt(c: Cache, c': Cache, key: Key) {
    (key in c' <==> key in c) && (key in c ==> c'[key] == c[key])
  }

  // What is left at the key of `e` when `e` is the best of all entries.
  predicate Settled(c: Cache, c': Cache, e: CachedQuery) {
    if Protected(c, e.key, e.dataUpdatedAt) then SameAt(c, c', e.key)
    else e.key in c' && c'[e.key] == Restored(e)
  }

  lemma PutFirst(c: Cache, before: Cache, e: CachedQuery, now: Millis)
    requires Fresh(e, now) && SameAt(c, before, e.key)
    ensures Settled(c, Put(before, e, now), e)
  {
  }

  lemma PutNewer(c: Cache, before: Cache, prior: CachedQuery, e: CachedQuery, now: Millis)
    requires Fresh(e, now) && prior.key == e.key && Settled(c, before, prior)
    requires prior.dataUpdatedAt < e.dataUpdatedAt || prior.dataUpdatedAt == e.dataUpdatedAt == 0
    ensures Settled(c, Put(before, e, now), e)
  {
  }

  lemma PutOlder(c: Cache, before: Cache, prior: CachedQuery, e: CachedQuery, now: Millis)
    requires prior.key == e.key && Settled(c, before, prior)
    requires e.dataUpdatedAt <= prior.dataUpdatedAt && prior.dataUpdatedAt != 0
    ensures Settled(c, Put(before, e, now), prior)
  {
  }

  lemma {:induction false} AfterNone(c: Cache, entries: seq<CachedQuery>, now: Millis, n: nat, key: Key)
    requires n <= |entries| && NoCandidate(entries, key, now, n)
    ensures SameAt(c, Hydrated(c, entries, now, n).0, key)
    decreases n
  {
    if n > 0 {
      var m: nat := n - 1;
      forall j: nat
        ensures !Candidate(entries, key, now, m, j)
      {
        assert !Candidate(entries, key, now, n, j);
      }
      AfterNone(c, entries, now, n - 1, key);
      assert !Candidate(entries, key, now, n, n - 1);
    }
  }

  lemma {:induction false} AfterBest(c: Cache, entries: seq<CachedQuery>, now: Millis, n: nat, key: Key, i: nat)
    requires n <= |entries| && Best(entries, key, now, n, i)
    ensures Settled(c, Hydrated(c, entries, now, n).0, entries[i])
    decreases n
  {
    var before, e := Hydrated(c, entries, now, n - 1).0, entries[n - 1];
    assert forall j: nat :: Candidate(entries, key, now, n - 1, j) ==> Candidate(entries, key, now, n, j);
    if i < n - 1 {
      assert Best(entries, key, now, n - 1, i);
      AfterBest(c, entries, now, n - 1, key, i);
      if Candidate(entries, key, now, n, n - 1) {
        PutOlder(c, before, entries[i], e, now);
      }
    } else if NoCandidate(entries, key, now, n - 1) {
      AfterNone(c, entries, now, n - 1, key);
      PutFirst(c, before, e, now);
    } else {
      BestUnlessNone(entries, key, now, n - 1);
      var j: nat :| Best(entries, key, now, n - 1, j);
      assert Candidate(entries, key, now, n, j);
      AfterBest(c, entries, now, n - 1, key, j);
      PutNewer(c, before, entries[j], e, now);
    }
  }

  // What the merge leaves at each key: the newest fresh entry, unless what was
  // there is as new.
  lemma NewestWins(c: Cache, entries: seq<CachedQuery>, now: Millis, key: Key)
    ensures var c' := Hydrate(c, entries, now).0;
            || (NoCandidate(entries, key, now, |entries|) && SameAt(c, c', key))
            || exists i: nat :: Best(entries, key, now, |entries|, i) && Settled(c, c', entries[i])
  {
    if NoCandidate(entries, key, now, |entries|) {
      AfterNone(c, entries, now, |entries|, key);
    } else {
      BestUnlessNone(entries, key, now, |entries|);
      var i: nat :| Best(entries, key, now, |entries|, i);
      AfterBest(c, entries, now, |entries|, key, i);
    }
  }

  // No merge makes a query older, nor leaves it older than a fresh entry.
  lemma NothingGetsOlder(c: Cache, entries: seq<CachedQuery>, now: Millis, key: Key, j: nat)
    ensures var c' := Hydrate(c, entries, now).0;
            && (key in c ==> key in c' && c[key].dataUpdatedAt <= c'[key].dataUpdatedAt)
            && (Candidate(entries, key, now, |entries|, j) ==>
                  key in c' && entries[j].dataUpdatedAt <= c'[key].dataUpdatedAt)
  {
    NewestWins(c, entries, now, key);
  }

  // Merging the same file again changes nothing.
  lemma HydrateIsIdempotent(c: Cache, entries: seq<CachedQuery>, now: Millis)
    ensures var c' := Hydrate(c, entries, now).0;
            Hydrate(c', entries, now).0 == c'
  {
    var c' := Hydrate(c, entries, now).0;
    var c'' := Hydrate(c', entries, now).0;
    forall key: Key
      ensures SameAt(c', c'', key)
    {
      if NoCandidate(entries, key, now, |entries|) {
        AfterNone(c', entries, now, |entries|, key);
      } else {
        BestUnlessNone(entries, key, now, |entries|);
        var i: nat :| Best(entries, key, now, |entries|, i);
        AfterBest(c, entries, now, |entries|, key, i);
        AfterBest(c', entries, now, |entries|, key, i);
      }
    }
    assert forall key :: key in c'' <==> key in c' by {
      forall key: Key ensures key in c'' <==> key in c' { assert SameAt(c', c'', key); }
    }
    assert forall key :: key in c' ==> c''[key] == c'[key] by {
      forall key: Key ensures key in c' ==> c''[key] == c'[key] { assert SameAt(c', c'', key); }
    }
  }

  // ---- saving and merging back ----

  predicate DistinctKeys(all: seq<Keyed>) {
    forall i, j :: 0 <= i < j < |all| ==> all[i].key != all[j].key
  }

  predicate Kept(q: Keyed, now: Millis) {
    Saved(q.query) && now - q.query.dataUpdatedAt <= MAX_CACHE_AGE_MS
  }

  // The part of the cache that a save carries over to time `now`.
  function Survivors(all: seq<Keyed>, now: Millis, n: nat): Cache
    requires n <= |all|
  {
    if n == 0 then map[]
    else
      var q := all[n - 1];
      if Kept(q, now) then Survivors(all, now, n - 1)[q.key := q.query] else Survivors(all, now, n - 1)
  }

  lemma {:induction false} SurvivorsAre(all: seq<Keyed>, now: Millis, n: nat)
    requires n <= |all| && DistinctKeys(all)
    ensures forall key :: key in Survivors(all, now, n) <==>
              exists i :: 0 <= i < n && all[i].key == key && Kept(all[i], now)
    ensures forall i :: 0 <= i < n && Kept(all[i], now) ==>
              all[i].key in Survivors(all, now, n) && Survivors(all, now, n)[all[i].key] == all[i].query
    decreases n
  {
    if n > 0 {
      SurvivorsAre(all, now, n - 1);
    }
  }

  lemma {:induction false} HydratedPrefix(c: Cache, a: seq<CachedQuery>, b: seq<CachedQuery>, now: Millis, n: nat)
    requires n <= |a|
    ensures Hydrated(c, a + b, now, n) == Hydrated(c, a, now, n)
    decreases n
  {
    if n > 0 {
      HydratedPrefix(c, a, b, now, n - 1);
    }
  }

  lemma SaveOneMore(all: seq<Keyed>, now: Millis, n: nat)
    requires 0 < n <= |all| && Saved(all[n - 1].query)
    ensures var q := all[n - 1];
            var e := CachedQuery(q.key, q.query.data.value, q.query.dataUpdatedAt);
            var (c, k) := Hydrate(map[], Serialized(all, n - 1), now);
            Hydrate(map[], Serialized(all, n), now)
            == (Put(c, e, now), if Taken(c, e, now) then k + 1 else k)
  {
    var before, q := Serialized(all, n - 1), all[n - 1];
    var e := CachedQuery(q.key, q.query.data.value, q.query.dataUpdatedAt);
    assert Serialized(all, n) == before + [e];
    HydratedPrefix(map[], before, [e], now, |before|);
    assert (before + [e])[|before|] == e;
  }

  lemma NotYetSurvivor(all: seq<Keyed>, now: Millis, n: nat)
    requires 0 < n <= |all| && DistinctKeys(all)
    ensures all[n - 1].key !in Survivors(all, now, n - 1)
  {
    SurvivorsAre(all, now, n - 1);
  }

  lemma RestoreOneMore(c: Cache, q: Keyed, now: Millis)
    requires q.key !in c && Saved(q.query)
    ensures var e := CachedQuery(q.key, q.query.data.value, q.query.dataUpdatedAt);
            && (Taken(c, e, now) <==> Kept(q, now))
            && Put(c, e, now) == (if Kept(q, now) then c[q.key := q.query] else c)
    ensures |c[q.key := q.query]| == |c| + 1
  {
    assert c[q.key := q.query].Keys == c.Keys + {q.key};
  }

  // Each survivor is restored once.
  lemma {:induction false} SaveThenHydrate(all: seq<Keyed>, now: Millis, n: nat)
    requires n <= |all| && DistinctKeys(all)
    ensures Hydrate(map[], Serialized(all, n), now) == (Survivors(all, now, n), |Survivors(all, now, n)|)
    decreases n
  {
    if n > 0 {
      SaveThenHydrate(all, now, n - 1);
      if Saved(all[n - 1].query) {
        NotYetSurvivor(all, now, n);
        SaveOneMore(all, now, n);
        RestoreOneMore(Survivors(all, now, n - 1), all[n - 1], now);
      } else {
        assert Serialized(all, n) == Serialized(all, n - 1);
      }
    }
  }

  // A cache saved and loaded into an empty client comes back with exactly its
  // successful queries that are at most seven days old, each as it was, and the
  // file's own age check drops nothing more.
  lemma RoundTrip(all: seq<Keyed>, savedAt: Millis, now: Millis)
    requires DistinctKeys(all) && savedAt <= now
    requires forall i :: 0 <= i < |all| ==> all[i].query.dataUpdatedAt <= savedAt
    ensures var back := Load(map[], CacheFile(1, savedAt, Serialized(all, |all|)), now);
            && (forall key :: key in back <==> exists i :: 0 <= i < |all| && all[i].key == key && Kept(all[i], now))
            && (forall i :: 0 <= i < |all| && Kept(all[i], now) ==> back[all[i].key] == all[i].query)
  {
    SaveThenHydrate(all, now, |all|);
    SurvivorsAre(all, now, |all|);
  }

  // ---- ages and versions, written out ----

  lemma AgesAre(e: CachedQuery, q: Keyed, file: CacheFile, c: Cache, now: Millis)
    ensures Fresh(e, now) <==> now <= e.dataUpdatedAt + 604_800_000
    ensures Kept(q, now) <==>
              q.query.status == Success && q.query.data.Some? && now <= q.query.dataUpdatedAt + 604_800_000
    ensures file.version != 1 || now > file.savedAt + 604_800_000 ==> Load(c, file, now) == c
    ensures file.version == 1 && now <= file.savedAt + 604_800_000 ==>
              Load(c, file, now) == Hydrate(c, file.queries, now).0
  {
  }

  // One entry: taken when it is fresh and nothing as new is there, a time of 0
  // counting as nothing.
  lemma OneEntry(c: Cache, e: CachedQuery, now: Millis)
    ensures var taken := now <= e.dataUpdatedAt + 604_800_000
                         && (e.key in c ==> c[e.key].dataUpdatedAt == 0 || c[e.key].dataUpdatedAt < e.dataUpdatedAt);
            Hydrate(c, [e], now) == if taken then (c[e.key := Query(Success, Some(e.data), e.dataUpdatedAt)], 1) else (c, 0)
  {
    assert Hydrated(c, [e], now, 0) == (c, 0);
  }
}
