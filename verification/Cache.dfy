/** The local blob cache: which blobs may be evicted, in which order, and how many are. */
module Cache {
  import opened Types
  import opened Server
  import opened Index
  import opened Device
  import opened Sums

  type Entries = map<BlobId, CacheEntry>

  ghost function Sizes(cache: Entries): map<nat, nat> {
    map b | b in cache :: cache[b].size
  }

  /** `SELECT SUM(size) FROM blob_cache`. */
  ghost function TotalSize(cache: Entries): nat {
    Sum(Sizes(cache))
  }

  lemma NothingCached()
    ensures TotalSize(map[]) == 0
  {
    assert Sizes(map[]) == map[];
  }

  lemma TotalSizeWithout(cache: Entries, b: BlobId)
    requires b in cache
    ensures TotalSize(cache) == cache[b].size + TotalSize(cache - {b})
  {
    SumWithout(Sizes(cache), b);
    assert Sizes(cache) - {b} == Sizes(cache - {b});
  }

  /** A part of a cache is no larger. */
  lemma PartOfCache(part: Entries, cache: Entries)
    requires forall b :: b in part ==> b in cache && part[b].size == cache[b].size
    ensures TotalSize(part) <= TotalSize(cache)
  {
    SumMonotone(Sizes(part), Sizes(cache));
  }

  method CacheTotalSize(cache: Entries) returns (total: nat)
    ensures total == TotalSize(cache)
  {
    total := 0;
    var rest := cache;
    NothingCached();
    while rest != map[]
      invariant total + TotalSize(rest) == TotalSize(cache)
      decreases |rest|
    {
      var b :| b in rest;
      TotalSizeWithout(rest, b);
      total := total + rest[b].size;
      rest := rest - {b};
    }
  }

  ghost predicate NoDuplicates(list: seq<BlobId>) {
    forall i, j :: 0 <= i < j < |list| ==> list[i] != list[j]
  }

  /** The rows of `cache_evictable_by_lru`: every cached blob no row pins, oldest access first. */
  ghost predicate EvictionOrder(rows: map<DocId, Row>, cache: Entries, list: seq<BlobId>) {
    && NoDuplicates(list)
    && (forall b :: b in list <==> b in cache && !Pinned(rows, b))
    && (forall i, j :: 0 <= i < j < |list| ==> cache[list[i]].lastAccess <= cache[list[j]].lastAccess)
  }

  method CacheEvictableByLru(rows: map<DocId, Row>, cache: Entries) returns (list: seq<BlobId>)
    ensures EvictionOrder(rows, cache, list)
    ensures forall b :: b in list <==>
      b in cache && forall id :: id in rows && rows[id].blobId == Some(b) ==> !rows[id].keepOffline && !rows[id].dirty
    ensures forall i, j :: 0 <= i < j < |list| ==> list[i] != list[j] && cache[list[i]].lastAccess <= cache[list[j]].lastAccess
  {
    list := [];
    var rest := set b | b in cache && !Pinned(rows, b);
    while rest != {}
      invariant NoDuplicates(list)
      invariant forall b :: b in list || b in rest <==> b in cache && !Pinned(rows, b)
      invariant forall b :: b in list ==> b !in rest
      invariant forall i, j :: 0 <= i < j < |list| ==> cache[list[i]].lastAccess <= cache[list[j]].lastAccess
      invariant forall i, b :: 0 <= i < |list| && b in rest ==> cache[list[i]].lastAccess <= cache[b].lastAccess
    {
      var b := Oldest(cache, rest);
      list := list + [b];
      rest := rest - {b};
    }
  }

  method Oldest(cache: Entries, among: set<BlobId>) returns (oldest: BlobId)
    requires among != {} && among <= cache.Keys
    ensures oldest in among
    ensures forall b :: b in among ==> cache[oldest].lastAccess <= cache[b].lastAccess
  {
    oldest :| oldest in among;
    var rest := among - {oldest};
    while rest != {}
      invariant rest <= among && oldest in among
      invariant forall b :: b in among && b !in rest ==> cache[oldest].lastAccess <= cache[b].lastAccess
    {
      var b :| b in rest;
      rest := rest - {b};
      if cache[b].lastAccess < cache[oldest].lastAccess {
        oldest := b;
      }
    }
  }

  // ------------------------------------------------------------------ eviction -------------

  function Without(cache: Entries, gone: seq<BlobId>): Entries {
    map b | b in cache && b !in gone :: cache[b]
  }

  /** Eviction to `limit` bytes in the order `list` removes its first n blobs: none if the cache
      fits; otherwise the fewest that make it fit, or all of them. */
  ghost predicate Evicts(cache: Entries, limit: int, list: seq<BlobId>, n: nat) {
    && n <= |list|
    && (forall k :: 0 <= k < n ==> TotalSize(Without(cache, list[..k])) > limit)
    && (n < |list| ==> TotalSize(Without(cache, list[..n])) <= limit)
  }

  lemma WithoutOneMore(cache: Entries, list: seq<BlobId>, n: nat)
    requires NoDuplicates(list) && n < |list| && list[n] in cache
    ensures Without(cache, list[..n + 1]) == Without(cache, list[..n]) - {list[n]}
    ensures list[n] in Without(cache, list[..n]) && Without(cache, list[..n])[list[n]] == cache[list[n]]
    ensures TotalSize(Without(cache, list[..n + 1])) == TotalSize(Without(cache, list[..n])) - cache[list[n]].size
  {
    assert list[..n + 1] == list[..n] + [list[n]];
    assert Without(cache, list[..n + 1]) == Without(cache, list[..n]) - {list[n]};
    TotalSizeWithout(Without(cache, list[..n]), list[n]);
  }

  lemma WithoutNone(cache: Entries)
    ensures Without(cache, []) == cache
  {
  }

  /** How many blobs go is determined by the order. */
  lemma EvictsUnique(cache: Entries, limit: int, list: seq<BlobId>, n: nat, m: nat)
    requires Evicts(cache, limit, list, n) && Evicts(cache, limit, list, m)
    ensures n == m
  {
  }

  /** The blob at position k of the order survives exactly when the cache fits the limit without
      the blobs before it (or without fewer of them). */
  lemma {:induction false} SurvivesIff(cache: Entries, limit: int, list: seq<BlobId>, n: nat, k: nat)
    requires NoDuplicates(list) && (forall b :: b in list ==> b in cache)
    requires Evicts(cache, limit, list, n) && k < |list|
    ensures list[k] in Without(cache, list[..n]) <==> TotalSize(Without(cache, list[..k])) <= limit
  {
    if k < n {
      assert list[..n][k] == list[k];
    } else {
      assert list[k] !in list[..n];
      SmallerWithout(cache, list, n, k);
    }
  }

  lemma {:induction false} SmallerWithout(cache: Entries, list: seq<BlobId>, n: nat, k: nat)
    requires NoDuplicates(list) && (forall b :: b in list ==> b in cache) && n <= k <= |list|
    ensures TotalSize(Without(cache, list[..k])) <= TotalSize(Without(cache, list[..n]))
    decreases k
  {
    if n < k {
      SmallerWithout(cache, list, n, k - 1);
      WithoutOneMore(cache, list, k - 1);
    }
  }

  /** What is left when everything evictable has gone: the pinned blobs. */
  function OnlyPinned(rows: map<DocId, Row>, cache: Entries): Entries {
    map b | b in cache && Pinned(rows, b) :: cache[b]
  }

  /** A blob that was accessed after every other unpinned blob survives the pass after its own
      download exactly when it fits next to the pinned ones. */
  lemma NewestSurvivesIff(rows: map<DocId, Row>, cache: Entries, limit: int, list: seq<BlobId>, n: nat, b: BlobId)
    requires EvictionOrder(rows, cache, list) && Evicts(cache, limit, list, n)
    requires b in cache && !Pinned(rows, b)
    requires forall x :: x in list && x != b ==> cache[x].lastAccess < cache[b].lastAccess
    ensures b in Without(cache, list[..n]) <==> cache[b].size + TotalSize(OnlyPinned(rows, cache)) <= limit
  {
    hide EvictionOrder, Evicts, Pinned, Without, OnlyPinned, NoDuplicates;
    NewestIsLast(rows, cache, list, b);
    var k := |list| - 1;
    SurvivesIff(cache, limit, list, n, k);
    WithoutOneMore(cache, list, k);
    assert list[..k + 1] == list;
    AllGone(rows, cache, list);
  }

  lemma NewestIsLast(rows: map<DocId, Row>, cache: Entries, list: seq<BlobId>, b: BlobId)
    requires EvictionOrder(rows, cache, list) && b in cache && !Pinned(rows, b)
    requires forall x :: x in list && x != b ==> cache[x].lastAccess < cache[b].lastAccess
    ensures list != [] && list[|list| - 1] == b && NoDuplicates(list) && forall x :: x in list ==> x in cache
  {
    hide Pinned;
    assert b in list;
    var i :| 0 <= i < |list| && list[i] == b;
    var k := |list| - 1;
    assert list[k] in list && cache[list[i]].lastAccess <= cache[list[k]].lastAccess;
  }

  lemma AllGone(rows: map<DocId, Row>, cache: Entries, list: seq<BlobId>)
    requires EvictionOrder(rows, cache, list)
    ensures Without(cache, list) == OnlyPinned(rows, cache)
  {
    hide Pinned;
  }

  // ------------------------------------------------------------------ pinned bytes ---------

  /** The bytes no eviction pass can free. */
  ghost function PinnedBytes(rows: map<DocId, Row>, cache: Entries): nat {
    TotalSize(OnlyPinned(rows, cache))
  }

  /** A blob of this size that is downloaded now is still there after its own eviction pass. */
  ghost predicate Survives(rows: map<DocId, Row>, cache: Entries, limit: int, b: BlobId, size: nat) {
    Pinned(rows, b) || PinnedBytes(rows, cache) + size <= limit
  }

  /** The bytes of a blob can be had: they are cached, or they can be fetched and stay long enough. */
  ghost predicate CanBeRead(rows: map<DocId, Row>, cache: Entries, limit: int, blobs: map<BlobId, StoredBlob>, b: BlobId) {
    b in cache || (b in blobs && Survives(rows, cache, limit, b, blobs[b].content.Size()))
  }

  /** What an eviction pass to `limit` does, whatever order equally old blobs come in. */
  ghost predicate Evicted(rows: map<DocId, Row>, cache: Entries, limit: int, order: seq<BlobId>, gone: seq<BlobId>) {
    if TotalSize(cache) <= limit then gone == []
    else EvictionOrder(rows, cache, order) && Evicts(cache, limit, order, |gone|) && gone == order[..|gone|]
  }

  /** After a pass the cache is within the limit, or only pinned blobs are left. */
  lemma EvictedEnough(rows: map<DocId, Row>, full: Entries, limit: int, order: seq<BlobId>, gone: seq<BlobId>)
    requires Evicted(rows, full, limit, order, gone)
    ensures var left := Without(full, gone);
      TotalSize(left) <= limit || forall b :: b in left ==> Pinned(rows, b)
  {
    hide Pinned, TotalSize;
    WithoutNone(full);
    if TotalSize(full) > limit && |gone| == |order| {
      assert gone == order;
    }
  }

  lemma DownloadSurvivesIff(rows: map<DocId, Row>, cache: Entries, limit: int, b: BlobId, e: CacheEntry,
                            order: seq<BlobId>, gone: seq<BlobId>)
    requires b !in cache && forall x :: x in cache ==> cache[x].lastAccess < e.lastAccess
    requires Evicted(rows, cache[b := e], limit, order, gone)
    ensures b in Without(cache[b := e], gone) <==> Survives(rows, cache, limit, b, e.size)
  {
    hide EvictionOrder, Pinned;
    var full := cache[b := e];
    TotalSizeWithout(full, b);
    assert full - {b} == cache;
    if TotalSize(full) <= limit {
      PartOfCache(OnlyPinned(rows, cache), cache);
    } else if Pinned(rows, b) {
      PinnedNotInOrder(rows, full, order, gone, b);
    } else {
      NewestOfAll(rows, full, order, b);
      NewestSurvivesIff(rows, full, limit, order, |gone|, b);
      assert OnlyPinned(rows, full) == OnlyPinned(rows, cache);
    }
  }

  lemma PinnedNotInOrder(rows: map<DocId, Row>, full: Entries, order: seq<BlobId>, gone: seq<BlobId>, b: BlobId)
    requires EvictionOrder(rows, full, order) && gone <= order && Pinned(rows, b) && b in full
    ensures b in Without(full, gone)
  {
    hide Pinned;
    assert b !in order;
  }

  lemma NewestOfAll(rows: map<DocId, Row>, full: Entries, order: seq<BlobId>, b: BlobId)
    requires EvictionOrder(rows, full, order) && b in full
    requires forall x :: x in full && x != b ==> full[x].lastAccess < full[b].lastAccess
    ensures forall x :: x in order ==> x in full
    ensures forall x :: x in order && x != b ==> full[x].lastAccess < full[b].lastAccess
  {
    hide Pinned;
  }

  lemma EvictionKeepsPinned(rows: map<DocId, Row>, full: Entries, gone: seq<BlobId>)
    requires forall x :: x in gone ==> !Pinned(rows, x)
    ensures PinnedBytes(rows, Without(full, gone)) == PinnedBytes(rows, full)
  {
    hide Pinned, TotalSize;
    assert OnlyPinned(rows, Without(full, gone)) == OnlyPinned(rows, full);
  }

  /** One more cached blob, pinned or not. */
  lemma OneMorePinned(rows: map<DocId, Row>, cache: Entries, b: BlobId, e: CacheEntry)
    requires b !in cache
    ensures PinnedBytes(rows, cache[b := e]) == PinnedBytes(rows, cache) + if Pinned(rows, b) then e.size else 0
  {
    hide Pinned, TotalSize;
    var full := cache[b := e];
    if Pinned(rows, b) {
      TotalSizeWithout(OnlyPinned(rows, full), b);
      assert OnlyPinned(rows, full) - {b} == OnlyPinned(rows, cache);
    } else {
      assert OnlyPinned(rows, full) == OnlyPinned(rows, cache);
    }
  }

  /** The bytes of one blob that an eviction pass cannot free. */
  ghost function PinnedSize(rows: map<DocId, Row>, cache: Entries, b: BlobId): nat {
    if b in cache && Pinned(rows, b) then cache[b].size else 0
  }

  /** Rows and cache changed for one blob at most. */
  lemma PinsDiffer(rows: map<DocId, Row>, cache: Entries, rows': map<DocId, Row>, cache': Entries, b: BlobId)
    requires forall x :: x != b ==> PinnedAlike(rows, cache, rows', cache', x)
    ensures PinnedBytes(rows', cache') - PinnedSize(rows', cache', b) == PinnedBytes(rows, cache) - PinnedSize(rows, cache, b)
  {
    hide Pinned, TotalSize;
    PinsWithout(rows, cache, b);
    PinsWithout(rows', cache', b);
    var less, less' := cache - {b}, cache' - {b};
    forall x ensures x in OnlyPinned(rows, less) <==> x in OnlyPinned(rows', less') {
      assert x != b ==> PinnedAlike(rows, cache, rows', cache', x);
    }
    forall x | x in OnlyPinned(rows, less) ensures OnlyPinned(rows, less)[x].size == OnlyPinned(rows', less')[x].size {
      assert PinnedAlike(rows, cache, rows', cache', x);
    }
    PartOfCache(OnlyPinned(rows, less), OnlyPinned(rows', less'));
    PartOfCache(OnlyPinned(rows', less'), OnlyPinned(rows, less));
  }

  ghost predicate PinnedAlike(rows: map<DocId, Row>, cache: Entries, rows': map<DocId, Row>, cache': Entries, x: BlobId) {
    && (x in cache && Pinned(rows, x) <==> x in cache' && Pinned(rows', x))
    && (x in cache && x in cache' ==> cache'[x].size == cache[x].size)
  }

  lemma PinsWithout(rows: map<DocId, Row>, cache: Entries, b: BlobId)
    ensures PinnedBytes(rows, cache) == PinnedBytes(rows, cache - {b}) + PinnedSize(rows, cache, b)
  {
    hide Pinned, TotalSize;
    if b in cache {
      assert (cache - {b})[b := cache[b]] == cache;
      OneMorePinned(rows, cache - {b}, b, cache[b]);
    } else {
      assert cache - {b} == cache;
    }
  }
}
