/** An unlocked vault: the local operations and the sync engine, in place. Every method takes the
    whole system along a run of `System.Next`, so whatever holds of all runs holds here. */
module Vault {
  import opened Types
  import opened Server
  import opened Changes
  import opened Index
  import opened Device
  import opened System
  import opened Invariant
  import opened Preservation
  import opened Runs
  import opened Theorems
  import opened Foreign
  import opened Edits
  import opened Cache
  import opened Network
  import opened Others
  import opened Steps
  import opened Pulling
  import opened Pushing
  import opened Room
  import opened Rounds
  import opened Obstacles

  datatype Error = Unreachable | NotFoundError | Storage | Crypto

  datatype SyncError = Failed(error: Error) | Contention

  datatype PullReport = PullReport(pulled: nat, conflicts: nat, warnings: nat)

  datatype SyncReport = SyncReport(pulled: nat, pushed: nat, conflicts: nat, warnings: nat)

  const MAX_ROUNDS: nat := 3

  /** A request that failed, unless none does, or something that is not there. */
  predicate CanHappen(error: Error, reliable: bool) {
    error == NotFoundError || error == Storage || (!reliable && error == Unreachable)
  }

  class UnlockedVault {
    const net: Network
    var rows: map<DocId, Row>
    var cursor: nat
    var index: seq<Summary>
    var cache: map<BlobId, CacheEntry>
    var cacheLimitMb: int
    ghost var inbox: Option<Page>
    ghost var pending: Option<Pending>

    ghost function View(): Device
      reads this
    {
      Device(rows, cursor, index, cache, inbox, pending)
    }

    /** The whole system: this vault, the server, and the other devices. */
    ghost function Whole(): System
      reads this, net
    {
      With(net.world, net.me, View())
    }

    /** The state is one that a run of events leads to. */
    ghost predicate Valid()
      reads this, net
    {
      net.me !in net.world.devices && Whole() == Run(net.trace)
    }

    ghost predicate Idle()
      reads this
    {
      inbox == None && pending == None
    }

    /** `Vault::create` or `Vault::join`: an empty store with the cursor at 0. */
    constructor (net: Network)
      requires net.me !in net.world.devices && net.world == Run(net.trace)
      modifies net`trace
      ensures View() == Device(map[], 0, [], map[], None, None) && cacheLimitMb == 512
      ensures Valid() && Idle() && this.net == net && net.trace == old(net.trace) + [Join(net.me)]
    {
      this.net := net;
      rows, cursor, index, cache, cacheLimitMb := map[], 0, [], map[], 512;
      inbox, pending := None, None;
      new;
      RunStep(net.trace, Join(net.me));
      net.trace := net.trace + [Join(net.me)];
    }

    /** Puts one event of this device on record. */
    ghost method Log(e: Event)
      requires net.me !in net.world.devices && Whole() == Next(Run(net.trace), e)
      modifies net`trace
      ensures Valid() && net.trace == old(net.trace) + [e]
      ensures Grows(Run(old(net.trace)), Whole())
    {
      hide Run, Next, Grows, Inv;
      RunStep(net.trace, e);
      net.trace := net.trace + [e];
      RunGrows(old(net.trace), net.trace);
    }

    /** Puts an event and the evictions after it on record. */
    ghost method LogWithEvictions(e: Event, full: map<BlobId, CacheEntry>, gone: seq<BlobId>)
      requires net.me !in net.world.devices
      requires With(net.world, net.me, View().(cache := full)) == Next(Run(net.trace), e)
      requires cache == Without(full, gone) && forall b :: b in gone ==> !Pinned(rows, b)
      modifies net`trace
      ensures Valid() && net.trace == old(net.trace) + [e] + EvictEvents(net.me, gone)
      ensures Grows(Run(old(net.trace)), Whole())
    {
      hide Next, Grows, Inv, Without, Pinned, RunFrom;
      RunStep(net.trace, e);
      EvictRun(net.world, net.me, View().(cache := full), gone);
      RunConcat(START, net.trace + [e], EvictEvents(net.me, gone));
      net.trace := net.trace + [e] + EvictEvents(net.me, gone);
      RunGrows(old(net.trace), net.trace);
    }

    /** Time passes at the other end. */
    method Others()
      requires Valid()
      modifies net
      ensures Valid() && old(net.trace) <= net.trace
      ensures OnlyOthers(old(Whole()), Whole(), rows, net.me)
      ensures net.budget + net.world.tables.lastSeq <= old(net.budget + net.world.tables.lastSeq)
      ensures net.alone ==> net.world == old(net.world)
      ensures Quiet(net.trace, |old(net.trace)|, net.me)
    {
      hide Inv, Grows, OnlyOthers, LeftAlone;
      ghost var before, s := net.world, Whole();
      ghost var run := net.Interleave();
      ForeignRunCommutes(before, run, net.me, View());
      RunConcat(START, old(net.trace), run);
      RunKeepsInv(old(net.trace));
      ForeignRun(s, run, net.me);
      LeftAloneOnlyOthers(s, Whole(), net.me);
    }

    // ---------------------------------------------------------------- cache ----------------

    function Limit(): int
      reads this
    {
      cacheLimitMb * 1024 * 1024
    }

    /** `evict_cache_over_limit`. `order` is the order the query answered in. */
    method EvictCacheOverLimit() returns (ghost order: seq<BlobId>, ghost gone: seq<BlobId>)
      modifies `cache
      ensures Evicted(rows, old(cache), Limit(), order, gone)
      ensures cache == Without(old(cache), gone)
      ensures forall b :: b in gone ==> !Pinned(rows, b)
      ensures forall b :: b in cache ==> b in old(cache) && cache[b] == old(cache)[b]
      ensures forall b :: b in old(cache) && b !in cache ==>
        && (forall id :: id in rows && rows[id].blobId == Some(b) ==> !rows[id].keepOffline && !rows[id].dirty)
        && (forall x :: x in cache ==> Pinned(rows, x) || cache[x].lastAccess >= old(cache)[b].lastAccess)
      ensures TotalSize(cache) <= cacheLimitMb * 1024 * 1024 || forall b :: b in cache ==> Pinned(rows, b)
      ensures gone != [] ==>
        gone[|gone| - 1] in old(cache) && TotalSize(cache) + old(cache)[gone[|gone| - 1]].size > cacheLimitMb * 1024 * 1024
    {
      hide Pinned, EvictionOrder, Without, TotalSize;
      order, gone := [], [];
      WithoutNone(cache);
      ghost var full := cache;
      var limit := cacheLimitMb * 1024 * 1024;
      var total := CacheTotalSize(cache);
      if total <= limit {
        EvictionInFull(rows, full, limit, order, gone);
        return;
      }
      var evictable := CacheEvictableByLru(rows, cache);
      OrderFacts(rows, cache, evictable);
      order := evictable;
      var i := 0;
      while i < |evictable| && total > limit
        invariant 0 <= i <= |evictable|
        invariant cache == Without(full, evictable[..i]) && total == TotalSize(cache)
        invariant forall k :: 0 <= k < i ==> TotalSize(Without(full, evictable[..k])) > limit
      {
        WithoutOneMore(full, evictable, i);
        total := total - cache[evictable[i]].size;
        cache := cache - {evictable[i]};
        i := i + 1;
      }
      gone := evictable[..i];
      assert Evicted(rows, full, limit, order, gone);
      EvictionInFull(rows, full, limit, order, gone);
    }

    /** `set_cache_limit_mb`. */
    method SetCacheLimitMb(mb: int)
      requires Valid()
      modifies `cacheLimitMb, `cache, net`trace
      ensures Valid() && cacheLimitMb == mb
      ensures forall b :: b in old(cache) && Pinned(rows, b) ==> b in cache && cache[b] == old(cache)[b]
      ensures TotalSize(cache) <= mb * 1024 * 1024 || forall b :: b in cache ==> Pinned(rows, b)
    {
      cacheLimitMb := mb;
      ghost var full := cache;
      ghost var order, gone := EvictCacheOverLimit();
      assert order[..|order|] == order;
      assert gone == [] ==> cache == full;
      EvictRun(net.world, net.me, View().(cache := full), gone);
      RunConcat(START, net.trace, EvictEvents(net.me, gone));
      net.trace := net.trace + EvictEvents(net.me, gone);
    }

    /** `ensure_cached`: a download is followed by an eviction pass that may take it away again. `at` is the
        place of the request in the run. */
    method EnsureCached(b: BlobId) returns (r: Result<(), Error>, ghost at: nat)
      requires Valid()
      modifies `cache, net
      ensures Valid() && old(net.trace) <= net.trace
      ensures OnlyOthers(old(Whole()), Whole(), rows, net.me)
      ensures net.budget + net.world.tables.lastSeq <= old(net.budget + net.world.tables.lastSeq)
      ensures forall x :: x in old(cache) && Pinned(rows, x) ==> x in cache
      ensures forall x :: x in cache && x !in old(cache) ==> x == b && b in Whole().contents
      ensures b in old(cache) ==> r.Ok? && cache == old(cache)
      ensures r.Ok? && Pinned(rows, b) ==> b in cache
      ensures PinnedBytes(rows, cache) == PinnedBytes(rows, old(cache))
        + if b in cache && b !in old(cache) && Pinned(rows, b) then Whole().contents[b].Size() else 0
      ensures r.Err? ==> cache == old(cache)
      ensures net.alone ==> net.world == old(net.world)
      ensures |old(net.trace)| <= at <= |net.trace| && QuietBut(net.trace, |old(net.trace)|, net.me, at)
      ensures at < |net.trace| ==> net.trace[at].Act? && net.trace[at].dev == net.me && net.trace[at].action.Download?
      ensures r.Err? || b in old(cache) ==> at == |net.trace|
      ensures var t := Run(net.trace[..at]);
        && net.me in t.devices && t.devices[net.me] == old(View()) && t.tables.blobs == net.world.tables.blobs
      ensures r.Err? ==> if b in net.world.tables.blobs then r.error == Unreachable else r.error in {Unreachable, NotFoundError}
      ensures net.reliable && r.Err? ==> r.error == NotFoundError
      ensures net.reliable ==> (r.Ok? <==> b in old(cache) || b in net.world.tables.blobs)
      ensures r.Ok? && b !in old(cache) ==> TotalSize(cache) <= Limit() || forall x :: x in cache ==> Pinned(rows, x)
      ensures net.reliable && b !in old(cache) && b in net.world.tables.blobs ==>
        at < |net.trace| && (b in cache <==> Survives(rows, old(cache), Limit(), b, net.world.tables.blobs[b].content.Size()))
    {
      hide OnlyOthers, Inv, Grows, Next, RunFrom, Pinned, Without, Evicts, EvictionOrder, TotalSize, PinnedBytes, Evicted, Survives;
      at := |net.trace|;
      assert net.trace[..at] == net.trace;
      if b in cache {
        OnlyOthersReflexive(Whole(), rows, net.me);
        return Ok(()), at;
      }
      Others();
      at := |net.trace|;
      assert net.trace[..at] == net.trace;
      ghost var s, before := Whole(), net.trace;
      var fails := net.Fails();
      if fails {
        return Err(Unreachable), at;
      }
      if b !in net.world.tables.blobs {
        return Err(NotFoundError), at;
      }
      var now := net.Now(cache);
      var content := net.world.tables.blobs[b].content;
      cache := cache[b := CacheEntry(content.Size(), now, content)];
      ghost var full := cache;
      ghost var order, gone := EvictCacheOverLimit();
      EvictedEnough(rows, full, Limit(), order, gone);
      NextDownload(s, net.world, net.me, b, now);
      StillThere(full, gone, cache);
      OneMorePinned(rows, old(cache), b, full[b]);
      EvictionKeepsPinned(rows, full, gone);
      if net.reliable {
        DownloadSurvivesIff(rows, old(cache), Limit(), b, full[b], order, gone);
      }
      LogWithEvictions(Act(net.me, Download(b, now)), full, gone);
      EvictionsAreQuiet(before, Act(net.me, Download(b, now)), net.me, gone);
      assert net.trace[..at] == before;
      StoredContent(net.trace, Whole(), b);
      SameHistoryOnlyOthers(s, Whole(), rows, net.me);
      OnlyOthersTransitive(old(Whole()), s, Whole(), rows, net.me);
      r := Ok(());
    }

    // ---------------------------------------------------------------- local operations -----

    /** `encrypt_new_document`: the row and its blob are stored, then the cache is cut back. */
    method EncryptNewDocument(id: DocId, b: BlobId, content: CipherBlob, fields: Fields, now: nat, nonce: nat,
                              thumb: Option<string>)
      returns (row: Row, meta: DocMeta, ghost gone: seq<BlobId>)
      modifies `rows, `cache
      ensures meta == NewMeta(fields, content, now, thumb) && row == NewRow(id, b, content, fields, now, nonce, thumb)
      ensures rows == old(rows)[id := row]
      ensures cache == Without(old(cache)[b := CacheEntry(content.Size(), now, content)], gone)
      ensures forall x :: x in gone ==> !Pinned(rows, x)
      ensures TotalSize(cache) <= Limit() || forall x :: x in cache ==> Pinned(rows, x)
    {
      hide Pinned, TotalSize, Without;
      meta := DocMeta(fields.title, fields.tags, fields.note, fields.mime, content.Size(), Digest(content),
                      fields.originalName, now, thumb);
      row := Row(1, 0, Some(b), content.Size(), Seal(id, 1, nonce, meta), false, true, fields.keepOffline, now);
      rows := rows[id := row];
      cache := cache[b := CacheEntry(content.Size(), now, content)];
      ghost var full, order := cache, [];
      order, gone := EvictCacheOverLimit();
      EvictedEnough(rows, full, Limit(), order, gone);
    }

    /** `add`. */
    method AddDocument(plain: Bytes, salt: nat, fields: Fields, now: nat, nonce: nat, thumb: Option<string>)
      returns (summary: Summary, ghost gone: seq<BlobId>)
      requires Valid() && Idle()
      modifies `rows, `cache, `index, net`world, net`trace
      ensures Valid() && Idle()
      ensures net.trace == old(net.trace) + [Act(net.me, Add(plain, salt, fields, now, nonce, thumb))] + EvictEvents(net.me, gone)
      ensures summary.id in rows && summary.id !in old(rows) && rows == old(rows)[summary.id := rows[summary.id]]
      ensures index == old(index) + [summary]
      ensures var id, row := summary.id, rows[summary.id];
        && row.blobId.Some? && row.blobId.value in cache
        && var content := cache[row.blobId.value].content;
        && content.doc == id && content.plain == plain && content.salt == salt
        && row.encMeta.doc == id && row.encMeta.version == 1 && row.encMeta.nonce == nonce
        && row.encMeta.plain == DocMeta(fields.title, fields.tags, fields.note, fields.mime, SealedLength(|plain|), Digest(content),
                                        fields.originalName, now, thumb)
        && row.version == 1 && row.base == 0 && row.blobSize == SealedLength(|plain|)
        && !row.deleted && row.dirty && row.keepOffline == fields.keepOffline && row.updatedAt == now
        && summary == Summary(id, fields.title, fields.tags, fields.note, fields.mime, SealedLength(|plain|), Digest(content),
                              fields.originalName, now, 1, true, fields.keepOffline, SealedLength(|plain|))
      ensures TotalSize(cache) <= Limit() || forall b :: b in cache ==> Pinned(rows, b)
    {
      hide Next, RunFrom, EvictEvents, Inv, Grows, Distinct, Pinned, Without, TotalSize;
      ghost var s := Whole();
      SupplyIsNew(net.trace, s, net.me);
      var id, b, content := net.NewBlob(plain, salt);
      var row, meta;
      row, meta, gone := EncryptNewDocument(id, b, content, fields, now, nonce, thumb);
      summary := ToSummary(id, row, meta);
      index := index + [summary];
      ghost var full := old(cache)[b := CacheEntry(content.Size(), now, content)];
      NextAdd(s, net.world, net.me, View().(cache := full), plain, salt, fields, now, nonce, thumb);
      PinsItsBlob(rows, id, b);
      StillThere(full, gone, cache);
      LogWithEvictions(Act(net.me, Add(plain, salt, fields, now, nonce, thumb)), full, gone);
    }

    /** `update_meta`. */
    method UpdateMeta(id: DocId, title: string, tags: seq<string>, note: string, now: nat, nonce: nat)
      returns (r: Result<Summary, Error>)
      requires Valid() && Idle()
      modifies `rows, `index, net`trace
      ensures Valid() && Idle()
      ensures net.trace == old(net.trace) + [Act(net.me, Edit(id, title, tags, note, now, nonce))]
      ensures var edited := EditDocument(old(View()), id, title, tags, note, now, nonce);
        if r.Ok? then edited == Some(View()) else edited == None && View() == old(View())
      ensures r.Ok? <==> id in old(rows) && !old(rows)[id].deleted
      ensures r.Err? ==> r.error == NotFoundError
      ensures r.Ok? ==>
        && rows == old(rows)[id := rows[id]]
        && var was, row, m := old(rows)[id], rows[id], old(rows)[id].encMeta.plain;
        && row == was.(version := was.base + 1, dirty := true, updatedAt := now, encMeta := row.encMeta)
        && row.encMeta == Sealed(id, was.base + 1, nonce, m.(title := title, tags := tags, note := note))
        && r.value == Summary(id, title, tags, note, m.mime, m.size, m.contentHash, m.originalName, m.createdAt,
                              was.base + 1, true, was.keepOffline, was.blobSize)
        && r.value in index && forall x: Summary :: x.id != id ==> (x in index <==> x in old(index))
    {
      hide Next, RunFrom, Run, Distinct, Find, Replace, Inv, Grows, EditDocument;
      LiveRowsCanChange(net.trace, net.me, id, title, tags, note, now, nonce);
      ghost var e := Act(net.me, Edit(id, title, tags, note, now, nonce));
      NextEdit(net.world, net.me, View(), id, title, tags, note, now, nonce);
      if id !in rows || rows[id].deleted {
        Log(e);
        return Err(NotFoundError);
      }
      var row := rows[id];
      var current := Find(index, id);
      var existing := Open(id, row.version, row.encMeta);
      // Neither is ever missing for a live document.
      assert current.Some? && existing.Some?;
      EditIsExact(net.trace, net.me, id, title, tags, note, now, nonce);
      var c := current.value;
      EditMade(View(), id, title, tags, note, now, nonce, c, existing.value);
      var meta := DocMeta(title, tags, note, c.mime, c.size, c.contentHash, c.originalName, c.createdAt, existing.value.thumb);
      row := row.(version := row.base + 1, dirty := true, updatedAt := now, encMeta := Seal(id, row.base + 1, nonce, meta));
      rows := rows[id := row];
      var summary := ToSummary(id, row, meta);
      index := Replace(index, summary);
      Log(e);
      r := Ok(summary);
    }

    /** `delete`. */
    method DeleteDocument(id: DocId, now: nat, nonce: nat) returns (r: Result<(), Error>)
      requires Valid() && Idle()
      modifies `rows, `index, net`trace
      ensures Valid() && Idle()
      ensures net.trace == old(net.trace) + [Act(net.me, Remove(id, now, nonce))]
      ensures var removed := RemoveDocument(old(View()), id, now, nonce);
        if r.Ok? then removed == Some(View()) else removed == None && View() == old(View()) && r.error == NotFoundError
      ensures r.Ok? <==> id in old(rows) && !old(rows)[id].deleted
      ensures r.Ok? ==>
        && rows == old(rows)[id := rows[id]] && cache == old(cache)
        && var was, row := old(rows)[id], rows[id];
        && row == Row(was.base + 1, was.base, None, 0, row.encMeta, true, true, was.keepOffline, now)
        && row.encMeta == Sealed(id, was.base + 1, nonce, was.encMeta.plain.(thumb := None))
        && forall x: Summary :: x in index <==> x in old(index) && x.id != id
    {
      hide Next, RunFrom, Run, Inv, Grows, Find, Retain;
      LiveRowsCanChange(net.trace, net.me, id, "", [], "", now, nonce);
      ghost var e := Act(net.me, Remove(id, now, nonce));
      NextRemove(net.world, net.me, View(), id, now, nonce);
      if id !in rows || rows[id].deleted {
        Log(e);
        return Err(NotFoundError);
      }
      var row := rows[id];
      var current := Find(index, id);
      // It is never missing for a live document.
      assert current.Some?;
      RemoveIsExact(net.trace, net.me, id, now, nonce);
      var c := current.value;
      var meta := DocMeta(c.title, c.tags, c.note, c.mime, c.size, c.contentHash, c.originalName, c.createdAt, None);
      row := row.(version := row.base + 1, dirty := true, deleted := true, blobId := None, blobSize := 0,
                  updatedAt := now, encMeta := Seal(id, row.base + 1, nonce, meta));
      rows := rows[id := row];
      index := Retain(index, id);
      Log(e);
      r := Ok(());
    }

    /** `set_keep_offline`. */
    method SetKeepOffline(id: DocId, keep: bool) returns (r: Result<(), Error>)
      requires Valid() && Idle()
      modifies `rows, `index, net`trace
      ensures Valid() && Idle()
      ensures net.trace == old(net.trace) + [Act(net.me, Keep(id, keep))]
      ensures r.Ok? <==> id in old(rows)
      ensures r.Err? ==> View() == old(View()) && r.error == NotFoundError
      ensures r.Ok? ==> rows == old(rows)[id := old(rows)[id].(keepOffline := keep)] && cache == old(cache)
      ensures r.Ok? ==> forall x: Summary :: x.id != id ==> (x in index <==> x in old(index))
    {
      hide Next, RunFrom, Run, Inv, Grows, Find, Replace;
      ghost var e := Act(net.me, Keep(id, keep));
      IndexIsOk(net.trace, Whole(), net.me);
      NextKeep(net.world, net.me, View(), id, keep);
      if id !in rows {
        Log(e);
        return Err(NotFoundError);
      }
      rows := rows[id := rows[id].(keepOffline := keep)];
      var slot := Find(index, id);
      if slot.Some? {
        index := Replace(index, slot.value.(keepOffline := keep));
      }
      Log(e);
      r := Ok(());
    }

    /** `rebuild_index`: what unlocking makes of the store is what the index already is. */
    method RebuildIndex() returns (out: seq<Summary>, skipped: set<DocId>)
      requires Valid()
      ensures skipped == {} && Distinct(out) && multiset(out) == multiset(index)
    {
      out, skipped := [], {};
      var rest := rows.Keys;
      while rest != {}
        invariant rest <= rows.Keys && Distinct(out)
        invariant forall x :: x in out <==> InIndex(rows, x) && x.id !in rest
        invariant skipped == set id | id in rows && id !in rest && !rows[id].deleted && Summarise(id, rows[id]).None?
      {
        var id :| id in rest;
        rest := rest - {id};
        if !rows[id].deleted {
          var summary := Summarise(id, rows[id]);
          if summary.Some? {
            out := out + [summary.value];
          } else {
            skipped := skipped + {id};
          }
        }
      }
      IndexIsOk(net.trace, Whole(), net.me);
      EveryRowOpens(net.trace, Whole(), net.me);
      SameMembersSameBag(out, index);
    }

    /** `open`: the bytes first encrypted for the document, by whichever device. */
    method OpenDocument(id: DocId) returns (r: Result<Bytes, Error>)
      requires Valid() && Idle()
      modifies `cache, net
      ensures Valid() && Idle() && old(net.trace) <= net.trace
      ensures OnlyOthers(old(Whole()), Whole(), rows, net.me)
      ensures r.Ok? ==> id in rows && !rows[id].deleted && IsContent(Whole().contents, rows[id], r.value)
      ensures id !in rows || rows[id].deleted ==> r == Err(NotFoundError) && cache == old(cache)
      ensures id in rows && !rows[id].deleted ==> rows[id].blobId.Some? && (rows[id].blobId.value in old(cache) ==> r.Ok?)
      ensures net.reliable && id in rows && !rows[id].deleted ==>
        && (r.Ok? <==> CanBeRead(rows, old(cache), Limit(), net.world.tables.blobs, rows[id].blobId.value))
        && (r.Err? ==> r.error == if rows[id].blobId.value in net.world.tables.blobs then Storage else NotFoundError)
      ensures net.alone ==> net.world == old(net.world)
      ensures r.Ok? ==>
        var b := rows[id].blobId.value;
        && b in cache && |old(net.trace)| < |net.trace|
        && net.trace[|net.trace| - 1] == Act(net.me, Touch(b, cache[b].lastAccess))
        && (net.reliable ==> forall x :: x in cache && x != b ==> cache[x].lastAccess < cache[b].lastAccess)
    {
      hide OnlyOthers, Inv, Grows, Next, RunFrom, Survives, PinnedBytes;
      ghost var start := Whole();
      OnlyOthersReflexive(start, rows, net.me);
      if id !in rows || rows[id].deleted {
        return Err(NotFoundError);
      }
      LiveRowsHaveBlobs(net.trace, start, net.me);
      var b := rows[id].blobId.value;
      var fetched;
      ghost var at;
      fetched, at := EnsureCached(b);
      if fetched.Err? {
        return Err(fetched.error);
      }
      // The download may have been evicted again in its own pass; then there is no file to open.
      if b !in cache {
        return Err(Storage);
      }
      CachedBytes(net.trace, Whole(), net.me, id);
      var plain := cache[b].content.Decrypt(id);
      ghost var s := Whole();
      var now := net.Now(cache);
      cache := cache[b := cache[b].(lastAccess := now)];
      NextTouch(s, net.world, net.me, b, now);
      Log(Act(net.me, Touch(b, now)));
      SameHistoryOnlyOthers(s, Whole(), rows, net.me);
      OnlyOthersTransitive(start, s, Whole(), rows, net.me);
      r := Ok(plain.value);
    }

    // ---------------------------------------------------------------- pulling --------------

    /** A pull that fails: what it held in memory is gone. */
    ghost method GiveUp()
      requires Valid()
      modifies `inbox, `pending, net`trace
      ensures Valid() && Idle() && net.trace == old(net.trace) + [Act(net.me, Abandon)]
      ensures OnlyOthers(old(Whole()), Whole(), rows, net.me)
    {
      inbox, pending := None, None;
      WithTwice(net.world, net.me, old(View()), View());
      Log(Act(net.me, Abandon));
      SameHistoryOnlyOthers(old(Whole()), Whole(), rows, net.me);
    }

    /** `apply_pulled_record`. */
    method ApplyPulledRecord(item: Item, now: nat)
      modifies `rows, `cache, `index
      ensures View() == ApplyRecord(old(View()), item, now)
      ensures var rec := item.rec;
        rows == old(rows)[item.id := Row(rec.version, rec.version, rec.blobId, rec.blobSize, rec.encMeta, rec.deleted, false,
                                         item.id in old(rows) && old(rows)[item.id].keepOffline, now)]
      ensures forall b :: b in old(cache) ==>
        (b !in cache <==> item.id in old(rows) && old(rows)[item.id].blobId == Some(b) && item.rec.blobId != Some(b))
      ensures forall b :: b in cache ==> b in old(cache) && cache[b] == old(cache)[b]
      ensures forall x: Summary :: x.id != item.id ==> (x in index <==> x in old(index))
    {
      var existing := if item.id in rows then Some(rows[item.id]) else None;
      if existing.Some? && existing.value.blobId.Some? && existing.value.blobId != item.rec.blobId {
        cache := cache - {existing.value.blobId.value};
      }
      var keepOffline := existing.Some? && existing.value.keepOffline;
      var row := Row(item.rec.version, item.rec.version, item.rec.blobId, item.rec.blobSize, item.rec.encMeta,
                     item.rec.deleted, false, keepOffline, now);
      rows := rows[item.id := row];
      index := Retain(index, item.id);
      if !row.deleted {
        var summary := Summarise(item.id, row);
        if summary.Some? {
          index := index + [summary.value];
        }
      }
    }

    /** `create_conflict_copy`: the old bytes, decrypted and encrypted again for a new document. */
    method CreateConflictCopy(id: DocId, oldRow: Row, oldSummary: Option<Summary>)
      returns (r: Result<(), Error>, ghost k: DocId)
      requires Valid() && pending == EditToCopy(id, oldRow, oldSummary)
      modifies `rows, `cache, `index, `inbox, `pending, net
      ensures Valid() && pending == None && old(net.trace) <= net.trace
      ensures OnlyOthers(old(Whole()), Whole(), old(rows), net.me)
      ensures net.budget + net.world.tables.lastSeq <= old(net.budget + net.world.tables.lastSeq)
      ensures r.Err? ==> inbox == None && rows == old(rows) && old(pending).Some?
      ensures r.Ok? ==> inbox == old(inbox)
      ensures r.Ok? && old(pending) == None ==> rows == old(rows)
      ensures r.Ok? && old(pending).Some? ==>
        && k !in old(rows) && k in rows && rows == old(rows)[k := rows[k]]
        && CopyRow(Whole().contents, Whole().history, rows, k, oldRow)
      ensures forall x :: x in old(cache) && Pinned(old(rows), x) ==> x in cache
      ensures net.solo ==> net.world.tables == old(net.world).tables && net.world.history == old(net.world).history
      ensures forall x :: x in cache && x !in old(cache) ==> oldRow.blobId == Some(x) || x !in old(Whole()).contents
      ensures r.Ok? && old(pending).None? ==> cache == old(cache)
      ensures r.Ok? && old(pending).Some? ==>
        var kept := !IsCached(old(cache), oldRow.blobId) && Pinned(old(rows), oldRow.blobId.value);
        PinnedBytes(rows, cache) == PinnedBytes(old(rows), old(cache)) + oldRow.blobSize + if kept then oldRow.blobSize else 0
      ensures r.Err? ==> CanHappen(r.error, net.reliable)
      ensures net.reliable && r.Err? ==> r.error == if oldRow.blobId.value in net.world.tables.blobs then Storage else NotFoundError
      ensures net.reliable ==>
        (r.Ok? <==> old(pending).None?
                    || CanBeRead(old(rows), old(cache), Limit(), net.world.tables.blobs, oldRow.blobId.value))
      ensures net.reliable ==> (r.Ok? <==> Clear(net.trace, |old(net.trace)|, net.me, Limit()))
      ensures Applies(net.trace, net.me) == Applies(old(net.trace), net.me)
    {
      hide OnlyOthers, Inv, Grows, CopyRow, Next, RunFrom, Run, Survives, PinnedBytes, PendingOk, Applies, Clear, QuietBut, Quiet;
      k := 0;
      ghost var start := Whole();
      if oldRow.deleted || oldSummary.None? || oldRow.blobId.None? {
        OnlyOthersReflexive(start, rows, net.me);
        NothingHappened(net.trace, net.me, Limit());
        return Ok(()), k;
      }
      var b := oldRow.blobId.value;
      var fetched;
      ghost var at;
      fetched, at := EnsureCached(b);
      ghost var s, soFar := Whole(), net.trace;
      if fetched.Err? || b !in cache {
        GiveUp();
        CopyGivenUp(old(net.trace), soFar, at, net.me);
        if net.reliable {
          CopyObstacle(old(net.trace), soFar, at, net.me, Limit());
        }
        OnlyOthersTransitive(start, s, Whole(), rows, net.me);
        return Err(if fetched.Err? then fetched.error else Storage), k;
      }
      PendingSize(old(net.trace), start, Whole(), net.me);
      k := AddCopy(id, oldRow, oldSummary.value, b);
      CopyMade(old(net.trace), soFar, net.trace, at, net.me);
      if net.reliable {
        NoCopyObstacle(old(net.trace), soFar, net.trace, at, net.me, Limit());
      }
      OnlyOthersTransitive(start, s, Whole(), old(rows), net.me);
      r := Ok(());
    }

    /** The second half of `create_conflict_copy`, with the old blob at hand. */
    method AddCopy(id: DocId, oldRow: Row, summary: Summary, b: BlobId) returns (ghost k: DocId)
      requires Valid() && pending == Some(Pending(id, oldRow, summary)) && oldRow.blobId == Some(b) && b in cache
      modifies `rows, `cache, `index, `pending, net`world, net`trace
      ensures Valid() && pending == None && old(net.trace) <= net.trace
      ensures OnlyOthers(old(Whole()), Whole(), old(rows), net.me)
      ensures k !in old(rows) && k in rows && rows == old(rows)[k := rows[k]]
      ensures CopyRow(Whole().contents, Whole().history, rows, k, oldRow)
      ensures forall x :: x in old(cache) && Pinned(old(rows), x) ==> x in cache
      ensures forall x :: x in cache && x !in old(cache) ==> x !in old(Whole()).contents
      ensures PinnedBytes(rows, cache) == PinnedBytes(old(rows), old(cache)) + oldRow.blobSize
      ensures net.world.tables == old(net.world).tables && net.world.history == old(net.world).history
      ensures Quiet(net.trace, |old(net.trace)|, net.me)
      ensures TotalSize(cache) <= Limit() || forall x :: x in cache ==> Pinned(rows, x)
    {
      hide OnlyOthers, Inv, Grows, CopyRow, Next, RunFrom, CopyOf, NeverPushed, Without, PinnedBytes, TotalSize, Pinned;
      ghost var s := Whole();
      CopyFacts(net.trace, s, net.me);
      // The blob of a row was encrypted for that row's document, so this does not fail.
      var plain := cache[b].content.Decrypt(id);
      assert plain.Some?;
      var today: string, salt: nat, now: nat, nonce: nat, thumb: Option<string> := *, *, *, *, *;
      var fields := Fields(CopyTitle(summary.title, today), summary.tags, summary.note, summary.mime,
                           summary.originalName, oldRow.keepOffline);
      var id', b', content := net.NewBlob(plain.value, salt);
      var row', meta';
      ghost var gone;
      row', meta', gone := EncryptNewDocument(id', b', content, fields, now, nonce, thumb);
      index := index + [ToSummary(id', row', meta')];
      pending := None;
      ghost var full := old(cache)[b' := CacheEntry(content.Size(), now, content)];
      NextCopy(s, net.world, net.me, View().(cache := full), today, salt, now, nonce, thumb);
      LogWithEvictions(Act(net.me, Copy(today, salt, now, nonce, thumb)), full, gone);
      EvictionsAreQuiet(old(net.trace), Act(net.me, Copy(today, salt, now, nonce, thumb)), net.me, gone);
      SameHistoryOnlyOthers(s, Whole(), old(rows), net.me);
      CopyPreserves(s, old(pending).value, id', b', today, salt, now, nonce, thumb);
      CopyRowIntro(s, Whole(), rows, id', oldRow);
      PinnedStays(old(rows), id', row');
      StillThere(full, gone, cache);
      CopyPinned(s, old(rows), old(cache), old(pending).value, id', b', row', full, content, salt);
      EvictionKeepsPinned(rows, full, gone);
      k := id';
    }

    /** One item of a page: the three-way decision of `pull`. Tells whether it was a conflict. */
    method TakeItem(item: Item, ghost page: Page, ghost rows0: Rows, ghost copies: Copies)
      returns (r: Result<bool, Error>, ghost more: Copies)
      requires Valid() && pending == None && inbox == Some(page) && page.items != [] && item == page.items[0]
      requires AllHeld(Whole(), rows, rows0, copies) && DirtyOrigin(Whole().history, rows, rows0) && rows0.Keys <= rows.Keys
      modifies `rows, `cache, `index, `inbox, `pending, net
      ensures Valid() && pending == None && old(net.trace) <= net.trace
      ensures OnlyOthers(old(Whole()), Whole(), old(rows), net.me)
      ensures net.budget + net.world.tables.lastSeq <= old(net.budget + net.world.tables.lastSeq)
      ensures r.Err? ==> inbox == None
      ensures r.Ok? ==> inbox == Some(page.(items := page.items[1..]))
      ensures r.Ok? ==> AllHeld(Whole(), rows, rows0, more) && DirtyOrigin(Whole().history, rows, rows0)
      ensures r.Err? ==> Salvaged(Whole(), rows, rows0, more, Some(item.id))
      ensures r.Err? ==> CanHappen(r.error, net.reliable)
      ensures Applies(net.trace, net.me) == Applies(old(net.trace), net.me) + 1
      ensures net.reliable ==> (r.Ok? <==> Clear(net.trace, |old(net.trace)|, net.me, Limit()))
      ensures r.Ok? ==> Took(old(rows), rows, item, Whole().history)
      ensures r.Ok? ==> r.value == Conflicts(old(View()), item)
      ensures item.id in old(Whole()).history
      ensures r.Ok? ==> OthersKept(old(Whole()).contents, old(rows), item.id, old(cache), cache)
      ensures r.Ok? ==> PinnedBytes(rows, cache) == PinnedBytes(old(rows), old(cache)) + ItemDelta(old(rows), item, old(cache))
      ensures net.solo ==> net.world.tables == old(net.world).tables && net.world.history == old(net.world).history
      ensures net.solo && !(Conflicts(old(View()), item) && IsEdit(old(rows)[item.id])) ==> r.Ok?
      ensures net.solo && Conflicts(old(View()), item) && IsEdit(old(rows)[item.id]) ==>
        var blobs, row := old(net.world).tables.blobs, old(rows)[item.id];
        r.Ok? <==> HasRoom(item.rec, blobs, row, old(cache), PinnedBytes(old(rows), old(cache)), Limit())
    {
      hide OnlyOthers, Inv, Grows, Next, RunFrom, AllHeld, DirtyOrigin, Took, HasRoom, PinnedBytes, ItemDelta, OthersKept, Pinned,
           Summarise, Retain, Find, Salvaged, Clear, Applies;
      ghost var s := Whole();
      ItemFacts(net.trace, s, net.me);
      var existing := if item.id in rows then Some(rows[item.id]) else None;
      if existing.Some? && existing.value.dirty && item.rec.version > existing.value.base {
        r, more := TakeConflict(item, page, rows0, copies);
        return;
      }
      TakeQuietly(item, page, rows0, copies);
      r, more := Ok(false), copies;
    }

    /** No conflict: a pending change the server has not overtaken stays, anything else is overwritten. */
    method TakeQuietly(item: Item, ghost page: Page, ghost rows0: Rows, ghost copies: Copies)
      requires Valid() && pending == None && inbox == Some(page) && page.items != [] && item == page.items[0]
      requires AllHeld(Whole(), rows, rows0, copies) && DirtyOrigin(Whole().history, rows, rows0) && rows0.Keys <= rows.Keys
      requires !Conflicts(View(), item)
      modifies `rows, `cache, `index, `inbox, net`trace
      ensures Valid() && pending == None && old(net.trace) <= net.trace
      ensures OnlyOthers(old(Whole()), Whole(), old(rows), net.me)
      ensures inbox == Some(page.(items := page.items[1..]))
      ensures AllHeld(Whole(), rows, rows0, copies) && DirtyOrigin(Whole().history, rows, rows0)
      ensures Clear(net.trace, |old(net.trace)|, net.me, Limit()) && Applies(net.trace, net.me) == Applies(old(net.trace), net.me) + 1
      ensures Took(old(rows), rows, item, Whole().history)
      ensures OthersKept(old(Whole()).contents, old(rows), item.id, old(cache), cache)
      ensures PinnedBytes(rows, cache) == PinnedBytes(old(rows), old(cache)) + ItemDelta(old(rows), item, old(cache))
    {
      hide OnlyOthers, Inv, Grows, Next, RunFrom, AllHeld, DirtyOrigin, Took, PinnedBytes, ItemDelta, OthersKept, Pinned,
           Summarise, Retain, Find, Clear, Applies;
      ghost var s := Whole();
      ItemFacts(net.trace, s, net.me);
      var keeps := item.id in rows && rows[item.id].dirty;
      var now: nat := *;
      NextApply(s, net.world, net.me, now);
      inbox := Some(page.(items := page.items[1..]));
      if !keeps {
        ApplyPulledRecord(item, now);
      }
      Log(Act(net.me, Apply(now)));
      OneApply(old(net.trace), net.me, now, Limit());
      SameHistoryOnlyOthers(s, Whole(), old(rows), net.me);
      if keeps {
        EditKept(s, Whole(), rows, rows0, copies, item);
        NothingTaken(s.contents, rows, item, cache);
      } else {
        CleanTaken(s, Whole(), old(rows), rows, rows0, copies, item, rows[item.id]);
        ApplyKeepsOthers(old(net.trace), s, net.me, item, now);
        TakenPins(old(net.trace), s, net.me, now);
      }
    }

    /** The first half of a conflict: the server's record takes the row, and the edit waits to be copied. */
    method Overwrite(item: Item, ghost page: Page) returns (oldSummary: Option<Summary>)
      requires Valid() && pending == None && inbox == Some(page) && page.items != [] && item == page.items[0]
      requires Conflicts(View(), item)
      modifies `rows, `cache, `index, `inbox, `pending, net`trace
      ensures Valid() && old(net.trace) <= net.trace && inbox == Some(page.(items := page.items[1..]))
      ensures Clear(net.trace, |old(net.trace)|, net.me, Limit()) && Applies(net.trace, net.me) == Applies(old(net.trace), net.me) + 1
      ensures pending == EditToCopy(item.id, old(rows)[item.id], oldSummary)
      ensures pending.Some? <==> !old(rows)[item.id].deleted
      ensures item.id in rows && rows == old(rows)[item.id := rows[item.id]]
      ensures rows[item.id].base == item.rec.version && !rows[item.id].dirty
      ensures Grows(old(Whole()), Whole()) && Whole().history == old(Whole()).history && Whole().contents == old(Whole()).contents
      ensures OthersKept(Whole().contents, old(rows), item.id, old(cache), cache)
      ensures var row, foreseen := old(rows)[item.id], PinnedBytes(old(rows), old(cache)) + ItemDelta(old(rows), item, old(cache));
        if row.deleted then PinnedBytes(rows, cache) == foreseen
        else
          && row.blobId.Some?
          && var kept := !IsCached(cache, row.blobId) && Pinned(rows, row.blobId.value);
          PinnedBytes(rows, cache) + row.blobSize + (if kept then row.blobSize else 0) == foreseen
      ensures !old(rows)[item.id].deleted ==>
        var row, blobs := old(rows)[item.id], net.world.tables.blobs;
        HasRoom(item.rec, blobs, row, old(cache), PinnedBytes(old(rows), old(cache)), Limit()) <==>
          CanBeRead(rows, cache, Limit(), blobs, row.blobId.value)
    {
      hide Inv, Grows, Next, RunFrom, OthersKept, Pinned, ItemOk, RowOk, Summarise, Retain, Find, HasRoom, PinnedBytes, ItemDelta, CanBeRead,
           Clear, Applies;
      ghost var s := Whole();
      ItemFacts(net.trace, s, net.me);
      var oldRow := rows[item.id];
      oldSummary := Find(index, item.id);
      var now: nat := *;
      NextApply(s, net.world, net.me, now);
      if oldRow.deleted {
        TakenPins(net.trace, s, net.me, now);
      } else {
        CopiedPins(net.trace, s, net.me, now, Limit());
      }
      ApplyKeepsOthers(net.trace, s, net.me, item, now);
      inbox := Some(page.(items := page.items[1..]));
      ApplyPulledRecord(item, now);
      pending := EditToCopy(item.id, oldRow, oldSummary);
      Log(Act(net.me, Apply(now)));
      OneApply(old(net.trace), net.me, now, Limit());
    }

    /** A real conflict: the server's record takes the row, the edit becomes a new document. */
    method TakeConflict(item: Item, ghost page: Page, ghost rows0: Rows, ghost copies: Copies)
      returns (r: Result<bool, Error>, ghost more: Copies)
      requires Valid() && pending == None && inbox == Some(page) && page.items != [] && item == page.items[0]
      requires AllHeld(Whole(), rows, rows0, copies) && DirtyOrigin(Whole().history, rows, rows0) && rows0.Keys <= rows.Keys
      requires Conflicts(View(), item)
      modifies `rows, `cache, `index, `inbox, `pending, net
      ensures Valid() && pending == None && old(net.trace) <= net.trace
      ensures OnlyOthers(old(Whole()), Whole(), old(rows), net.me)
      ensures net.budget + net.world.tables.lastSeq <= old(net.budget + net.world.tables.lastSeq)
      ensures r.Err? ==> inbox == None
      ensures r.Ok? ==> r.value && inbox == Some(page.(items := page.items[1..]))
      ensures r.Ok? ==> AllHeld(Whole(), rows, rows0, more) && DirtyOrigin(Whole().history, rows, rows0)
      ensures r.Err? ==> Salvaged(Whole(), rows, rows0, more, Some(item.id))
      ensures r.Err? ==> CanHappen(r.error, net.reliable)
      ensures Applies(net.trace, net.me) == Applies(old(net.trace), net.me) + 1
      ensures net.reliable ==> (r.Ok? <==> Clear(net.trace, |old(net.trace)|, net.me, Limit()))
      ensures r.Ok? ==> Took(old(rows), rows, item, Whole().history)
      ensures r.Ok? ==> OthersKept(old(Whole()).contents, old(rows), item.id, old(cache), cache)
      ensures r.Ok? ==> PinnedBytes(rows, cache) == PinnedBytes(old(rows), old(cache)) + ItemDelta(old(rows), item, old(cache))
      ensures net.solo ==> net.world.tables == old(net.world).tables && net.world.history == old(net.world).history
      ensures net.solo && old(rows)[item.id].deleted ==> r.Ok?
      ensures net.solo && !old(rows)[item.id].deleted ==>
        var blobs, row := old(net.world).tables.blobs, old(rows)[item.id];
        r.Ok? <==> HasRoom(item.rec, blobs, row, old(cache), PinnedBytes(old(rows), old(cache)), Limit())
    {
      hide OnlyOthers, Inv, Grows, Next, RunFrom, AllHeld, DirtyOrigin, Took, CopyRow, OthersKept, Pinned, ItemOk, RowOk, Summarise,
           CopyOf, NeverPushed, Retain, Find, HasRoom, PinnedBytes, ItemDelta, CanBeRead, Salvaged, Clear, Applies;
      more := copies;
      ghost var s := Whole();
      ItemFacts(net.trace, s, net.me);
      var oldRow := rows[item.id];
      var oldSummary := Overwrite(item, page);
      ghost var t, mid, midCache, midTrace := Whole(), rows, cache, net.trace;
      ghost var k;
      var copied;
      copied, k := CreateConflictCopy(item.id, oldRow, oldSummary);
      ClearBoth(midTrace, net.trace, |old(net.trace)|, net.me, Limit());
      SameHistoryOnlyOthers(s, t, old(rows), net.me);
      OnlyOthersFewer(t, Whole(), mid, old(rows), net.me);
      OnlyOthersTransitive(s, t, Whole(), old(rows), net.me);
      if copied.Err? {
        CopyLost(s, t, Whole(), old(rows), rows, rows0, copies, item, net.me);
        return Err(copied.error), copies - {item.id};
      }
      ConflictTaken(s, t, Whole(), old(rows), rows, rows0, copies, item, mid[item.id], k, net.me);
      CopyKeepsOthers(old(net.trace), s, net.me, item, mid, midCache, cache);
      more := if oldRow.deleted then copies else copies[item.id := k];
      r := Ok(true);
    }

    /** The next page of changes. */
    method FetchPage() returns (r: Result<Page, Error>)
      requires Valid() && Idle()
      modifies `inbox, net
      ensures Valid() && pending == None && old(net.trace) <= net.trace
      ensures OnlyOthers(old(Whole()), Whole(), rows, net.me)
      ensures net.budget + net.world.tables.lastSeq <= old(net.budget + net.world.tables.lastSeq)
      ensures r.Err? ==> inbox == None
      ensures r.Ok? ==> inbox == Some(r.value) && PageRead(Whole(), cursor, rows, r.value)
      ensures r.Ok? ==> cursor <= r.value.nextSince <= net.world.tables.lastSeq && (r.value.hasMore ==> cursor < r.value.nextSince)
      ensures r.Ok? ==> |old(net.trace)| < |net.trace| && net.trace[|net.trace| - 1] == Act(net.me, Fetch(200, r.value))
      ensures net.reliable ==> r.Ok?
      ensures r.Err? ==> r.error == Unreachable
      ensures net.alone ==> net.world == old(net.world)
      ensures Quiet(net.trace, |old(net.trace)|, net.me)
    {
      hide OnlyOthers, Inv, Grows, Next, RunFrom, PageRead;
      ghost var start := Whole();
      Others();
      ghost var s := Whole();
      var fails := net.Fails();
      if fails {
        return Err(Unreachable);
      }
      TablesDistinct(net.trace, s, net.me);
      var page := net.GetChanges(cursor, PAGE_LIMIT);
      inbox := Some(page);
      NextFetch(s, net.world, net.me, page);
      PageFacts(net.trace, s, Whole(), net.me, page);
      PageBounds(Whole(), cursor, rows, page);
      Log(Act(net.me, Fetch(PAGE_LIMIT, page)));
      SameHistoryOnlyOthers(s, Whole(), rows, net.me);
      OnlyOthersTransitive(start, s, Whole(), rows, net.me);
      r := Ok(page);
    }

    /** Every item of a page, in order, on top of `before` conflicts. */
    method TakePage(page: Page, ghost p: Plan, ghost copies: Copies, ghost before: nat)
      returns (r: Result<PullReport, Error>, ghost more: Copies, ghost lost: Option<DocId>)
      requires Valid() && pending == None && inbox == Some(page) && PageRead(Whole(), cursor, rows, page)
      requires PullSoFar(p, Whole(), rows, cache, copies, before) && p.me == net.me && p.solo == net.solo && p.limit == Limit()
      modifies `rows, `cache, `index, `inbox, `pending, net
      ensures Valid() && pending == None && old(net.trace) <= net.trace
      ensures OnlyOthers(old(Whole()), Whole(), p.rows, net.me)
      ensures net.budget + net.world.tables.lastSeq <= old(net.budget + net.world.tables.lastSeq)
      ensures r.Err? ==> inbox == None
      ensures r.Ok? ==> inbox == Some(page.(items := []))
      ensures r.Ok? ==> PullSoFar(p, Whole(), rows, cache, more, before + r.value.conflicts)
      ensures r.Ok? ==> r.value.warnings == 0 && r.value.pulled == |page.items|
      ensures r.Ok? && !page.hasMore ==> AtSnapshot(old(Whole()).history, rows)
      ensures r.Err? ==> Salvaged(Whole(), rows, p.rows, more, lost)
      ensures net.solo ==> net.world.tables == old(net.world).tables && net.world.history == old(net.world).history
      ensures p.fits ==> r.Ok?
      ensures r.Err? ==> CanHappen(r.error, net.reliable)
      ensures r.Ok? ==> Applies(net.trace, net.me) == Applies(old(net.trace), net.me) + r.value.pulled
      ensures net.reliable ==> (r.Ok? <==> Clear(net.trace, |old(net.trace)|, net.me, Limit()))
    {
      hide OnlyOthers, Inv, Grows, Next, RunFrom, AllHeld, DirtyOrigin, Tracked, AtSnapshot, Settled, CopiesFit, Took, OthersKept,
           HasRoom, PinnedBytes, ItemDelta, IsEdit, IsFirst, Labelled, Ascending, Salvaged, Clear, Applies;
      ghost var read := Whole();
      more, lost := copies, None;
      NothingHappened(net.trace, net.me, Limit());
      OnlyOthersReflexive(read, p.rows, net.me);
      var conflicts, warnings := 0, 0;
      var i := 0;
      while i < |page.items|
        invariant 0 <= i <= |page.items|
        invariant Valid() && pending == None && inbox == Some(page.(items := page.items[i..])) && old(net.trace) <= net.trace
        invariant OnlyOthers(read, Whole(), p.rows, net.me) && warnings == 0
        invariant PullSoFar(p, Whole(), rows, cache, more, before + conflicts)
        invariant !page.hasMore ==> Tracked(read.history, rows, page.items[i..])
        invariant net.solo ==> net.world.tables == old(net.world).tables && net.world.history == old(net.world).history
        invariant net.budget + net.world.tables.lastSeq <= old(net.budget + net.world.tables.lastSeq)
        invariant Applies(net.trace, net.me) == Applies(old(net.trace), net.me) + i
        invariant net.reliable ==> Clear(net.trace, |old(net.trace)|, net.me, Limit())
      {
        var item := page.items[i];
        if item.rec.seqNo < cursor {
          warnings := warnings + 1;
        }
        ghost var was, rowsBefore, cacheBefore, had := Whole(), rows, cache, more;
        assert page.items[i..][0] == item && page.items[i..][1..] == page.items[i + 1..];
        if p.solo {
          HeadIsFirst(net.trace, was, net.me, page, i);
          BlobsLabelled(net.trace, was, net.me);
        }
        if p.fits {
          SureToFit(p, was, rows, cache, had, before + conflicts, item);
        }
        var taken;
        ghost var soFar := net.trace;
        taken, more := TakeItem(item, page.(items := page.items[i..]), p.rows, had);
        ClearBoth(soFar, net.trace, |old(net.trace)|, net.me, Limit());
        OnlyOthersFewer(was, Whole(), rowsBefore, p.rows, net.me);
        OnlyOthersTransitive(read, was, Whole(), p.rows, net.me);
        if taken.Err? {
          return Err(taken.error), more, Some(item.id);
        }
        ItemDone(p, was, Whole(), rowsBefore, rows, cacheBefore, cache, had, more, item, taken.value, before + conflicts);
        if taken.value {
          conflicts := conflicts + 1;
        }
        if !page.hasMore {
          HistoryKept(read, Whole(), p.rows, net.me);
          TrackedStep(read.history, rowsBefore, rows, page.items[i..], Whole().history);
        }
        i := i + 1;
      }
      assert page.items[|page.items|..] == [];
      if !page.hasMore {
        TrackedEnd(read.history, rows);
      }
      r := Ok(PullReport(|page.items|, conflicts, warnings));
    }

    /** The cursor moves once the whole page has been taken in. */
    method AdvanceCursor(page: Page)
      requires Valid() && pending == None && inbox == Some(page.(items := []))
      modifies `cursor, `inbox, net`trace
      ensures Valid() && Idle() && cursor == page.nextSince && old(net.trace) <= net.trace
      ensures Quiet(net.trace, |old(net.trace)|, net.me)
      ensures OnlyOthers(old(Whole()), Whole(), rows, net.me)
    {
      hide OnlyOthers, Inv, Grows, Next, RunFrom;
      ghost var s := Whole();
      cursor := page.nextSince;
      inbox := None;
      NextAdvance(s, net.world, net.me);
      Log(Act(net.me, Advance));
      SameHistoryOnlyOthers(s, Whole(), rows, net.me);
    }

    /** One round trip of `pull`: a page is read, taken in, and passed. Tells whether there is more. */
    method PullPage(ghost p: Plan, ghost begin: nat, ghost copies: Copies, ghost before: nat)
      returns (r: Result<(PullReport, bool), Error>, ghost more: Copies, ghost seen: System, ghost at: nat, ghost lost: Option<DocId>)
      requires Valid() && Idle() && begin <= |net.trace|
      requires PullSoFar(p, Whole(), rows, cache, copies, before) && p.me == net.me && p.solo == net.solo && p.limit == Limit()
      modifies `rows, `cursor, `cache, `index, `inbox, `pending, net
      ensures Valid() && Idle() && old(net.trace) <= net.trace
      ensures OnlyOthers(p.start, Whole(), p.rows, net.me)
      ensures net.budget + net.world.tables.lastSeq <= old(net.budget + net.world.tables.lastSeq)
      ensures r.Ok? ==> PullSoFar(p, Whole(), rows, cache, more, before + r.value.0.conflicts) && r.value.0.warnings == 0
      ensures r.Err? ==> Salvaged(Whole(), rows, p.rows, more, lost)
      ensures r.Err? ==> CanHappen(r.error, net.reliable)
      ensures r.Ok? ==> Applies(net.trace, net.me) == Applies(old(net.trace), net.me) + r.value.0.pulled
      ensures net.reliable ==> (r.Ok? <==> Clear(net.trace, |old(net.trace)|, net.me, Limit()))
      ensures r.Ok? ==> old(cursor) <= cursor <= net.world.tables.lastSeq
      ensures r.Ok? ==> if r.value.1 then old(cursor) < cursor else LastRead(p, begin, net.trace, at, seen, Whole(), rows)
      ensures net.solo ==> net.world.tables == old(net.world).tables && net.world.history == old(net.world).history
      ensures p.fits ==> r.Ok?
    {
      hide OnlyOthers, Inv, Grows, Next, RunFrom, Run, PullSoFar, AtSnapshot, PageRead, LastRead, Salvaged, Clear, Applies, Quiet;
      ghost var top := Whole();
      var fetched := FetchPage();
      ghost var soFar := net.trace;
      seen, more, at, lost := Whole(), copies, |soFar|, None;
      SoFarLater(p, top, seen, rows, cache, copies, before);
      QuietStretch(old(net.trace), soFar, net.me, Limit());
      if fetched.Err? {
        PullFails(p, Whole(), rows, cache, copies, before);
        return Err(fetched.error), more, seen, at, lost;
      }
      var page := fetched.value;
      var taken;
      taken, more, lost := TakePage(page, p, copies, before);
      ghost var done, doneTrace := Whole(), net.trace;
      ClearBoth(soFar, doneTrace, |old(net.trace)|, net.me, Limit());
      OnlyOthersTransitive(p.start, seen, done, p.rows, net.me);
      if taken.Err? {
        return Err(taken.error), more, seen, at, lost;
      }
      AdvanceCursor(page);
      QuietStretch(doneTrace, net.trace, net.me, Limit());
      ClearBoth(doneTrace, net.trace, |old(net.trace)|, net.me, Limit());
      SoFarLater(p, done, Whole(), rows, cache, more, before + taken.value.conflicts);
      LastSeqGrows(seen, done, p.rows, net.me);
      LastSeqGrows(done, Whole(), p.rows, net.me);
      if !page.hasMore {
        PageDone(p, begin, soFar, net.trace, page, seen, done, Whole(), rows);
      }
      r := Ok((taken.value, page.hasMore));
    }

    /** `pull`. `seen` is the system as it was when the last page had been read, `at` the place in the run
        where that was, `copies` which edits have become which documents, and `lost` the edit whose copy
        could not be made, if it failed there. */
    method Pull()
      returns (r: Result<PullReport, Error>, ghost seen: System, ghost at: nat, ghost copies: Copies, ghost lost: Option<DocId>)
      requires Valid() && Idle()
      modifies `rows, `cursor, `cache, `index, `inbox, `pending, net
      ensures Valid() && Idle() && old(net.trace) <= net.trace
      ensures OnlyOthers(old(Whole()), Whole(), old(rows), net.me)
      ensures r.Ok? ==> AllHeld(Whole(), rows, old(rows), copies) && DirtyOrigin(Whole().history, rows, old(rows))
      ensures r.Err? ==> Salvaged(Whole(), rows, old(rows), copies, lost)
      ensures r.Err? ==> CanHappen(r.error, net.reliable)
      ensures r.Ok? ==> Applies(net.trace, net.me) == Applies(old(net.trace), net.me) + r.value.pulled
      ensures net.reliable ==> (r.Ok? <==> Clear(net.trace, |old(net.trace)|, net.me, Limit()))
      ensures r.Ok? ==> AtSnapshot(seen.history, rows) && old(rows).Keys <= rows.Keys
      ensures r.Ok? ==> OnlyOthers(old(Whole()), seen, old(rows), net.me) && OnlyOthers(seen, Whole(), old(rows), net.me)
      ensures r.Ok? ==> |old(net.trace)| < at <= |net.trace| && seen == Run(net.trace[..at]) && IsLastFetch(net.trace[at - 1], net.me)
      ensures r.Ok? ==> r.value.conflicts == |Settled(old(rows), rows)| && r.value.warnings == 0
      ensures net.solo ==> net.world.tables == old(net.world).tables && net.world.history == old(net.world).history
      ensures net.solo && CopiesFit(net.world.tables, old(rows), old(cache), Limit(), true) ==> r.Ok?
      ensures net.solo && r.Ok? ==> CopiesFit(net.world.tables, old(rows), old(cache), Limit(), false)
    {
      hide OnlyOthers, Inv, Grows, Next, RunFrom, Run, PullSoFar, AtSnapshot, CopiesFit, AllHeld, DirtyOrigin,
           Settled, PageRead, LastRead, IsLastFetch, Salvaged, Clear, Applies;
      var pulled: nat, conflicts: nat, warnings: nat := 0, 0, 0;
      ghost var start := Whole();
      ghost var p := Plan(start, rows, cache, Limit(), net.solo, net.solo && CopiesFit(start.tables, rows, cache, Limit(), true), net.me);
      PullStarts(net.trace, start, View(), Limit(), net.solo, net.me);
      var more := true;
      seen, at, copies, lost := start, 0, map[], None;
      NothingHappened(net.trace, net.me, Limit());
      while more
        invariant Valid() && Idle() && old(net.trace) <= net.trace && warnings == 0
        invariant PullSoFar(p, Whole(), rows, cache, copies, conflicts)
        invariant !more ==> LastRead(p, |old(net.trace)|, net.trace, at, seen, Whole(), rows)
        invariant net.solo ==> net.world.tables == old(net.world).tables && net.world.history == old(net.world).history
        invariant cursor <= net.world.tables.lastSeq
        invariant Applies(net.trace, net.me) == Applies(old(net.trace), net.me) + pulled
        invariant net.reliable ==> Clear(net.trace, |old(net.trace)|, net.me, Limit())
        decreases net.budget + net.world.tables.lastSeq - cursor, more
      {
        var page;
        ghost var soFar := net.trace;
        page, copies, seen, at, lost := PullPage(p, |old(net.trace)|, copies, conflicts);
        ClearBoth(soFar, net.trace, |old(net.trace)|, net.me, Limit());
        if page.Err? {
          return Err(page.error), seen, at, copies, lost;
        }
        pulled := pulled + page.value.0.pulled;
        conflicts := conflicts + page.value.0.conflicts;
        warnings := warnings + page.value.0.warnings;
        more := page.value.1;
      }
      assert net.trace[..|old(net.trace)|] == old(net.trace);
      PullEnds(p, |old(net.trace)|, net.trace, at, seen, Whole(), rows, cache, copies, conflicts);
      r := Ok(PullReport(pulled, conflicts, warnings));
    }

    // ---------------------------------------------------------------- pushing --------------

    /** `list_dirty_documents`: the dirty rows, oldest change first. */
    method ListDirty() returns (ids: seq<DocId>)
      ensures forall id :: id in ids <==> id in rows && rows[id].dirty
      ensures forall i, j :: 0 <= i < j < |ids| ==> ids[i] != ids[j] && rows[ids[i]].updatedAt <= rows[ids[j]].updatedAt
    {
      ids := [];
      var rest := set id | id in rows && rows[id].dirty;
      while rest != {}
        invariant forall id :: id in ids || id in rest <==> id in rows && rows[id].dirty
        invariant forall id :: id in ids ==> id !in rest
        invariant forall i, j :: 0 <= i < j < |ids| ==> ids[i] != ids[j] && rows[ids[i]].updatedAt <= rows[ids[j]].updatedAt
        invariant forall i, id :: 0 <= i < |ids| && id in rest ==> rows[ids[i]].updatedAt <= rows[id].updatedAt
      {
        var first := LeastRecent(rest);
        ids := ids + [first];
        rest := rest - {first};
      }
    }

    method LeastRecent(among: set<DocId>) returns (first: DocId)
      requires among != {} && among <= rows.Keys
      ensures first in among && forall id :: id in among ==> rows[first].updatedAt <= rows[id].updatedAt
    {
      first :| first in among;
      var rest := among - {first};
      while rest != {}
        invariant rest <= among && first in among
        invariant forall id :: id in among && id !in rest ==> rows[first].updatedAt <= rows[id].updatedAt
      {
        var id :| id in rest;
        rest := rest - {id};
        if rows[id].updatedAt < rows[first].updatedAt {
          first := id;
        }
      }
    }

    /** The blob of a document that was never pushed goes first. */
    method UploadBlobOf(id: DocId) returns (r: Result<(), Error>)
      requires Valid() && Idle() && id in rows && NeverPushed(rows[id])
      modifies net
      ensures Valid() && old(net.trace) <= net.trace
      ensures OnlyOthers(old(Whole()), Whole(), rows, net.me)
      ensures net.reliable ==> r.Ok?
      ensures r.Err? ==> r.error == Unreachable
      ensures Quiet(net.trace, |old(net.trace)|, net.me)
      ensures net.solo ==> rows[id].blobId.value in net.world.tables.blobs
      ensures net.solo ==> net.world.history == old(net.world).history && net.world.tables.docs == old(net.world).tables.docs
    {
      hide OnlyOthers, Inv, Grows, Next, RunFrom;
      ghost var start := Whole();
      Others();
      ghost var s := Whole();
      var fails := net.Fails();
      if fails {
        return Err(Unreachable);
      }
      var now: nat := *;
      var b := rows[id].blobId.value;
      UploadFacts(net.trace, s, net.me, id);
      // A blob id stands for one ciphertext, so the server never answers `blob_mismatch`.
      var reply := net.PutBlobRequest(b, cache[b].content, now);
      assert reply != BlobMismatch;
      NextUpload(s, net.world, net.me, id, now);
      Log(Act(net.me, Upload(id, now)));
      SameHistoryOnlyOthers(s, Whole(), rows, net.me);
      OnlyOthersTransitive(start, s, Whole(), rows, net.me);
      fails := net.Fails();
      r := if fails then Err(Unreachable) else Ok(());
    }

    method MarkRowPushed(id: DocId, rec: Record)
      requires id in rows
      modifies `rows, `index
      ensures View() == MarkPushed(old(View()), id, rec)
      ensures rows == old(rows)[id := old(rows)[id].(dirty := false, base := rec.version, version := rec.version,
                                                     blobId := rec.blobId, blobSize := rec.blobSize, deleted := rec.deleted)]
    {
      rows := rows[id := rows[id].(dirty := false, base := rec.version, version := rec.version, blobId := rec.blobId,
                                   blobSize := rec.blobSize, deleted := rec.deleted)];
      var slot := Find(index, id);
      if slot.Some? {
        index := Replace(index, slot.value.(dirty := false, version := rec.version));
      }
    }

    /** One dirty row is pushed: applied, in conflict, or failed. `at` is the place of the write in the run. */
    method PushRow(id: DocId, ghost rows0: Rows, ghost copies: Copies) returns (r: Result<bool, Error>, ghost at: nat)
      requires Valid() && Idle() && CanPush(View(), id) && AllSafe(Whole(), rows, rows0, copies)
      modifies `rows, `index, net
      ensures Valid() && Idle() && old(net.trace) <= net.trace
      ensures Grows(old(Whole()), Whole()) && AllSafe(Whole(), rows, rows0, copies)
      ensures OthersElsewhere(old(Whole()).history, Whole().history, id, net.me)
      ensures UnknownStay(old(Whole()), Whole(), old(rows) - {id})
      ensures r == Ok(true) ==> id in rows && rows == old(rows)[id := rows[id]] && IsPushed(old(rows)[id], rows[id])
      ensures r != Ok(true) ==> rows == old(rows)
      ensures r == Ok(false) ==> OvertakenBy(old(Whole()).history, Whole().history, id, rows[id], net.me)
      ensures PushAt(old(net.trace), net.trace, at, net.me, id)
      ensures r.Err? ==> r.error == NotFoundError || (!net.reliable && r.error == Unreachable)
      ensures r.Ok? || net.reliable ==>
        && at < |net.trace|
        && var row, t := old(rows)[id], Run(net.trace[..at]);
        && var there := row.deleted || row.blobId.value in t.tables.blobs;
        && net.me in t.devices && t.devices[net.me] == old(View())
        && (r == Ok(true) <==> there && row.base == Ver(t.history, id) && (row.deleted ==> row.base > 0))
        && (r == Ok(false) <==> there && row.base < Ver(t.history, id))
        && (r.Err? <==> Refused(t, net.me, id))
      ensures net.solo && PushReady(old(Whole()).history, id, old(rows)[id]) ==>
        && r == Ok(true) && rows[id].base == Ver(net.world.history, id)
        && id in net.world.history && net.world.history == old(net.world).history[id := net.world.history[id]]
    {
      hide OnlyOthers, Inv, Grows, Next, RunFrom, Run, AllSafe, OthersElsewhere, OvertakenBy, PushReply, Commit, RowOk, MarkPushed, Put, Delete,
           Refused, Quiet, QuietBut, IsStep;
      at := |net.trace|;
      ghost var start := Whole();
      OnlyOthersReflexive(start, rows, net.me);
      ghost var rows1 := rows;
      var row := rows[id];
      if !row.deleted && row.base == 0 {
        var uploaded := UploadBlobOf(id);
        if uploaded.Err? {
          OthersSafe(start, Whole(), rows, rows0, copies, id, net.me);
          NotPushed(old(net.trace), net.trace, net.me, id);
          return Err(uploaded.error), |net.trace|;
        }
      }
      ghost var mid, midTrace := Whole(), net.trace;
      Others();
      ghost var s, soFar := Whole(), net.trace;
      at := |soFar|;
      StillQuiet(old(net.trace), midTrace, soFar, net.me);
      NotPushed(old(net.trace), soFar, net.me, id);
      OnlyOthersTransitive(start, mid, s, rows, net.me);
      OthersSafe(start, s, rows, rows0, copies, id, net.me);
      var fails := net.Fails();
      if fails {
        return Err(Unreachable), at;
      }
      ghost var w := net.world;
      AnswerDecided(net.trace, s, net.me, id);
      PushAnswer(net.trace, s, net.me, id);
      var reply := net.WriteDoc(id, row);
      var lost := net.Fails();
      NextPush(s, w, net.world, net.me, id, !lost);
      if reply.Applied? && !lost {
        MarkPushedRows(View(), id, reply.rec);
        MarkRowPushed(id, reply.rec);
      }
      Log(Act(net.me, Push(id, !lost)));
      HasPushed(old(net.trace), soFar, net.me, id, !lost);
      AfterPush(start, s, Whole(), rows1, rows, rows0, copies, id, reply, net.me);
      if lost {
        return Err(Unreachable), at;
      }
      match reply
      case Applied(_) => r := Ok(true);
      case VersionMismatch(_) => r := Ok(false);
      case BlobNotFound => r := Err(NotFoundError);
      case NotFound => r := Err(NotFoundError);
    }

    /** `push_once`: every dirty row, oldest change first; the number of rows pushed, and whether one
        was in conflict. `seen` is the system as it was when the last page was read, `order` are the documents
        whose turn it was. */
    method PushOnce(ghost seen: System, ghost rows0: Rows, ghost copies: Copies)
      returns (r: Result<(nat, bool), Error>, ghost order: seq<DocId>)
      requires Valid() && Idle() && AllSafe(Whole(), rows, rows0, copies)
      requires AtSnapshot(seen.history, rows) && OnlyOthers(seen, Whole(), map[], net.me)
      requires DeletionsUnknown(seen.history, Whole().history, rows)
      modifies `rows, `index, net
      ensures Valid() && Idle() && old(net.trace) <= net.trace
      ensures Grows(old(Whole()), Whole()) && AllSafe(Whole(), rows, rows0, copies)
      ensures r.Ok? ==> rows.Keys == old(rows).Keys && PushProgress(seen.history, Whole().history, old(rows), rows, {}, net.me)
      ensures r.Ok? ==> (r.value.1 <==> AnyDirty(rows, {}))
      ensures r.Ok? ==> r.value.0 == |Settled(old(rows), rows)|
      ensures net.solo && AtSnapshot(old(Whole()).history, old(rows)) && NoOrphans(old(Whole()).history, old(rows)) ==>
        r.Ok? && !r.value.1 && AtSnapshot(Whole().history, rows)
      ensures Applies(net.trace, net.me) == Applies(old(net.trace), net.me)
      ensures net.reliable ==> (r.Ok? <==> Clear(net.trace, |old(net.trace)|, net.me, Limit()))
      ensures r.Err? ==> r.error == NotFoundError || (!net.reliable && r.error == Unreachable)
      ensures OldestChangeFirst(old(rows), order)
      ensures r.Ok? ==> Pushes(net.trace, net.me) == Pushes(old(net.trace), net.me) + order
      ensures Pushes(net.trace, net.me) <= Pushes(old(net.trace), net.me) + order
    {
      hide OnlyOthers, Inv, Grows, Next, RunFrom, Run, AllSafe, OthersElsewhere, OvertakenBy, PushProgress, Settled, AtSnapshot, NoOrphans,
           AnyDirty, CanPush, PushReady, IsPushed, UnknownStay, IdsOf, Applies, Clear, Refused, PushAt, Pushes, OldestChangeFirst, PushedSoFar;
      ghost var start, was := Whole(), rows;
      ghost var smooth := net.solo && AtSnapshot(start.history, rows) && NoOrphans(start.history, rows);
      var pushed, hadConflict := 0, false;
      var ids := ListDirty();
      order := ids;
      ghost var todo := IdsOf(ids[0..]);
      FirstComesFirst(rows, ids);
      PushingStarts(seen, start, rows, ids, net.me);
      NonePushed(net.trace, net.me, ids, net.reliable, Limit());
      GrowsReflexive(start);
      var i := 0;
      while i < |ids|
        invariant 0 <= i <= |ids| && Valid() && Idle() && old(net.trace) <= net.trace
        invariant Grows(start, Whole()) && Grows(seen, Whole()) && AllSafe(Whole(), rows, rows0, copies)
        invariant todo == IdsOf(ids[i..])
        invariant PushProgress(seen.history, Whole().history, was, rows, todo, net.me)
        invariant hadConflict <==> AnyDirty(rows, todo)
        invariant pushed == |Settled(was, rows)|
        invariant smooth ==> AtSnapshot(Whole().history, rows) && NoOrphans(Whole().history, rows) && !hadConflict
        invariant PushedSoFar(old(net.trace), net.trace, net.me, ids, i, net.reliable, Limit())
      {
        var id := ids[i];
        ghost var before, rowsBefore := Whole(), rows;
        IdsStep(ids, i);
        // A dirty row that is not deleted has a blob, so the row is never skipped.
        DirtyRowsPush(net.trace, before, seen, was, net.me, todo, id);
        if smooth {
          ReadyAtSnapshot(net.trace, before, rows, id);
        }
        var outcome;
        ghost var soFar, at := net.trace, 0;
        outcome, at := PushRow(id, rows0, copies);
        NextPushed(old(net.trace), soFar, net.trace, at, net.me, ids, i, net.reliable, Limit(), outcome.Ok?);
        GrowsTransitive(start, before, Whole());
        GrowsTransitive(seen, before, Whole());
        if outcome.Err? {
          return Err(outcome.error), order;
        }
        PushingStep(seen, before, Whole(), was, rowsBefore, rows, todo, id, outcome.value, net.me);
        if outcome.value {
          pushed := pushed + 1;
        } else {
          hadConflict := true;
        }
        if smooth {
          SnapshotStep(before.history, Whole().history, rowsBefore, rows, id);
        }
        todo := todo - {id};
        i := i + 1;
      }
      IdsEnd(ids);
      AllPushed(old(net.trace), net.trace, net.me, ids, net.reliable, Limit());
      SameDocuments(seen.history, Whole().history, was, rows, net.me);
      r := Ok((pushed, hadConflict));
    }

    /** The blob of one row to be kept offline. */
    method PrefetchOne(id: DocId) returns (r: Result<(), Error>)
      requires Valid() && Idle() && id in rows && rows[id].keepOffline && !rows[id].deleted
      modifies `cache, net
      ensures Valid() && old(net.trace) <= net.trace
      ensures OnlyOthers(old(Whole()), Whole(), rows, net.me)
      ensures forall x :: x in old(cache) && Pinned(rows, x) ==> x in cache
      ensures r.Ok? ==> rows[id].blobId.Some? && rows[id].blobId.value in cache
      ensures r.Err? ==> r.error == NotFoundError || (!net.reliable && r.error == Unreachable)
      ensures net.reliable && r.Err? ==> OfflineMissing(rows, cache, net.world.tables.blobs)
      ensures Clear(net.trace, |old(net.trace)|, net.me, Limit()) && Applies(net.trace, net.me) == Applies(old(net.trace), net.me)
      ensures net.solo ==> net.world == old(net.world)
      ensures net.solo && AtSnapshot(net.world.history, rows) && !AnyDirty(rows, {}) ==> r.Ok?
    {
      hide OnlyOthers, Inv, Grows, Next, RunFrom, Run, AtSnapshot, AnyDirty, Clear, Applies, Stuck, Refused, OfflineMissing,
           Quiet, QuietBut, IsStep, PinnedBytes, Survives, Pinned, TotalSize;
      ghost var before, soFar := Whole(), net.trace;
      LiveRowsHaveBlobs(soFar, before, net.me);
      NothingHappened(soFar, net.me, Limit());
      var b := rows[id].blobId.value;
      if b in cache {
        OnlyOthersReflexive(before, rows, net.me);
        return Ok(());
      }
      if net.solo && AtSnapshot(net.world.history, rows) && !AnyDirty(rows, {}) {
        StoredAtSnapshot(soFar, before, net.me, id);
      }
      OfflinePinned(rows, {id});
      ghost var at;
      r, at := EnsureCached(b);
      FetchedIdly(soFar, soFar, net.trace, at, net.me, Limit());
      if net.reliable && r.Err? {
        IsMissing(rows, cache, net.world.tables.blobs, id);
      }
    }

    /** `prefetch_keep_offline`: a download may evict, but never what an offline row needs. */
    method PrefetchKeepOffline() returns (r: Result<(), Error>)
      requires Valid() && Idle()
      modifies `cache, net
      ensures Valid() && old(net.trace) <= net.trace
      ensures OnlyOthers(old(Whole()), Whole(), rows, net.me)
      ensures r.Ok? ==> OfflineReady(rows, cache)
      ensures r.Err? ==> r.error == NotFoundError || (!net.reliable && r.error == Unreachable)
      ensures net.reliable && r.Err? ==> OfflineMissing(rows, cache, net.world.tables.blobs)
      ensures Clear(net.trace, |old(net.trace)|, net.me, Limit()) && Applies(net.trace, net.me) == Applies(old(net.trace), net.me)
      ensures net.solo ==> net.world == old(net.world)
      ensures net.solo && AtSnapshot(net.world.history, rows) && !AnyDirty(rows, {}) ==> r.Ok?
    {
      hide OnlyOthers, Inv, Grows, Next, RunFrom, Run, AtSnapshot, AnyDirty, Clear, Applies, Stuck, Refused, OfflineMissing,
           Quiet, QuietBut, IsStep, PinnedBytes, Survives, Pinned, TotalSize;
      NothingHappened(net.trace, net.me, Limit());
      ghost var start := Whole();
      OnlyOthersReflexive(start, rows, net.me);
      var wanted := set id | id in rows && rows[id].keepOffline && !rows[id].deleted;
      var rest := wanted;
      while rest != {}
        invariant rest <= wanted && Valid() && Idle() && old(net.trace) <= net.trace
        invariant OnlyOthers(start, Whole(), rows, net.me)
        invariant forall id :: id in wanted && id !in rest && rows[id].blobId.Some? ==> rows[id].blobId.value in cache
        invariant net.solo ==> net.world == old(net.world)
        invariant Clear(net.trace, |old(net.trace)|, net.me, Limit()) && Applies(net.trace, net.me) == Applies(old(net.trace), net.me)
      {
        var id :| id in rest;
        rest := rest - {id};
        ghost var before, soFar := Whole(), net.trace;
        OfflinePinned(rows, wanted);
        var fetched := PrefetchOne(id);
        ClearBoth(soFar, net.trace, |old(net.trace)|, net.me, Limit());
        OnlyOthersTransitive(start, before, Whole(), rows, net.me);
        if fetched.Err? {
          return Err(fetched.error);
        }
      }
      LiveRowsHaveBlobs(net.trace, Whole(), net.me);
      r := Ok(());
    }

    /** One round of `sync`: pull, then push. Tells whether another device was faster with some document. */
    method SyncRound(report: SyncReport, ghost p: Plan, ghost begin: nat, ghost copies: Copies, ghost rounds: seq<Round>)
      returns (r: Result<(SyncReport, bool), Error>, ghost more: Copies, ghost round: Round, ghost lost: set<DocId>)
      requires Valid() && Idle() && report.warnings == 0
      requires SyncSoFar(p, begin, net.trace, Whole(), rows, cache, copies, rounds, Tally(report.pulled, report.conflicts, report.pushed))
      requires p.me == net.me && p.solo == net.solo && p.limit == Limit()
      requires p.fits ==> p.solo && CopiesFit(Whole().tables, rows, cache, p.limit, true)
      modifies `rows, `cursor, `cache, `index, `inbox, `pending, net
      ensures Valid() && Idle() && old(net.trace) <= net.trace
      ensures AllSafe(Whole(), rows, p.rows - lost, more) && LostEdits(Whole().history, p.rows, lost) && (r.Ok? ==> lost == {})
      ensures r.Ok? ==> r.value.0.warnings == 0 && (r.value.1 <==> AnyDirty(rows, {}))
      ensures r.Ok? ==>
        if r.value.1
        then SyncSoFar(p, begin, net.trace, Whole(), rows, cache, more, rounds + [round],
                       Tally(r.value.0.pulled, r.value.0.conflicts, r.value.0.pushed))
        else SyncOver(p, begin, net.trace, Whole(), rows, more, rounds + [round],
                      Tally(r.value.0.pulled, r.value.0.conflicts, r.value.0.pushed))
      ensures r.Err? ==> CanHappen(r.error, net.reliable)
      ensures Smooth(p) && p.fits ==> r.Ok?
      ensures net.reliable ==> (r.Ok? <==> Clear(net.trace, |old(net.trace)|, net.me, Limit()))
      ensures Smooth(p) && r.Ok? ==> !r.value.1 && AtSnapshot(Whole().history, rows)
    {
      hide OnlyOthers, Inv, Grows, Next, RunFrom, Run, AllHeld, AllSafe, DirtyOrigin, AtSnapshot, CopiesFit, NoOrphans,
           PushProgress, AnyDirty, DeletionsUnknown, Settled, SyncSoFar, SyncOver, IsLastFetch, Salvaged, LostEdits, Clear, Applies;
      ghost var top, topRows, topCache, topTrace := Whole(), rows, cache, net.trace;
      round, lost := Round(0, 0, 0, 0), {};
      var pulled;
      ghost var read, at, made, dropped;
      pulled, read, at, made, dropped := Pull();
      more := MoreCopies(topRows, p.rows, copies, made);
      if pulled.Err? {
        lost := RoundFailed(p, begin, topTrace, top, Whole(), topRows, rows, topCache, copies, made, dropped, rounds,
                            Tally(report.pulled, report.conflicts, report.pushed));
        return Err(pulled.error), more, round, lost;
      }
      var conflicts, warnings := report.conflicts + pulled.value.conflicts, report.warnings + pulled.value.warnings;
      ghost var mid, midRows, midTrace := Whole(), rows, net.trace;
      RoundPulled(p, begin, topTrace, top, read, mid, topRows, rows, topCache, copies, made, rounds,
                  Tally(report.pulled, report.conflicts, report.pushed));
      NoneLost(p.rows);
      var pushed;
      ghost var order;
      pushed, order := PushOnce(read, p.rows, more);
      ClearBoth(midTrace, net.trace, |topTrace|, net.me, Limit());
      if pushed.Err? {
        return Err(pushed.error), more, round, lost;
      }
      round := Round(|topTrace|, at, |midTrace|, |net.trace|);
      RoundOver(p, begin, topTrace, midTrace, net.trace, top, read, mid, Whole(), topRows, midRows, rows, topCache, cache, copies, more,
                rounds, round, Tally(report.pulled, report.conflicts, report.pushed));
      r := Ok((SyncReport(report.pulled + pulled.value.pulled, report.pushed + pushed.value.0, conflicts, warnings), pushed.value.1));
    }

    /** `sync`: pull, push, and again while another device was faster, at most three times; then
        prefetch. `rounds` are the places of its rounds in the run, `copies` says which edits have become
        which documents, and `lost` has the edit that a failed pull dropped, if any. */
    method Sync() returns (r: Result<SyncReport, SyncError>, ghost rounds: seq<Round>, ghost copies: Copies, ghost lost: set<DocId>)
      requires Valid() && Idle()
      modifies `rows, `cursor, `cache, `index, `inbox, `pending, net
      ensures Valid() && Idle() && old(net.trace) <= net.trace
      ensures r.Ok? ==> !AnyDirty(rows, {}) && OfflineReady(rows, cache) && AllOnServer(Whole(), old(rows), copies)
      ensures r.Ok? ==> 1 <= |rounds| <= 3 && LostRounds(net.trace, rounds[..|rounds| - 1], net.me)
      ensures r.Ok? ==>
        && Counted(net.trace, rounds, |old(net.trace)|, net.me, Tally(r.value.pulled, r.value.conflicts, r.value.pushed))
        && r.value.warnings == 0
      ensures r.Ok? || r == Err(Contention) ==> NoOrphans(old(Whole()).history, old(rows))
      ensures r == Err(Contention) ==>
        |rounds| == 3 && LostRounds(net.trace, rounds, net.me) && InOrder(rounds, |old(net.trace)|)
      ensures AllSafe(Whole(), rows, old(rows) - lost, copies) && LostEdits(Whole().history, old(rows), lost)
      ensures r.Ok? || r == Err(Contention) ==> lost == {}
      ensures r.Err? && r.error.Failed? ==> CanHappen(r.error.error, net.reliable)
      ensures net.reliable && r.Err? && r.error.Failed? ==>
        !Clear(net.trace, |old(net.trace)|, net.me, Limit()) || OfflineMissing(rows, cache, net.world.tables.blobs)
      ensures net.reliable && !(r.Err? && r.error.Failed?) ==> Clear(net.trace, |old(net.trace)|, net.me, Limit())
      ensures net.solo && r.Ok? ==> |rounds| == 1 && AtSnapshot(net.world.history, rows)
      ensures net.solo ==>
        var t, noOrphans := old(net.world).tables, NoOrphans(old(Whole()).history, old(rows));
        && (CopiesFit(t, old(rows), old(cache), Limit(), true) && noOrphans ==> r.Ok?)
        && (r.Ok? ==> CopiesFit(t, old(rows), old(cache), Limit(), false) && noOrphans)
        && (NoneLingers(t, old(rows), old(cache)) ==> (r.Ok? <==> CopiesFit(t, old(rows), old(cache), Limit(), true) && noOrphans))
    {
      hide OnlyOthers, Inv, Grows, Next, RunFrom, Run, AllSafe, AtSnapshot, CopiesFit, NoOrphans, AllOnServer, AnyDirty,
           LostRounds, Counted, OfflineReady, SyncSoFar, SyncOver, InOrder, LostEdits, Clear, OfflineMissing, NoneLingers, MoreCopies;
      var report := SyncReport(0, 0, 0, 0);
      ghost var start, begin := Whole(), |net.trace|;
      ghost var p := Plan(start, rows, cache, Limit(), net.solo, net.solo && CopiesFit(start.tables, rows, cache, Limit(), true), net.me);
      rounds, copies, lost := [], map[], {};
      NoneLost(rows);
      SyncStarts(p, net.trace);
      NothingHappened(net.trace, net.me, Limit());
      if NoneLingers(start.tables, rows, cache) {
        FitIsCertain(start.tables, rows, cache, Limit());
      }
      for n := 0 to MAX_ROUNDS
        invariant Valid() && Idle() && old(net.trace) <= net.trace && report.warnings == 0 && lost == {}
        invariant SyncSoFar(p, begin, net.trace, Whole(), rows, cache, copies, rounds, Tally(report.pulled, report.conflicts, report.pushed))
        invariant |rounds| == n && (n > 0 ==> !p.solo)
        invariant net.reliable ==> Clear(net.trace, begin, net.me, Limit())
        invariant n == 0 ==> Whole() == start && rows == old(rows) && cache == old(cache)
      {
        var done;
        ghost var round;
        ghost var soFar := net.trace;
        done, copies, round, lost := SyncRound(report, p, begin, copies, rounds);
        ClearBoth(soFar, net.trace, begin, net.me, Limit());
        if done.Err? {
          return Err(Failed(done.error)), rounds, copies, lost;
        }
        rounds, report := rounds + [round], done.value.0;
        if !done.value.1 {
          ghost var over, overTrace := Whole(), net.trace;
          var fetched := PrefetchKeepOffline();
          ClearBoth(overTrace, net.trace, begin, net.me, Limit());
          SyncEnds(p, begin, overTrace, net.trace, over, Whole(), rows, copies, rounds, Tally(report.pulled, report.conflicts, report.pushed));
          if fetched.Err? {
            return Err(Failed(fetched.error)), rounds, copies, lost;
          }
          return Ok(report), rounds, copies, lost;
        }
        BeatenOnce(p, begin, net.trace, Whole(), rows, cache, copies, rounds, Tally(report.pulled, report.conflicts, report.pushed));
      }
      Contended(p, begin, net.trace, Whole(), rows, cache, copies, rounds, Tally(report.pulled, report.conflicts, report.pushed));
      r := Err(Contention);
    }
  }
}
