/** The events of a device, seen from the device: what each makes of it while the rest stays as it is. */
module Steps {
  import opened Types
  import opened Server
  import opened Changes
  import opened Index
  import opened Device
  import opened System
  import opened Invariant
  import opened Preservation
  import opened Runs
  import opened Foreign
  import opened Edits
  import opened Cache
  import opened Obstacles

  function EvictEvents(me: DevId, gone: seq<BlobId>): seq<Event> {
    if gone == [] then [] else EvictEvents(me, gone[..|gone| - 1]) + [Act(me, Evict(gone[|gone| - 1]))]
  }

  lemma {:induction false} EvictionsOnly(me: DevId, gone: seq<BlobId>)
    ensures forall n :: 0 <= n < |EvictEvents(me, gone)| ==> EvictEvents(me, gone)[n].Act? && EvictEvents(me, gone)[n].action.Evict?
  {
    if gone != [] {
      EvictionsOnly(me, gone[..|gone| - 1]);
    }
  }

  lemma EvictionsAreQuiet(before: seq<Event>, e: Event, me: DevId, gone: seq<BlobId>)
    ensures Quiet(before + [e] + EvictEvents(me, gone), |before| + 1, me)
  {
    EvictionsOnly(me, gone);
  }

  lemma {:induction false} EvictRun(s: System, me: DevId, dev: Device, gone: seq<BlobId>)
    requires forall b :: b in gone ==> !Pinned(dev.rows, b)
    ensures RunFrom(With(s, me, dev), EvictEvents(me, gone)) == With(s, me, dev.(cache := Without(dev.cache, gone)))
  {
    hide Next, Pinned;
    if gone == [] {
      WithoutNone(dev.cache);
    } else {
      var most, b := gone[..|gone| - 1], gone[|gone| - 1];
      assert gone == most + [b];
      EvictRun(s, me, dev, most);
      var left := Without(dev.cache, most);
      OneMore(With(s, me, dev), EvictEvents(me, most), Act(me, Evict(b)));
      NextEvict(s, me, dev.(cache := left), b);
      assert left - {b} == Without(dev.cache, gone);
    }
  }

  lemma NextAdd(s: System, w: System, me: DevId, dev': Device, plain: Bytes, salt: nat, fields: Fields, now: nat,
                nonce: nat, thumb: Option<string>)
    requires me in s.devices && s.devices[me].Idle()
    requires var content := CipherBlob(s.supply, plain, salt);
      && dev' == AddDocument(s.devices[me], s.supply, s.supply + 1, content, fields, now, nonce, thumb)
      && With(w, me, s.devices[me]) == s.(supply := s.supply + 2, contents := s.contents[s.supply + 1 := content])
    ensures Next(s, Act(me, Add(plain, salt, fields, now, nonce, thumb))) == With(w, me, dev')
  {
    WithTwice(w, me, s.devices[me], dev');
  }

  lemma NextEdit(w: System, me: DevId, dev: Device, id: DocId, title: string, tags: seq<string>, note: string, now: nat, nonce: nat)
    requires dev.Idle()
    ensures var edited := EditDocument(dev, id, title, tags, note, now, nonce);
      Next(With(w, me, dev), Act(me, Edit(id, title, tags, note, now, nonce)))
      == With(w, me, if edited.Some? then edited.value else dev)
  {
    var edited := EditDocument(dev, id, title, tags, note, now, nonce);
    if edited.Some? {
      WithTwice(w, me, dev, edited.value);
    }
  }

  lemma EditMade(dev: Device, id: DocId, title: string, tags: seq<string>, note: string, now: nat, nonce: nat, c: Summary, m: DocMeta)
    requires id in dev.rows && !dev.rows[id].deleted && Find(dev.index, id) == Some(c)
    requires Open(id, dev.rows[id].version, dev.rows[id].encMeta) == Some(m)
    ensures var was := dev.rows[id];
      var meta := DocMeta(title, tags, note, c.mime, c.size, c.contentHash, c.originalName, c.createdAt, m.thumb);
      var row := was.(version := was.base + 1, dirty := true, updatedAt := now, encMeta := Seal(id, was.base + 1, nonce, meta));
      EditDocument(dev, id, title, tags, note, now, nonce)
      == Some(dev.(rows := dev.rows[id := row], index := Replace(dev.index, ToSummary(id, row, meta))))
  {
    hide Find, Replace;
  }

  lemma NextRemove(w: System, me: DevId, dev: Device, id: DocId, now: nat, nonce: nat)
    requires dev.Idle()
    ensures var removed := RemoveDocument(dev, id, now, nonce);
      Next(With(w, me, dev), Act(me, Remove(id, now, nonce))) == With(w, me, if removed.Some? then removed.value else dev)
  {
    var removed := RemoveDocument(dev, id, now, nonce);
    if removed.Some? {
      WithTwice(w, me, dev, removed.value);
    }
  }

  lemma NextKeep(w: System, me: DevId, dev: Device, id: DocId, keep: bool)
    requires dev.Idle()
    ensures var kept := KeepDocument(dev, id, keep);
      Next(With(w, me, dev), Act(me, Keep(id, keep))) == With(w, me, if kept.Some? then kept.value else dev)
  {
    var kept := KeepDocument(dev, id, keep);
    if kept.Some? {
      WithTwice(w, me, dev, kept.value);
    }
  }

  lemma NextTouch(s: System, w: System, me: DevId, b: BlobId, now: nat)
    requires me in s.devices && s == With(w, me, s.devices[me]) && b in s.devices[me].cache
    ensures var dev := s.devices[me];
      Next(s, Act(me, Touch(b, now))) == With(w, me, dev.(cache := dev.cache[b := dev.cache[b].(lastAccess := now)]))
  {
    var dev := s.devices[me];
    WithTwice(w, me, dev, dev.(cache := dev.cache[b := dev.cache[b].(lastAccess := now)]));
  }

  lemma NextDownload(s: System, w: System, me: DevId, b: BlobId, now: nat)
    requires me in s.devices && s == With(w, me, s.devices[me]) && b in s.tables.blobs && b !in s.devices[me].cache
    ensures var dev := s.devices[me];
      var content := s.tables.blobs[b].content;
      Next(s, Act(me, Download(b, now))) == With(w, me, dev.(cache := dev.cache[b := CacheEntry(content.Size(), now, content)]))
  {
    var dev := s.devices[me];
    var content := s.tables.blobs[b].content;
    WithTwice(w, me, dev, dev.(cache := dev.cache[b := CacheEntry(content.Size(), now, content)]));
  }

  lemma NextEvict(w: System, me: DevId, dev: Device, b: BlobId)
    requires !Pinned(dev.rows, b)
    ensures Next(With(w, me, dev), Act(me, Evict(b))) == With(w, me, dev.(cache := dev.cache - {b}))
  {
    hide Pinned;
    WithTwice(w, me, dev, dev.(cache := dev.cache - {b}));
  }

  lemma NextFetch(s: System, w: System, me: DevId, page: Page)
    requires me in s.devices && s == With(w, me, s.devices[me]) && s.devices[me].Idle()
    requires IsPage(s.tables.docs, s.devices[me].cursor, PAGE_LIMIT, page)
    ensures Next(s, Act(me, Fetch(PAGE_LIMIT, page))) == With(w, me, s.devices[me].(inbox := Some(page)))
  {
    WithTwice(w, me, s.devices[me], s.devices[me].(inbox := Some(page)));
  }

  lemma NextApply(s: System, w: System, me: DevId, now: nat)
    requires me in s.devices && s == With(w, me, s.devices[me])
    requires s.devices[me].inbox.Some? && s.devices[me].inbox.value.items != [] && s.devices[me].pending.None?
    ensures var page := s.devices[me].inbox.value;
      Next(s, Act(me, Apply(now)))
      == With(w, me, PullItem(s.devices[me].(inbox := Some(page.(items := page.items[1..]))), page.items[0], now))
  {
    var page := s.devices[me].inbox.value;
    WithTwice(w, me, s.devices[me], PullItem(s.devices[me].(inbox := Some(page.(items := page.items[1..]))), page.items[0], now));
  }

  lemma NextCopy(s: System, w: System, me: DevId, dev': Device, today: string, salt: nat, now: nat, nonce: nat, thumb: Option<string>)
    requires me in s.devices && s.devices[me].pending.Some?
    requires var dev := s.devices[me];
      var p := dev.pending.value;
      && p.row.blobId.Some? && p.row.blobId.value in dev.cache
      && dev.cache[p.row.blobId.value].content.Decrypt(p.id).Some?
      && var content := CipherBlob(s.supply, dev.cache[p.row.blobId.value].content.Decrypt(p.id).value, salt);
      && dev' == AddDocument(dev.(pending := None), s.supply, s.supply + 1, content, CopyFields(p, today), now, nonce, thumb)
      && With(w, me, dev) == s.(supply := s.supply + 2, contents := s.contents[s.supply + 1 := content])
    ensures Next(s, Act(me, Copy(today, salt, now, nonce, thumb))) == With(w, me, dev')
  {
    WithTwice(w, me, s.devices[me], dev');
  }

  lemma NextAdvance(s: System, w: System, me: DevId)
    requires me in s.devices && s == With(w, me, s.devices[me])
    requires s.devices[me].inbox.Some? && s.devices[me].inbox.value.items == [] && s.devices[me].pending.None?
    ensures Next(s, Act(me, Advance)) == With(w, me, s.devices[me].(cursor := s.devices[me].inbox.value.nextSince, inbox := None))
  {
    WithTwice(w, me, s.devices[me], s.devices[me].(cursor := s.devices[me].inbox.value.nextSince, inbox := None));
  }

  lemma NextUpload(s: System, w: System, me: DevId, id: DocId, now: nat)
    requires me in s.devices && s.devices[me].Idle() && id in s.devices[me].rows && CanUpload(s.devices[me], id)
    requires var b := s.devices[me].rows[id].blobId.value;
      w.tables == PutBlob(s.tables, b, s.devices[me].cache[b].content, now).0
    requires With(w, me, s.devices[me]) == s.(tables := w.tables)
    ensures Next(s, Act(me, Upload(id, now))) == With(w, me, s.devices[me])
  {
  }

  lemma NextPush(s: System, w: System, w': System, me: DevId, id: DocId, delivered: bool)
    requires me in s.devices && s.devices[me].Idle() && CanPush(s.devices[me], id) && s == With(w, me, s.devices[me])
    requires var out := PushReply(w.tables, id, s.devices[me].rows[id]);
      w' == Commit(w, me, id, out.0, out.1)
    ensures var dev := s.devices[me];
      var reply := PushReply(s.tables, id, dev.rows[id]).1;
      && w'.devices == w.devices && reply == PushReply(w.tables, id, dev.rows[id]).1
      && Next(s, Act(me, Push(id, delivered)))
         == With(w', me, if reply.Applied? && delivered then MarkPushed(dev, id, reply.rec) else dev)
      && w'.history == (if reply.Applied? then s.history[id := Past(s.history, id) + [Entry(reply.rec, me)]] else s.history)
  {
    hide MarkPushed;
    var dev := s.devices[me];
    var reply := PushReply(s.tables, id, dev.rows[id]).1;
    if reply.Applied? && delivered {
      WithTwice(w', me, dev, MarkPushed(dev, id, reply.rec));
    }
  }

  lemma MarkPushedRows(dev: Device, id: DocId, rec: Record)
    requires id in dev.rows
    ensures MarkPushed(dev, id, rec).rows == dev.rows[id := PushedRow(dev.rows[id], rec)]
  {
  }

  predicate IsContent(c: Contents, row: Row, plain: Bytes) {
    row.blobId.Some? && row.blobId.value in c && c[row.blobId.value].plain == plain
  }

  lemma CachedBytes(trace: seq<Event>, s: System, me: DevId, id: DocId)
    requires s == Run(trace) && me in s.devices && id in s.devices[me].rows && !s.devices[me].rows[id].deleted
    requires s.devices[me].rows[id].blobId.Some? && s.devices[me].rows[id].blobId.value in s.devices[me].cache
    ensures var dev := s.devices[me];
      var plain := dev.cache[dev.rows[id].blobId.value].content.Decrypt(id);
      plain.Some? && IsContent(s.contents, dev.rows[id], plain.value)
  {
    hide HistoryOk;
    RunKeepsInv(trace);
    RowIsOk(trace, s, me, id);
  }

  lemma StoredContent(trace: seq<Event>, s: System, b: BlobId)
    requires s == Run(trace) && b in s.tables.blobs
    ensures b in s.contents && s.contents[b] == s.tables.blobs[b].content
  {
    RunKeepsInv(trace);
  }

  lemma LiveRowsHaveBlobs(trace: seq<Event>, s: System, me: DevId)
    requires s == Run(trace) && me in s.devices
    ensures forall id :: id in s.devices[me].rows && !s.devices[me].rows[id].deleted ==> s.devices[me].rows[id].blobId.Some?
  {
    RunKeepsInv(trace);
    var dev := s.devices[me];
    forall id | id in dev.rows && !dev.rows[id].deleted ensures dev.rows[id].blobId.Some? {
      assert RowOk(s.history, s.contents, id, dev.rows[id]);
    }
  }

  lemma EveryRowOpens(trace: seq<Event>, s: System, d: DevId)
    requires s == Run(trace) && d in s.devices
    ensures forall id :: id in s.devices[d].rows && !s.devices[d].rows[id].deleted ==> Summarise(id, s.devices[d].rows[id]).Some?
  {
    RunKeepsInv(trace);
    var dev := s.devices[d];
    forall id | id in dev.rows && !dev.rows[id].deleted ensures Summarise(id, dev.rows[id]).Some? {
      assert RowOk(s.history, s.contents, id, dev.rows[id]);
    }
  }

  lemma PinsItsBlob(rows: Rows, id: DocId, b: BlobId)
    requires id in rows && rows[id].dirty && rows[id].blobId == Some(b)
    ensures Pinned(rows, b)
  {
    assert Pins(rows[id], b);
  }

  lemma PinnedStays(rows: Rows, k: DocId, row: Row)
    requires k !in rows
    ensures forall x :: Pinned(rows, x) ==> Pinned(rows[k := row], x)
  {
    forall x | Pinned(rows, x) ensures Pinned(rows[k := row], x) {
      var id :| id in rows && Pins(rows[id], x);
      assert Pins(rows[k := row][id], x);
    }
  }

  lemma StillThere(full: map<BlobId, CacheEntry>, gone: seq<BlobId>, cache: map<BlobId, CacheEntry>)
    requires cache == Without(full, gone)
    ensures forall x :: x in full && x !in gone ==> x in cache && cache[x] == full[x]
    ensures forall x :: x in cache ==> x in full
  {
  }

  lemma OrderFacts(rows: Rows, cache: map<BlobId, CacheEntry>, order: seq<BlobId>)
    requires EvictionOrder(rows, cache, order)
    ensures NoDuplicates(order)
    ensures forall i :: 0 <= i < |order| ==> order[i] in cache && !Pinned(rows, order[i])
  {
  }

  /** What goes is not pinned, and what stays is pinned or was accessed no earlier. */
  lemma OldestFirst(rows: Rows, full: map<BlobId, CacheEntry>, order: seq<BlobId>, gone: seq<BlobId>)
    requires EvictionOrder(rows, full, order) && gone <= order
    ensures forall b :: b in gone ==>
      b in full && forall id :: id in rows && rows[id].blobId == Some(b) ==> !rows[id].keepOffline && !rows[id].dirty
    ensures var left := Without(full, gone);
      && (forall b :: b in left ==> b in full && left[b] == full[b])
      && (forall b :: b in full && b !in left ==> b in gone)
      && (forall b, x :: b in gone && x in left ==> Pinned(rows, x) || left[x].lastAccess >= full[b].lastAccess)
  {
    forall b | b in gone
      ensures b in full && forall id :: id in rows && rows[id].blobId == Some(b) ==> !rows[id].keepOffline && !rows[id].dirty
    {
      assert b in order && !Pinned(rows, b);
      forall id | id in rows && rows[id].blobId == Some(b) ensures !rows[id].keepOffline && !rows[id].dirty {
        assert !Pins(rows[id], b);
      }
    }
    forall b, x | b in gone && x in Without(full, gone) && !Pinned(rows, x) ensures full[x].lastAccess >= full[b].lastAccess {
      assert x in order && x !in gone;
      var i :| 0 <= i < |gone| && gone[i] == b;
      var j :| 0 <= j < |order| && order[j] == x;
      assert order[i] == b;
      assert j < |gone| ==> gone[j] == order[j];
    }
  }

  /** An eviction pass in full: what stays is as it was; what goes is not pinned and was accessed no later
      than anything unpinned that stays; enough goes, if it can, and without its last blob too little would. */
  lemma EvictionInFull(rows: Rows, full: map<BlobId, CacheEntry>, limit: int, order: seq<BlobId>, gone: seq<BlobId>)
    requires Evicted(rows, full, limit, order, gone)
    ensures var left := Without(full, gone);
      && (forall b :: b in left ==> b in full && left[b] == full[b])
      && (forall b :: b in full && b !in left ==>
            && (forall id :: id in rows && rows[id].blobId == Some(b) ==> !rows[id].keepOffline && !rows[id].dirty)
            && (forall x :: x in left ==> Pinned(rows, x) || left[x].lastAccess >= full[b].lastAccess))
      && (TotalSize(left) <= limit || forall b :: b in left ==> Pinned(rows, b))
      && (gone != [] ==> gone[|gone| - 1] in full && TotalSize(left) + full[gone[|gone| - 1]].size > limit)
    ensures forall b :: b in gone ==> !Pinned(rows, b)
  {
    hide Pinned, TotalSize, Without, EvictionOrder;
    EvictedEnough(rows, full, limit, order, gone);
    if gone == [] {
      WithoutNone(full);
    } else {
      OldestFirst(rows, full, order, gone);
      OrderFacts(rows, full, order);
      WithoutOneMore(full, order, |gone| - 1);
    }
  }
}
