/** What a pull keeps: the edits, the blobs needed to copy them, and how far it has come. */
module Pulling {
  import opened Types
  import opened Server
  import opened Changes
  import opened Index
  import opened Device
  import opened System
  import opened Invariant
  import opened Preservation
  import opened Runs
  import opened Foreign
  import opened Edits
  import opened Others
  import opened Cache
  import opened Room

  /** Overwriting a row drops its own blob at most. */
  lemma ApplyKeepsOthers(trace: seq<Event>, s: System, me: DevId, item: Item, now: nat)
    requires s == Run(trace) && me in s.devices
    ensures var dev := s.devices[me];
      OthersKept(s.contents, dev.rows, item.id, dev.cache, ApplyRecord(dev, item, now).cache)
  {
    hide Inv, Run, Pinned, Retain, Summarise;
    if item.id in s.devices[me].rows {
      RowIsOk(trace, s, me, item.id);
    }
  }

  /** Taking a record and copying an edit leaves the blobs of the other documents alone. */
  lemma CopyKeepsOthers(trace: seq<Event>, s: System, me: DevId, item: Item, mid: Rows, midCache: Entries, cache': Entries)
    requires s == Run(trace) && me in s.devices && item.id in s.devices[me].rows
    requires var rows := s.devices[me].rows;
      && (forall id :: id in rows && id != item.id ==> id in mid && mid[id] == rows[id])
      && OthersKept(s.contents, rows, item.id, s.devices[me].cache, midCache)
      && (forall x :: x in midCache && Pinned(mid, x) ==> x in cache')
      && (forall x :: x in cache' && x !in midCache ==> rows[item.id].blobId == Some(x) || x !in s.contents)
    ensures OthersKept(s.contents, s.devices[me].rows, item.id, s.devices[me].cache, cache')
  {
    hide Inv, Run;
    var rows := s.devices[me].rows;
    RowIsOk(trace, s, me, item.id);
    forall x | x in s.contents && s.contents[x].doc != item.id && x in s.devices[me].cache && Pinned(rows, x) ensures x in cache' {
      PinnedByOwner(trace, s, me, x);
      assert Pins(mid[s.contents[x].doc], x);
    }
  }

  /** A blob is pinned by the row of its own document or not at all. */
  lemma PinnedByOwner(trace: seq<Event>, s: System, me: DevId, x: BlobId)
    requires s == Run(trace) && me in s.devices && x in s.contents
    ensures var rows, id := s.devices[me].rows, s.contents[x].doc;
      Pinned(rows, x) <==> id in rows && Pins(rows[id], x)
  {
    hide Inv, Run;
    var rows := s.devices[me].rows;
    if Pinned(rows, x) {
      var id :| id in rows && Pins(rows[id], x);
      RowIsOk(trace, s, me, id);
    }
  }

  /** Two documents of a device have two blobs, of known content. */
  lemma OtherBlobs(trace: seq<Event>, s: System, me: DevId, i: DocId, j: DocId)
    requires s == Run(trace) && me in s.devices && i in s.devices[me].rows && j in s.devices[me].rows && i != j
    requires !s.devices[me].rows[j].deleted
    ensures s.devices[me].rows[j].blobId.Some? && s.devices[me].rows[j].blobId != s.devices[me].rows[i].blobId
    ensures s.devices[me].rows[j].blobId.value in s.contents
  {
    hide Inv, Run;
    RowIsOk(trace, s, me, i);
    RowIsOk(trace, s, me, j);
  }

  // ------------------------------------------------------------------ pinned bytes ---------

  /** A live record has the blob the row has, unless the row is a pending deletion. */
  lemma SameBlobAsRow(trace: seq<Event>, s: System, me: DevId, item: Item)
    requires s == Run(trace) && me in s.devices && s.devices[me].inbox.Some? && s.devices[me].inbox.value.items != []
    requires item == s.devices[me].inbox.value.items[0] && item.id in s.devices[me].rows && item.rec.blobId.Some?
    ensures var row := s.devices[me].rows[item.id];
      item.rec.blobId == row.blobId || (row.deleted && row.dirty)
  {
    hide Inv, Run;
    ItemFacts(trace, s, me);
    RowIsOk(trace, s, me, item.id);
    ServerDoc(trace, s, item.id);
    BlobOfDoc(trace, s);
    var row, es := s.devices[me].rows[item.id], s.history[item.id];
    var k := item.rec.version - 1;
    assert EntryOk(s.contents, s.tables.lastSeq, item.id, es, k);
    if !row.dirty && row.base <= k {
      assert EntryOk(s.contents, s.tables.lastSeq, item.id, es, row.base - 1);
    }
  }

  lemma BlobOfDoc(trace: seq<Event>, s: System)
    requires s == Run(trace)
    ensures OneBlobEach(s.contents, s.supply)
  {
    hide OneBlobEach;
    RunKeepsInv(trace);
  }

  /** The blobs of an item and of the row it is for: they are the same, or the row has none, and no other
      row has it. */
  ghost predicate OwnBlobs(rows: Rows, cache: Entries, item: Item) {
    && (item.id in rows && item.rec.blobId.Some? ==>
          item.rec.blobId == rows[item.id].blobId || (rows[item.id].deleted && rows[item.id].dirty))
    && (item.id in rows ==> (rows[item.id].blobId.Some? <==> !rows[item.id].deleted))
    && (item.rec.blobId.Some? ==> OwnBlob(rows, cache, item.id, item.rec.blobId.value, item.rec.blobSize))
    && (item.id in rows && rows[item.id].blobId.Some? ==>
          OwnBlob(rows, cache, item.id, rows[item.id].blobId.value, rows[item.id].blobSize))
  }

  ghost predicate OwnBlob(rows: Rows, cache: Entries, id: DocId, b: BlobId, size: nat) {
    && (b in cache ==> cache[b].size == size)
    && (forall i :: i in rows && rows[i].blobId == Some(b) ==> i == id)
  }

  lemma ItemBlobs(trace: seq<Event>, s: System, me: DevId)
    requires s == Run(trace) && me in s.devices && s.devices[me].inbox.Some? && s.devices[me].inbox.value.items != []
    ensures OwnBlobs(s.devices[me].rows, s.devices[me].cache, s.devices[me].inbox.value.items[0])
  {
    hide Inv, Run, EntryOk;
    var dev := s.devices[me];
    var item := dev.inbox.value.items[0];
    ItemFacts(trace, s, me);
    ServerDoc(trace, s, item.id);
    if item.rec.blobId.Some? {
      RecordBlob(s, item);
      BlobIsOwn(trace, s, me, item.rec.blobId.value);
    }
    if item.id in dev.rows {
      RowIsOk(trace, s, me, item.id);
      if item.rec.blobId.Some? {
        SameBlobAsRow(trace, s, me, item);
      }
      if dev.rows[item.id].blobId.Some? {
        BlobIsOwn(trace, s, me, dev.rows[item.id].blobId.value);
      }
    }
  }

  lemma RecordBlob(s: System, item: Item)
    requires item.id in s.history && 0 < item.rec.version <= Ver(s.history, item.id)
    requires s.history[item.id][item.rec.version - 1].rec == item.rec && item.rec.blobId.Some?
    requires EntryOk(s.contents, s.tables.lastSeq, item.id, s.history[item.id], item.rec.version - 1)
    ensures item.rec.blobId.value in s.contents && s.contents[item.rec.blobId.value].doc == item.id
    ensures item.rec.blobSize == s.contents[item.rec.blobId.value].Size()
  {
  }

  lemma BlobIsOwn(trace: seq<Event>, s: System, me: DevId, b: BlobId)
    requires s == Run(trace) && me in s.devices && b in s.contents
    ensures OwnBlob(s.devices[me].rows, s.devices[me].cache, s.contents[b].doc, b, s.contents[b].Size())
  {
    hide HistoryOk, CursorOk, InboxOk, IndexOk, RowOk;
    RunKeepsInv(trace);
    forall i | i in s.devices[me].rows && s.devices[me].rows[i].blobId == Some(b) ensures i == s.contents[b].doc {
      RowIsOk(trace, s, me, i);
      RowBlob(s, i, s.devices[me].rows[i]);
    }
  }

  lemma RowBlob(s: System, id: DocId, row: Row)
    requires RowOk(s.history, s.contents, id, row) && row.blobId.Some?
    ensures row.blobId.value in s.contents && s.contents[row.blobId.value].doc == id
  {
  }

  /** What taking a record does to the pinned bytes, exactly. */
  lemma ApplyPins(dev: Device, item: Item, now: nat)
    requires OwnBlobs(dev.rows, dev.cache, item)
    ensures var mid := ApplyRecord(dev, item, now);
      PinnedBytes(mid.rows, mid.cache) == PinnedBytes(dev.rows, dev.cache)
        + if item.id in dev.rows then AppliedDelta(item.rec, dev.rows[item.id], dev.cache) else 0
  {
    hide PinnedBytes, Retain, Summarise, AppliedDelta, PinnedSize, PinnedAlike, OwnBlobs;
    var mid := ApplyRecord(dev, item, now);
    var own: BlobId := if item.rec.blobId.Some? then item.rec.blobId.value
                       else if item.id in dev.rows && dev.rows[item.id].blobId.Some? then dev.rows[item.id].blobId.value else 0;
    forall x | x != own ensures PinnedAlike(dev.rows, dev.cache, mid.rows, mid.cache, x) {
      OthersAlike(dev, item, now, own, x);
    }
    PinsDiffer(dev.rows, dev.cache, mid.rows, mid.cache, own);
    if item.rec.blobId.Some? || (item.id in dev.rows && dev.rows[item.id].blobId.Some?) {
      OwnPinned(dev, item, now, own);
    } else {
      OthersAlike(dev, item, now, own, own);
      NothingPinned(dev, item, now, own);
    }
  }

  lemma OthersAlike(dev: Device, item: Item, now: nat, own: BlobId, x: BlobId)
    requires OwnBlobs(dev.rows, dev.cache, item)
    requires item.rec.blobId != Some(x) && (item.id in dev.rows ==> dev.rows[item.id].blobId != Some(x) || x != own)
    requires x != own || item.rec.blobId.None?
    requires item.rec.blobId.Some? ==> item.rec.blobId == Some(own)
    requires item.rec.blobId.None? && item.id in dev.rows && dev.rows[item.id].blobId.Some? ==> dev.rows[item.id].blobId == Some(own)
    ensures var mid := ApplyRecord(dev, item, now);
      PinnedAlike(dev.rows, dev.cache, mid.rows, mid.cache, x)
  {
    hide Retain, Summarise;
    var mid := ApplyRecord(dev, item, now);
    if Pinned(dev.rows, x) {
      var i :| i in dev.rows && Pins(dev.rows[i], x);
      assert i != item.id && Pins(mid.rows[i], x);
    }
    if Pinned(mid.rows, x) {
      var i :| i in mid.rows && Pins(mid.rows[i], x);
      assert i != item.id && Pins(dev.rows[i], x);
    }
  }

  lemma NothingPinned(dev: Device, item: Item, now: nat, x: BlobId)
    requires OwnBlobs(dev.rows, dev.cache, item)
    requires item.rec.blobId.None? && (item.id in dev.rows ==> dev.rows[item.id].blobId.None?)
    requires var mid := ApplyRecord(dev, item, now);
      PinnedAlike(dev.rows, dev.cache, mid.rows, mid.cache, x)
    ensures var mid := ApplyRecord(dev, item, now);
      PinnedSize(mid.rows, mid.cache, x) == PinnedSize(dev.rows, dev.cache, x)
    ensures item.id in dev.rows ==> AppliedDelta(item.rec, dev.rows[item.id], dev.cache) == 0
  {
    hide Retain, Summarise, Pinned;
  }

  lemma OwnPinned(dev: Device, item: Item, now: nat, own: BlobId)
    requires OwnBlobs(dev.rows, dev.cache, item)
    requires item.rec.blobId == Some(own) || (item.rec.blobId.None? && item.id in dev.rows && dev.rows[item.id].blobId == Some(own))
    ensures var mid := ApplyRecord(dev, item, now);
      PinnedSize(mid.rows, mid.cache, own) == PinnedSize(dev.rows, dev.cache, own)
        + if item.id in dev.rows then AppliedDelta(item.rec, dev.rows[item.id], dev.cache) else 0
  {
    hide Retain, Summarise;
    var mid := ApplyRecord(dev, item, now);
    PinnedByOne(dev.rows, item.id, own);
    PinnedByOne(mid.rows, item.id, own);
  }

  lemma PinnedByOne(rows: Rows, id: DocId, b: BlobId)
    requires forall i :: i in rows && rows[i].blobId == Some(b) ==> i == id
    ensures Pinned(rows, b) <==> id in rows && Pins(rows[id], b)
  {
  }

  /** A record that is not news changes nothing. */
  lemma NoNews(trace: seq<Event>, s: System, me: DevId)
    requires s == Run(trace) && me in s.devices && s.devices[me].inbox.Some? && s.devices[me].inbox.value.items != []
    ensures var dev := s.devices[me];
      var item := dev.inbox.value.items[0];
      item.id in dev.rows && !dev.rows[item.id].dirty && item.rec.version <= dev.rows[item.id].base ==>
        AppliedDelta(item.rec, dev.rows[item.id], dev.cache) == 0
  {
    hide Inv, Run;
    ItemFacts(trace, s, me);
    var dev := s.devices[me];
    var item := dev.inbox.value.items[0];
    if item.id in dev.rows {
      RowIsOk(trace, s, me, item.id);
    }
  }

  /** Taking a record with no edit in its way does to the pinned bytes what is foreseen. */
  lemma TakenPins(trace: seq<Event>, s: System, me: DevId, now: nat)
    requires s == Run(trace) && me in s.devices && s.devices[me].inbox.Some? && s.devices[me].inbox.value.items != []
    requires var dev := s.devices[me];
      var item := dev.inbox.value.items[0];
      item.id in dev.rows && dev.rows[item.id].dirty ==> Conflicts(dev, item) && dev.rows[item.id].deleted
    ensures var dev := s.devices[me];
      var item := dev.inbox.value.items[0];
      var mid := ApplyRecord(dev, item, now);
      PinnedBytes(mid.rows, mid.cache) == PinnedBytes(dev.rows, dev.cache) + ItemDelta(dev.rows, item, dev.cache)
  {
    hide Inv, Run, PinnedBytes, OwnBlobs, Retain, Summarise, Find, Delta;
    ItemBlobs(trace, s, me);
    ApplyPins(s.devices[me], s.devices[me].inbox.value.items[0], now);
    NoNews(trace, s, me);
  }

  /** Taking a record and copying the edit in its way does to the pinned bytes what is foreseen. */
  lemma CopiedPins(trace: seq<Event>, s: System, me: DevId, now: nat, limit: int)
    requires s == Run(trace) && me in s.devices && s.devices[me].inbox.Some? && s.devices[me].inbox.value.items != []
    requires var dev := s.devices[me];
      var item := dev.inbox.value.items[0];
      Conflicts(dev, item) && !dev.rows[item.id].deleted
    ensures var dev := s.devices[me];
      var item := dev.inbox.value.items[0];
      var row, mid := dev.rows[item.id], ApplyRecord(dev, item, now);
      && row.blobId.Some?
      && var kept := !IsCached(mid.cache, row.blobId) && Pinned(mid.rows, row.blobId.value);
      && PinnedBytes(mid.rows, mid.cache) + row.blobSize + (if kept then row.blobSize else 0)
           == PinnedBytes(dev.rows, dev.cache) + ItemDelta(dev.rows, item, dev.cache)
      && (HasRoom(item.rec, s.tables.blobs, row, dev.cache, PinnedBytes(dev.rows, dev.cache), limit) <==>
            CanBeRead(mid.rows, mid.cache, limit, s.tables.blobs, row.blobId.value))
  {
    hide Inv, Run, PinnedBytes, OwnBlobs, Pinned, Retain, Summarise, Find, HasRoom, CanBeRead;
    ItemBlobs(trace, s, me);
    ApplyPins(s.devices[me], s.devices[me].inbox.value.items[0], now);
    CopyRoom(trace, s, me, now, limit);
  }

  /** When the copy of an overtaken edit can be made once the record has been taken: exactly when there is
      room. Making it comes down to this: the blob is cached, or fetched and not evicted at once. */
  lemma CopyRoom(trace: seq<Event>, s: System, me: DevId, now: nat, limit: int)
    requires s == Run(trace) && me in s.devices && s.devices[me].inbox.Some? && s.devices[me].inbox.value.items != []
    requires var item := s.devices[me].inbox.value.items[0];
      item.id in s.devices[me].rows && IsEdit(s.devices[me].rows[item.id])
    ensures var dev := s.devices[me];
      var item := dev.inbox.value.items[0];
      var row, mid := dev.rows[item.id], ApplyRecord(dev, item, now);
      && row.blobId.Some? && (Pinned(mid.rows, row.blobId.value) <==> row.keepOffline && item.rec.blobId == row.blobId)
      && (row.blobId.value in mid.cache <==> row.blobId.value in dev.cache && item.rec.blobId == row.blobId)
      && (HasRoom(item.rec, s.tables.blobs, row, dev.cache, PinnedBytes(dev.rows, dev.cache), limit) <==>
            CanBeRead(mid.rows, mid.cache, limit, s.tables.blobs, row.blobId.value))
  {
    hide Inv, Run, Pinned, PinnedBytes, Retain, Summarise, Find, LiveOk;
    var dev := s.devices[me];
    var item := dev.inbox.value.items[0];
    var row, mid := dev.rows[item.id], ApplyRecord(dev, item, now);
    EditBlobFacts(trace, s, me, item.id);
    ItemBlobs(trace, s, me);
    ApplyPins(dev, item, now);
    PinsAfterApply(trace, s, me, now);
  }

  lemma EditBlobFacts(trace: seq<Event>, s: System, me: DevId, id: DocId)
    requires s == Run(trace) && me in s.devices && id in s.devices[me].rows && IsEdit(s.devices[me].rows[id])
    ensures var b := s.devices[me].rows[id].blobId;
      b.Some? && (b.value in s.tables.blobs ==> s.tables.blobs[b.value].content.Size() == s.devices[me].rows[id].blobSize)
  {
    hide HistoryOk, DevOk;
    RunKeepsInv(trace);
    RowIsOk(trace, s, me, id);
  }

  /** The blob of an edit whose row was overwritten is pinned only if the record has it and the document
      is kept offline. */
  lemma PinsAfterApply(trace: seq<Event>, s: System, me: DevId, now: nat)
    requires s == Run(trace) && me in s.devices && s.devices[me].inbox.Some? && s.devices[me].inbox.value.items != []
    requires var item := s.devices[me].inbox.value.items[0];
      item.id in s.devices[me].rows && IsEdit(s.devices[me].rows[item.id])
    ensures var dev := s.devices[me];
      var item := dev.inbox.value.items[0];
      var row, mid := dev.rows[item.id], ApplyRecord(dev, item, now);
      row.blobId.Some? && (Pinned(mid.rows, row.blobId.value) <==> row.keepOffline && item.rec.blobId == row.blobId)
  {
    hide Inv, Run, Retain, Summarise, Find;
    var dev := s.devices[me];
    var item := dev.inbox.value.items[0];
    var row, mid := dev.rows[item.id], ApplyRecord(dev, item, now);
    EditBlobFacts(trace, s, me, item.id);
    var b := row.blobId.value;
    if row.keepOffline && item.rec.blobId == row.blobId {
      assert Pins(mid.rows[item.id], b);
    } else if Pinned(mid.rows, b) {
      var id :| id in mid.rows && Pins(mid.rows[id], b);
      if id != item.id {
        OtherBlobs(trace, s, me, id, item.id);
      }
    }
  }

  lemma ItemFacts(trace: seq<Event>, s: System, me: DevId)
    requires s == Run(trace) && me in s.devices && s.devices[me].inbox.Some? && s.devices[me].inbox.value.items != []
    ensures var dev := s.devices[me];
      var item := dev.inbox.value.items[0];
      && item.id in s.history && ItemOk(s.history, dev, item)
      && (item.id in dev.rows && IsEdit(dev.rows[item.id]) ==>
            Find(dev.index, item.id).Some? && dev.rows[item.id].blobId.Some?)
  {
    RunKeepsInv(trace);
    var dev := s.devices[me];
    var item := dev.inbox.value.items[0];
    HeadItemOk(s, dev);
    if item.id in dev.rows && IsEdit(dev.rows[item.id]) {
      assert RowOk(s.history, s.contents, item.id, dev.rows[item.id]);
      EntryFound(dev, item.id, dev.rows[item.id]);
    }
  }

  lemma EditKept(s: System, t: System, rows: Rows, rows0: Rows, copies: Copies, item: Item)
    requires t.history == s.history && t.contents == s.contents
    requires item.id in rows && rows[item.id].dirty && item.rec.version <= rows[item.id].base
    requires AllHeld(s, rows, rows0, copies) && DirtyOrigin(s.history, rows, rows0)
    ensures AllHeld(t, rows, rows0, copies) && DirtyOrigin(t.history, rows, rows0) && Took(rows, rows, item, t.history)
  {
    SameLogHeld(s, t, rows, rows0, copies);
  }

  lemma CleanTaken(s: System, t: System, rows: Rows, rows': Rows, rows0: Rows, copies: Copies, item: Item, row': Row)
    requires t.history == s.history && t.contents == s.contents && item.id in s.history
    requires item.id in rows ==> !rows[item.id].dirty
    requires rows' == rows[item.id := row'] && row'.base == item.rec.version && !row'.dirty
    requires AllHeld(s, rows, rows0, copies) && DirtyOrigin(s.history, rows, rows0)
    ensures AllHeld(t, rows', rows0, copies) && DirtyOrigin(t.history, rows', rows0) && Took(rows, rows', item, t.history)
  {
    OverwriteHolds(s, rows, rows0, copies, item.id, row');
    SameLogHeld(s, t, rows', rows0, copies);
  }

  /** A conflict: the edit left its row, and its copy, if it was more than a deletion, came in. */
  lemma ConflictTaken(s: System, t: System, u: System, rows: Rows, rows': Rows, rows0: Rows, copies: Copies, item: Item, row': Row,
                      k: DocId, me: DevId)
    requires t.history == s.history && t.contents == s.contents && item.id in s.history && rows0.Keys <= rows.Keys
    requires item.id in rows && rows[item.id].dirty && item.rec.version > rows[item.id].base
    requires row'.base == item.rec.version && !row'.dirty
    requires OnlyOthers(t, u, rows[item.id := row'], me)
    requires AllHeld(s, rows, rows0, copies) && DirtyOrigin(s.history, rows, rows0)
    requires rows[item.id].deleted ==> rows' == rows[item.id := row']
    requires !rows[item.id].deleted ==>
      && k !in rows[item.id := row'] && k in rows' && rows' == rows[item.id := row'][k := rows'[k]]
      && CopyRow(u.contents, u.history, rows', k, rows[item.id])
    ensures DirtyOrigin(u.history, rows', rows0) && Took(rows, rows', item, u.history)
    ensures AllHeld(u, rows', rows0, if rows[item.id].deleted then copies else copies[item.id := k])
  {
    hide Held, Grows, OthersWrote, CopyOf, DirtyOrigin, Took, OneCopyEach;
    var mid := rows[item.id := row'];
    HistoryKept(t, u, mid, me);
    ConflictOrigin(s.history, t.history, u.history, rows, rows', rows0, item, row', k);
    assert item.id in rows0 && rows[item.id] == rows0[item.id];
    SameLogHeld(s, t, rows, rows0, copies);
    if rows[item.id].deleted {
      OverwriteHolds(t, rows, rows0, copies, item.id, row');
      AllHeldLater(t, u, mid, rows0, copies);
    } else {
      CopyHolds(t, u, rows, rows0, copies, item.id, row', k, rows'[k]);
    }
  }

  function Maybe(id: Option<DocId>): set<DocId> {
    if id.Some? then {id.value} else {}
  }

  /** What a pull that fails leaves behind: every edit but at most one, which the server had overtaken. */
  ghost predicate Salvaged(s: System, rows: Rows, rows0: Rows, copies: Copies, lost: Option<DocId>) {
    && DirtyOrigin(s.history, rows, rows0) && rows0.Keys <= rows.Keys
    && AllHeld(s, rows, rows0 - Maybe(lost), copies)
    && (lost.Some? ==> lost.value in rows0 && IsEdit(rows0[lost.value]) && rows0[lost.value].base < Ver(s.history, lost.value))
  }

  lemma NothingLost(s: System, rows: Rows, rows0: Rows, copies: Copies)
    requires AllHeld(s, rows, rows0, copies) && DirtyOrigin(s.history, rows, rows0) && rows0.Keys <= rows.Keys
    ensures Salvaged(s, rows, rows0, copies, None)
  {
    assert rows0 - {} == rows0;
  }

  /** A conflict whose copy could not be made: the other edits are where they were. */
  lemma CopyLost(s: System, t: System, u: System, rows: Rows, mid: Rows, rows0: Rows, copies: Copies, item: Item, me: DevId)
    requires t.history == s.history && t.contents == s.contents && item.id in s.history && rows0.Keys <= rows.Keys
    requires item.id in rows && IsEdit(rows[item.id]) && rows[item.id].base < item.rec.version <= Ver(s.history, item.id)
    requires item.id in mid && mid == rows[item.id := mid[item.id]] && mid[item.id].base == item.rec.version && !mid[item.id].dirty
    requires OnlyOthers(t, u, mid, me)
    requires AllHeld(s, rows, rows0, copies) && DirtyOrigin(s.history, rows, rows0)
    ensures Salvaged(u, mid, rows0, copies - {item.id}, Some(item.id))
  {
    hide Held, Grows, OthersWrote, CopyOf, OneCopyEach, DirtyOrigin;
    var fewer, left := rows0 - {item.id}, copies - {item.id};
    HistoryKept(t, u, mid, me);
    VersionsGrow(t, u, mid, me, item.id);
    OverwrittenOrigin(s.history, u.history, rows, mid, rows0, item);
    SameLogHeld(s, t, rows, rows0, copies);
    HeldWithout(t, rows, rows0, copies, item.id);
    OverwriteHolds(t, rows, fewer, left, item.id, mid[item.id]);
    AllHeldLater(t, u, mid, fewer, left);
  }

  lemma VersionsGrow(s: System, t: System, rows: Rows, me: DevId, id: DocId)
    requires OnlyOthers(s, t, rows, me) && id in s.history
    ensures Ver(s.history, id) <= Ver(t.history, id)
  {
    assert Appended(s, t, id);
  }

  lemma OverwrittenOrigin(h: History, h': History, rows: Rows, mid: Rows, rows0: Rows, item: Item)
    requires item.id in h && item.id in rows && rows[item.id].dirty && DirtyOrigin(h, rows, rows0)
    requires item.id in mid && mid == rows[item.id := mid[item.id]] && !mid[item.id].dirty
    requires (forall id :: id in h ==> id in h') && forall i :: i in mid && i !in h ==> i !in h'
    ensures DirtyOrigin(h', mid, rows0) && item.id in rows0 && rows0[item.id] == rows[item.id]
  {
  }

  lemma HeldWithout(s: System, rows: Rows, rows0: Rows, copies: Copies, id: DocId)
    requires AllHeld(s, rows, rows0, copies)
    ensures AllHeld(s, rows, rows0 - {id}, copies - {id})
  {
    hide CopyRow;
    forall i | i in rows0 - {id} && IsEdit(rows0[i]) ensures Held(s, rows, i, rows0[i], copies - {id}) {
      assert Held(s, rows, i, rows0[i], copies);
    }
  }

  lemma ConflictOrigin(h: History, h1: History, h2: History, rows: Rows, rows': Rows, rows0: Rows, item: Item, row': Row, k: DocId)
    requires h1 == h && item.id in h && item.id in rows && rows[item.id].dirty && item.rec.version > rows[item.id].base
    requires row'.base == item.rec.version && !row'.dirty
    requires (forall id :: id in h1 ==> id in h2) && forall i :: i in rows[item.id := row'] && i !in h1 ==> i !in h2
    requires DirtyOrigin(h, rows, rows0)
    requires rows[item.id].deleted ==> rows' == rows[item.id := row']
    requires !rows[item.id].deleted ==>
      && k !in rows[item.id := row'] && k in rows' && rows' == rows[item.id := row'][k := rows'[k]]
      && k !in h2 && NeverPushed(rows'[k])
    ensures item.id in rows0 && rows[item.id] == rows0[item.id]
    ensures DirtyOrigin(h2, rows', rows0) && Took(rows, rows', item, h2)
  {
  }

  lemma SameLogHeld(s: System, t: System, rows: Rows, rows0: Rows, copies: Copies)
    requires t.history == s.history && t.contents == s.contents && AllHeld(s, rows, rows0, copies)
    ensures AllHeld(t, rows, rows0, copies)
  {
    hide OneCopyEach, CopyRow;
    forall id | id in rows0 && IsEdit(rows0[id]) ensures Held(t, rows, id, rows0[id], copies) {
      assert Held(s, rows, id, rows0[id], copies);
    }
  }

  // ------------------------------------------------------------------ a pull under way -----

  /** When every row is up to date, no overtaken edit is left. */
  lemma NoneIsBehind(t: Tables, h: History, rows: Rows, cache: Entries, limit: int)
    requires AtSnapshot(h, rows) && forall id :: id in t.docs ==> t.docs[id].version == Ver(h, id)
    ensures CopiesFit(t, rows, cache, limit, false)
  {
  }

  lemma DocVersions(trace: seq<Event>, s: System)
    requires s == Run(trace)
    ensures forall id :: id in s.tables.docs ==> s.tables.docs[id].version == Ver(s.history, id)
  {
    hide Run;
    forall id | id in s.tables.docs ensures s.tables.docs[id].version == Ver(s.history, id) {
      ServerDoc(trace, s, id);
    }
  }

  /** What a pull or a sync began with: the system, the device, and whether all copies are sure to fit. */
  datatype Plan = Plan(start: System, rows: Rows, cache: Entries, limit: int, solo: bool, fits: bool, me: DevId)

  /** How far a pull has come: no edit is lost, the pending rows that were overwritten are counted; and
      alone, copies that were sure to fit still are, and if the rest can still fit, all of them could. */
  ghost predicate PullSoFar(p: Plan, s: System, rows: Rows, cache: Entries, copies: Copies, conflicts: nat) {
    && OnlyOthers(p.start, s, p.rows, p.me)
    && AllHeld(s, rows, p.rows, copies) && DirtyOrigin(s.history, rows, p.rows) && p.rows.Keys <= rows.Keys
    && conflicts == |Settled(p.rows, rows)|
    && (p.solo ==>
          && s.tables == p.start.tables && s.history == p.start.history && s.tables.docs.Keys == s.history.Keys
          && (CopiesFit(s.tables, rows, cache, p.limit, false) ==> CopiesFit(s.tables, p.rows, p.cache, p.limit, false)))
    && (p.fits ==> p.solo && CopiesFit(s.tables, rows, cache, p.limit, true))
  }

  lemma PullStarts(trace: seq<Event>, s: System, dev: Device, limit: int, solo: bool, me: DevId)
    requires s == Run(trace) && me in s.devices && s.devices[me] == dev
    ensures var p := Plan(s, dev.rows, dev.cache, limit, solo, solo && CopiesFit(s.tables, dev.rows, dev.cache, limit, true), me);
      PullSoFar(p, s, dev.rows, dev.cache, map[], 0)
    ensures dev.cursor <= s.tables.lastSeq
  {
    RunKeepsInv(trace);
    OnlyOthersReflexive(s, dev.rows, me);
    assert Settled(dev.rows, dev.rows) == {};
  }

  lemma SoFarLater(p: Plan, s: System, t: System, rows: Rows, cache: Entries, copies: Copies, conflicts: nat)
    requires PullSoFar(p, s, rows, cache, copies, conflicts) && OnlyOthers(s, t, rows, p.me)
    requires p.solo ==> t.tables == s.tables && t.history == s.history
    ensures PullSoFar(p, t, rows, cache, copies, conflicts)
    ensures OnlyOthers(s, t, p.rows, p.me) && OnlyOthers(p.start, t, p.rows, p.me)
    ensures (p.fits ==> p.solo) && (p.solo ==> t.history == p.start.history)
  {
    hide OnlyOthers, AllHeld, DirtyOrigin, Settled, CopiesFit;
    OnlyOthersFewer(s, t, rows, p.rows, p.me);
    OnlyOthersTransitive(p.start, s, t, p.rows, p.me);
    OthersHold(s, t, rows, p.rows, copies, p.me);
  }

  lemma PullFails(p: Plan, s: System, rows: Rows, cache: Entries, copies: Copies, conflicts: nat)
    requires PullSoFar(p, s, rows, cache, copies, conflicts)
    ensures Salvaged(s, rows, p.rows, copies, None)
  {
    hide AllHeld, DirtyOrigin, CopiesFit, OnlyOthers, Settled;
    NothingLost(s, rows, p.rows, copies);
  }

  /** The last page was read in `seen`, at place `at` of the run, and nothing in it is left to take. */
  ghost predicate LastRead(p: Plan, begin: nat, trace: seq<Event>, at: nat, seen: System, s: System, rows: Rows) {
    && AtSnapshot(seen.history, rows)
    && OnlyOthers(p.start, seen, p.rows, p.me) && OnlyOthers(seen, s, p.rows, p.me)
    && begin < at <= |trace| && seen == Run(trace[..at]) && IsLastFetch(trace[at - 1], p.me)
    && (p.solo ==> seen.history == p.start.history)
  }

  /** A whole page was taken in `done`, and the cursor moved on. */
  lemma PageDone(p: Plan, begin: nat, soFar: seq<Event>, trace: seq<Event>, page: Page, read: System, done: System, s: System,
                 rows: Rows)
    requires begin < |soFar| && soFar <= trace && read == Run(soFar) && AtSnapshot(read.history, rows)
    requires soFar[|soFar| - 1] == Act(p.me, Fetch(PAGE_LIMIT, page)) && !page.hasMore
    requires OnlyOthers(p.start, read, p.rows, p.me) && OnlyOthers(read, done, p.rows, p.me) && OnlyOthers(done, s, p.rows, p.me)
    requires p.solo ==> read.history == p.start.history
    ensures LastRead(p, begin, trace, |soFar|, read, s, rows)
  {
    hide Run, AtSnapshot, OnlyOthers;
    OnlyOthersTransitive(read, done, s, p.rows, p.me);
    assert trace[..|soFar|] == soFar;
  }

  lemma PullEnds(p: Plan, begin: nat, trace: seq<Event>, at: nat, seen: System, t: System, rows: Rows, cache: Entries, copies: Copies,
                 conflicts: nat)
    requires PullSoFar(p, t, rows, cache, copies, conflicts) && LastRead(p, begin, trace, at, seen, t, rows)
    requires begin <= |trace| && p.start == Run(trace[..begin])
    ensures AllHeld(t, rows, p.rows, copies) && DirtyOrigin(t.history, rows, p.rows) && p.rows.Keys <= rows.Keys
    ensures conflicts == |Settled(p.rows, rows)| && OnlyOthers(p.start, t, p.rows, p.me)
    ensures AtSnapshot(seen.history, rows)
    ensures OnlyOthers(p.start, seen, p.rows, p.me) && OnlyOthers(seen, t, p.rows, p.me)
    ensures begin < at <= |trace| && seen == Run(trace[..at]) && IsLastFetch(trace[at - 1], p.me)
    ensures p.solo ==> CopiesFit(p.start.tables, p.rows, p.cache, p.limit, false)
  {
    hide Run, OnlyOthers, AllHeld, DirtyOrigin, Settled, CopiesFit, AtSnapshot;
    if p.solo {
      DocVersions(trace[..begin], p.start);
      NoneIsBehind(p.start.tables, seen.history, rows, cache, p.limit);
    }
  }

  lemma SureToFit(p: Plan, s: System, rows: Rows, cache: Entries, copies: Copies, conflicts: nat, item: Item)
    requires PullSoFar(p, s, rows, cache, copies, conflicts) && p.fits && IsFirst(s.tables.docs, rows, item)
    ensures Conflicts(Device(rows, 0, [], cache, None, None), item) && IsEdit(rows[item.id]) ==>
      HasRoom(item.rec, s.tables.blobs, rows[item.id], cache, PinnedBytes(rows, cache), p.limit)
  {
    hide OnlyOthers, AllHeld, DirtyOrigin, Settled, CopiesFit, HasRoom, PinnedBytes;
    if Conflicts(Device(rows, 0, [], cache, None, None), item) && IsEdit(rows[item.id]) {
      FirstFits(s.tables, rows, cache, item, p.limit, true);
    }
  }

  /** One more item has been taken. */
  lemma ItemDone(p: Plan, s: System, t: System, rows: Rows, rows': Rows, cache: Entries, cache': Entries, copies: Copies,
                 copies': Copies, item: Item, conflict: bool, conflicts: nat)
    requires PullSoFar(p, s, rows, cache, copies, conflicts) && OnlyOthers(s, t, rows, p.me) && item.id in s.history
    requires AllHeld(t, rows', p.rows, copies') && DirtyOrigin(t.history, rows', p.rows) && Took(rows, rows', item, t.history)
    requires OthersKept(s.contents, rows, item.id, cache, cache')
    requires PinnedBytes(rows', cache') == PinnedBytes(rows, cache) + ItemDelta(rows, item, cache)
    requires conflict == Conflicts(Device(rows, 0, [], cache, None, None), item)
    requires p.solo ==>
      && t.tables == s.tables && t.history == s.history && IsFirst(s.tables.docs, rows, item) && Labelled(s.contents, s.tables.docs, rows)
      && (conflict && IsEdit(rows[item.id]) ==>
            HasRoom(item.rec, s.tables.blobs, rows[item.id], cache, PinnedBytes(rows, cache), p.limit))
    ensures PullSoFar(p, t, rows', cache', copies', conflicts + if conflict then 1 else 0)
  {
    hide OnlyOthers, AllHeld, DirtyOrigin, Settled, CopiesFit, HasRoom, PinnedBytes, ItemDelta, Took, OthersKept, Labelled;
    OnlyOthersFewer(s, t, rows, p.rows, p.me);
    OnlyOthersTransitive(p.start, s, t, p.rows, p.me);
    ItemTaken(s, t, p.rows, rows, rows', item, conflict);
    if p.solo {
      FitAfterItem(s.contents, s.tables, t.history, rows, rows', cache, cache', item, p.limit);
    }
  }

  lemma BlobsLabelled(trace: seq<Event>, s: System, me: DevId)
    requires s == Run(trace) && me in s.devices
    ensures Labelled(s.contents, s.tables.docs, s.devices[me].rows)
  {
    hide Inv, Run, RowOk, EntryOk;
    forall id | id in s.devices[me].rows && s.devices[me].rows[id].blobId.Some?
      ensures s.devices[me].rows[id].blobId.value in s.contents && s.contents[s.devices[me].rows[id].blobId.value].doc == id
    {
      RowIsOk(trace, s, me, id);
      RowBlob(s, id, s.devices[me].rows[id]);
    }
    forall id | id in s.tables.docs && s.tables.docs[id].blobId.Some?
      ensures s.tables.docs[id].blobId.value in s.contents && s.contents[s.tables.docs[id].blobId.value].doc == id
    {
      ServerDoc(trace, s, id);
      RecordBlob(s, Item(id, s.tables.docs[id]));
    }
  }

  /** Of all the documents the device is behind with, the next one on the page was written first. */
  lemma HeadIsFirst(trace: seq<Event>, s: System, me: DevId, page: Page, i: nat)
    requires s == Run(trace) && me in s.devices && i < |page.items| && s.devices[me].inbox == Some(page.(items := page.items[i..]))
    requires Ascending(page.items)
    requires forall j :: 0 <= j < |page.items| ==>
      && page.items[j].id in s.tables.docs && s.tables.docs[page.items[j].id] == page.items[j].rec
      && page.items[j].rec.seqNo <= page.nextSince
    ensures IsFirst(s.tables.docs, s.devices[me].rows, page.items[i])
  {
    hide RowsOk, IndexOk, CacheOk, DistinctItems, ItemOk, DistinctSeqs, References, BlobsOk, OwnersOk, SupplyOk, ChronicleOk, Run;
    RunKeepsInv(trace);
    var rows := s.devices[me].rows;
    forall id | Behind(s.tables.docs, rows, id) && id != page.items[i].id ensures page.items[i].rec.seqNo < s.tables.docs[id].seqNo {
      ServerDoc(trace, s, id);
      if LatestSeq(s.history, id) <= page.nextSince {
        assert InItems(page.items[i..], s.history, id);
        var j :| 0 <= j < |page.items[i..]| && Announces(page.items[i..][j], s.history, id);
        assert page.items[i..][j] == page.items[i + j];
      }
    }
  }

  lemma TablesDistinct(trace: seq<Event>, s: System, me: DevId)
    requires s == Run(trace)
    ensures DistinctSeqs(s.tables.docs)
  {
    RunKeepsInv(trace);
  }

  /** A page just read in `s` by a device at `cursor` with these rows. */
  ghost predicate PageRead(s: System, cursor: nat, rows: Rows, page: Page) {
    && cursor <= page.nextSince <= s.tables.lastSeq
    && (page.hasMore ==> cursor < page.nextSince)
    && (!page.hasMore ==> Tracked(s.history, rows, page.items))
    && (forall i :: 0 <= i < |page.items| ==>
          && page.items[i].id in s.tables.docs && s.tables.docs[page.items[i].id] == page.items[i].rec
          && cursor < page.items[i].rec.seqNo <= page.nextSince)
    && Ascending(page.items)
  }

  lemma PageFacts(trace: seq<Event>, s: System, t: System, me: DevId, page: Page)
    requires s == Run(trace) && me in s.devices && IsPage(s.tables.docs, s.devices[me].cursor, PAGE_LIMIT, page)
    requires t.tables == s.tables && t.history == s.history
    ensures PageRead(t, s.devices[me].cursor, s.devices[me].rows, page)
  {
    hide HistoryOk, RowsOk, CursorOk, DistinctItems, ItemOk, Covered, InItems, IndexOk, CacheOk, PendingOk, References, BlobsOk,
         DistinctSeqs, Tracked, OwnersOk, SupplyOk;
    RunKeepsInv(trace);
    var dev := s.devices[me];
    FetchedPage(s, dev, PAGE_LIMIT, page);
    forall i | 0 <= i < |page.items|
      ensures page.items[i].id in s.tables.docs && s.tables.docs[page.items[i].id] == page.items[i].rec
      ensures dev.cursor < page.items[i].rec.seqNo <= page.nextSince
    {
      assert Stored(s.tables.docs, dev.cursor, page.nextSince, page.items[i]);
    }
    if !page.hasMore {
      FetchedTracked(s, dev, page);
    }
  }

  lemma PageBounds(s: System, cursor: nat, rows: Rows, page: Page)
    requires PageRead(s, cursor, rows, page)
    ensures cursor <= page.nextSince <= s.tables.lastSeq && (page.hasMore ==> cursor < page.nextSince)
  {
  }

  lemma FetchedTracked(s: System, dev: Device, page: Page)
    requires RowsOk(s, dev) && InboxOk(s, dev.(inbox := Some(page)))
    requires forall i :: 0 <= i < |page.items| ==> Announces(page.items[i], s.history, page.items[i].id)
    requires forall id :: id in s.history ==> LatestSeq(s.history, id) <= page.nextSince
    ensures Tracked(s.history, dev.rows, page.items)
  {
    forall id | id in dev.rows ensures dev.rows[id].base <= Ver(s.history, id) {
      assert RowOk(s.history, s.contents, id, dev.rows[id]);
    }
  }

  lemma ItemTaken(s: System, t: System, rows0: Rows, rows: Rows, rows': Rows, item: Item, conflict: bool)
    requires DirtyOrigin(s.history, rows, rows0) && item.id in s.history && Took(rows, rows', item, t.history)
    requires rows0.Keys <= rows.Keys
    requires conflict <==> item.id in rows && rows[item.id].dirty && item.rec.version > rows[item.id].base
    ensures |Settled(rows0, rows')| == |Settled(rows0, rows)| + if conflict then 1 else 0
    ensures rows0.Keys <= rows'.Keys
  {
    SettledStep(s.history, rows0, rows, rows', item, t.history, conflict);
  }

  /** What the invariant says of a copy about to be made. */
  lemma CopyFacts(trace: seq<Event>, s: System, me: DevId)
    requires s == Run(trace) && me in s.devices && s.devices[me].pending.Some?
    ensures var p := s.devices[me].pending.value;
      && PendingOk(s.contents, p)
      && s.supply !in s.devices[me].rows && s.supply !in s.history && s.supply + 1 !in s.contents
      && s.supply + 1 !in s.devices[me].cache
      && (p.row.blobId.value in s.devices[me].cache ==>
            s.devices[me].cache[p.row.blobId.value].content == s.contents[p.row.blobId.value])
  {
    RunKeepsInv(trace);
  }

  lemma OnePinMore(rows: Rows, k: DocId, copy: Row, b: BlobId)
    requires k !in rows && copy.blobId == Some(b) && Pins(copy, b)
    ensures Pinned(rows[k := copy], b)
    ensures forall x :: x != b ==> (Pinned(rows[k := copy], x) <==> Pinned(rows, x))
  {
    assert Pins(rows[k := copy][k], b);
    forall x | x != b ensures Pinned(rows[k := copy], x) <==> Pinned(rows, x) {
      if Pinned(rows[k := copy], x) {
        var id :| id in rows[k := copy] && Pins(rows[k := copy][id], x);
        assert Pins(rows[id], x);
      }
      if Pinned(rows, x) {
        var id :| id in rows && Pins(rows[id], x);
        assert Pins(rows[k := copy][id], x);
      }
    }
  }

  /** The copy is as large as the original, and it is the one more blob that is pinned. */
  lemma CopyPinned(s: System, rows: Rows, cache: Entries, p: Pending, k: DocId, b: BlobId, copy: Row, full: Entries,
                   content: CipherBlob, salt: nat)
    requires PendingOk(s.contents, p) && k !in rows && b !in cache && copy.blobId == Some(b)
    requires content == CipherBlob(k, s.contents[p.row.blobId.value].plain, salt)
    requires b in full && full == cache[b := full[b]] && full[b].size == content.Size()
    requires Pins(copy, b)
    ensures PinnedBytes(rows[k := copy], full) == PinnedBytes(rows, cache) + p.row.blobSize
  {
    hide PinnedBytes, Pinned;
    OnePinMore(rows, k, copy, b);
    PinsDiffer(rows, cache, rows[k := copy], full, b);
  }

  lemma PendingSize(trace: seq<Event>, s: System, t: System, me: DevId)
    requires s == Run(trace) && me in s.devices && s.devices[me].pending.Some? && OnlyOthers(s, t, s.devices[me].rows, me)
    ensures forall b :: b in s.contents ==> b in t.contents
    ensures var row := s.devices[me].pending.value.row;
      && row.blobId.Some? && row.blobId.value in s.contents && row.blobId.value in t.contents
      && t.contents[row.blobId.value].Size() == row.blobSize
      && (row.blobId.value in s.tables.blobs ==> s.tables.blobs[row.blobId.value].content.Size() == row.blobSize)
  {
    hide HistoryOk;
    RunKeepsInv(trace);
  }

  lemma CopyRowIntro(s: System, t: System, rows: Rows, k: DocId, row: Row)
    requires Grows(s, t) && k in rows && k !in t.history && NeverPushed(rows[k]) && rows[k].keepOffline == row.keepOffline
    requires CopyOf(t.contents, row, rows[k].blobId, rows[k].encMeta)
    ensures CopyRow(t.contents, t.history, rows, k, row)
  {
  }
}
