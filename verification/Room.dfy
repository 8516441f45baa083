/** What a pull does to the pinned part of the cache, and when its conflict copies fit. */
module Room {
  import opened Types
  import opened Server
  import opened Changes
  import opened Index
  import opened Device
  import opened System
  import opened Invariant
  import opened Preservation
  import opened Runs
  import opened Edits
  import opened Cache
  import opened Sums

  /** The server has a newer version of the document than the row is based on. */
  predicate Behind(docs: map<DocId, Record>, rows: Rows, id: DocId) {
    id in rows && id in docs && docs[id].version > rows[id].base
  }

  predicate IsCached(cache: Entries, blobId: Option<BlobId>) {
    blobId.Some? && blobId.value in cache
  }

  predicate IsStored(blobs: map<BlobId, StoredBlob>, blobId: Option<BlobId>) {
    blobId.Some? && blobId.value in blobs
  }

  function CachedSize(cache: Entries, row: Row): int {
    if IsCached(cache, row.blobId) then row.blobSize else 0
  }

  /** A pending deletion of a document kept offline is about to be given up, and its blob is still in the
      cache, where nothing pins it. */
  predicate Lingers(rec: Record, row: Row, cache: Entries) {
    row.dirty && row.deleted && row.keepOffline && IsCached(cache, rec.blobId)
  }

  /** What taking a newer record does to the pinned bytes. An edit gives up its blob, or has it fetched and
      kept for offline use, and its copy comes in. `lingering` tells whether to count blobs that linger. */
  function Delta(rec: Record, row: Row, cache: Entries, lingering: bool): int {
    if IsEdit(row) then
      row.blobSize + (if row.keepOffline && rec.blobId == row.blobId then row.blobSize else 0) - CachedSize(cache, row)
    else if row.dirty then
      if lingering && Lingers(rec, row, cache) then rec.blobSize else 0
    else if row.keepOffline && rec.blobId != row.blobId then -CachedSize(cache, row)
    else 0
  }

  /** Copying the edit needs no room: its blob is cached, or a pinned download, and the server's record
      has the same one, so that taking the record does not drop it. */
  predicate AtHand(rec: Record, blobs: map<BlobId, StoredBlob>, row: Row, cache: Entries) {
    rec.blobId == row.blobId && (IsCached(cache, row.blobId) || (row.keepOffline && IsStored(blobs, row.blobId)))
  }

  /** An overtaken edit can be copied when `pinned` bytes are pinned: its blob is at hand, or it can be
      fetched and there is room for it beside what is pinned. */
  ghost predicate HasRoom(rec: Record, blobs: map<BlobId, StoredBlob>, row: Row, cache: Entries, pinned: int, limit: int) {
    || AtHand(rec, blobs, row, cache)
    || (IsStored(blobs, row.blobId) && pinned + row.blobSize - CachedSize(cache, row) <= limit)
  }

  /** The changes that a pull makes to the pinned bytes before it comes to number `seqNo`. */
  ghost function Deltas(docs: map<DocId, Record>, rows: Rows, cache: Entries, lingering: bool, seqNo: nat): map<nat, int> {
    map id | id in rows && Behind(docs, rows, id) && docs[id].seqNo < seqNo :: Delta(docs[id], rows[id], cache, lingering)
  }

  /** The bytes that are pinned when a pull comes to number `seqNo`. */
  ghost function PinnedAt(docs: map<DocId, Record>, rows: Rows, cache: Entries, lingering: bool, seqNo: nat): int {
    PinnedBytes(rows, cache) + Sum(Deltas(docs, rows, cache, lingering, seqNo))
  }

  /** Every edit the server has overtaken can be copied when its turn comes: surely, if blobs that linger are
      counted, and possibly, if not, because an eviction pass may or may not have taken them by then. */
  ghost predicate CopiesFit(t: Tables, rows: Rows, cache: Entries, limit: int, lingering: bool) {
    forall id :: id in rows && IsEdit(rows[id]) && Behind(t.docs, rows, id) ==>
      HasRoom(t.docs[id], t.blobs, rows[id], cache, PinnedAt(t.docs, rows, cache, lingering, t.docs[id].seqNo), limit)
  }

  ghost predicate NoneLingers(t: Tables, rows: Rows, cache: Entries) {
    forall id :: id in rows && Behind(t.docs, rows, id) ==> !Lingers(t.docs[id], rows[id], cache)
  }

  /** With nothing that lingers, there is one answer to whether the copies fit. */
  lemma FitIsCertain(t: Tables, rows: Rows, cache: Entries, limit: int)
    requires NoneLingers(t, rows, cache)
    ensures CopiesFit(t, rows, cache, limit, true) <==> CopiesFit(t, rows, cache, limit, false)
  {
    hide HasRoom, PinnedAt, NoneLingers;
    forall n: nat ensures PinnedAt(t.docs, rows, cache, true, n) == PinnedAt(t.docs, rows, cache, false, n) {
      PinnedIsCertain(t, rows, cache, n);
    }
  }

  lemma PinnedIsCertain(t: Tables, rows: Rows, cache: Entries, n: nat)
    requires NoneLingers(t, rows, cache)
    ensures PinnedAt(t.docs, rows, cache, true, n) == PinnedAt(t.docs, rows, cache, false, n)
  {
    hide PinnedBytes, Sum;
    assert Deltas(t.docs, rows, cache, true, n) == Deltas(t.docs, rows, cache, false, n);
  }

  // ------------------------------------------------------------------ one item -------------

  /** What taking an item does to the pinned bytes. */
  function ItemDelta(rows: Rows, item: Item, cache: Entries): int {
    if item.id in rows && item.rec.version > rows[item.id].base then Delta(item.rec, rows[item.id], cache, true) else 0
  }

  /** The part of it that comes before the copy of an edit is made. */
  function AppliedDelta(rec: Record, row: Row, cache: Entries): int {
    if !IsEdit(row) then Delta(rec, row, cache, true)
    else if row.keepOffline && rec.blobId == row.blobId then 0
    else -CachedSize(cache, row)
  }

  /** Of all documents the device is behind with, the server wrote this one first. */
  ghost predicate IsFirst(docs: map<DocId, Record>, rows: Rows, item: Item) {
    && item.id in docs && docs[item.id] == item.rec
    && (forall id :: Behind(docs, rows, id) && id != item.id ==> item.rec.seqNo < docs[id].seqNo)
  }

  /** Every blob is marked with the document it is for. */
  ghost predicate Labelled(c: Contents, docs: map<DocId, Record>, rows: Rows) {
    && (forall id :: id in rows && rows[id].blobId.Some? ==> rows[id].blobId.value in c && c[rows[id].blobId.value].doc == id)
    && (forall id :: id in docs && docs[id].blobId.Some? ==> docs[id].blobId.value in c && c[docs[id].blobId.value].doc == id)
  }

  /** Of the blobs of the other documents, none came into the cache and no pinned one left it. */
  ghost predicate OthersKept(c: Contents, rows: Rows, but: DocId, cache: Entries, cache': Entries) {
    forall x :: x in c && c[x].doc != but ==> (x in cache' ==> x in cache) && (x in cache && Pinned(rows, x) ==> x in cache')
  }

  lemma NothingTaken(c: Contents, rows: Rows, item: Item, cache: Entries)
    requires item.id in rows && item.rec.version <= rows[item.id].base
    ensures OthersKept(c, rows, item.id, cache, cache) && ItemDelta(rows, item, cache) == 0
  {
  }

  /** The edit whose turn it is has the room there is now. */
  lemma FirstFits(t: Tables, rows: Rows, cache: Entries, item: Item, limit: int, lingering: bool)
    requires CopiesFit(t, rows, cache, limit, lingering) && IsFirst(t.docs, rows, item)
    requires Behind(t.docs, rows, item.id) && IsEdit(rows[item.id])
    ensures HasRoom(item.rec, t.blobs, rows[item.id], cache, PinnedBytes(rows, cache), limit)
  {
    hide PinnedBytes, PinnedAt;
    FirstPinned(t.docs, rows, cache, lingering, item);
  }

  /** One item later, what is pinned at a later turn is as foreseen, but for blobs that linger. */
  lemma PinnedAfterItem(c: Contents, docs: map<DocId, Record>, h: History, rows: Rows, rows': Rows, cache: Entries, cache': Entries,
                        item: Item, seqNo: nat)
    requires Took(rows, rows', item, h) && docs.Keys == h.Keys && IsFirst(docs, rows, item) && item.rec.seqNo < seqNo
    requires Labelled(c, docs, rows) && OthersKept(c, rows, item.id, cache, cache')
    requires PinnedBytes(rows', cache') == PinnedBytes(rows, cache) + ItemDelta(rows, item, cache)
    ensures PinnedAt(docs, rows', cache', true, seqNo) <= PinnedAt(docs, rows, cache, true, seqNo)
    ensures PinnedAt(docs, rows', cache', false, seqNo) >= PinnedAt(docs, rows, cache, false, seqNo)
  {
    hide PinnedBytes, Sum, Took, IsFirst, Labelled, OthersKept;
    BehindAfterItem(docs, h, rows, rows', item);
    LaterDeltas(c, docs, h, rows, rows', cache, cache', item, seqNo, true);
    LaterDeltas(c, docs, h, rows, rows', cache, cache', item, seqNo, false);
  }

  lemma LaterDeltas(c: Contents, docs: map<DocId, Record>, h: History, rows: Rows, rows': Rows, cache: Entries, cache': Entries,
                    item: Item, seqNo: nat, lingering: bool)
    requires Took(rows, rows', item, h) && docs.Keys == h.Keys && IsFirst(docs, rows, item) && item.rec.seqNo < seqNo
    requires Labelled(c, docs, rows) && OthersKept(c, rows, item.id, cache, cache')
    ensures var now := if Behind(docs, rows, item.id) then Delta(item.rec, rows[item.id], cache, lingering) else 0;
      var before, after := Sum(Deltas(docs, rows, cache, lingering, seqNo)), Sum(Deltas(docs, rows', cache', lingering, seqNo));
      if lingering then now + after <= before else now + after == before
  {
    hide Sum, Took, IsFirst, Labelled, OthersKept, Delta;
    BehindAfterItem(docs, h, rows, rows', item);
    var m, m' := Deltas(docs, rows, cache, lingering, seqNo), Deltas(docs, rows', cache', lingering, seqNo);
    var rest := m - {item.id};
    if Behind(docs, rows, item.id) {
      SumWithout(m, item.id);
    } else {
      assert rest == m;
    }
    forall id | id in rest ensures id in m' && m'[id] <= rest[id] && (!lingering ==> m'[id] == rest[id]) {
      DeltaKept(c, docs, rows, cache, cache', item.id, id);
    }
    assert m'.Keys == rest.Keys;
    SumMonotone(m', rest);
    if !lingering {
      assert m' == rest;
    }
  }

  lemma BehindAfterItem(docs: map<DocId, Record>, h: History, rows: Rows, rows': Rows, item: Item)
    requires Took(rows, rows', item, h) && docs.Keys == h.Keys && IsFirst(docs, rows, item)
    ensures forall id :: Behind(docs, rows', id) <==> Behind(docs, rows, id) && id != item.id
    ensures forall id :: Behind(docs, rows', id) ==> rows'[id] == rows[id]
    ensures item.id in docs && docs[item.id] == item.rec
  {
  }

  lemma DeltaKept(c: Contents, docs: map<DocId, Record>, rows: Rows, cache: Entries, cache': Entries, but: DocId, id: DocId)
    requires Labelled(c, docs, rows) && OthersKept(c, rows, but, cache, cache') && Behind(docs, rows, id) && id != but
    ensures Delta(docs[id], rows[id], cache', true) <= Delta(docs[id], rows[id], cache, true)
    ensures Delta(docs[id], rows[id], cache', false) == Delta(docs[id], rows[id], cache, false)
    ensures IsEdit(rows[id]) ==> (IsCached(cache', rows[id].blobId) <==> IsCached(cache, rows[id].blobId))
  {
    var row := rows[id];
    if row.blobId.Some? && (row.dirty || row.keepOffline) {
      assert Pins(row, row.blobId.value);
    }
  }

  /** Copies that fit still fit one item later; and if they do then, they did before. */
  lemma FitAfterItem(c: Contents, t: Tables, h: History, rows: Rows, rows': Rows, cache: Entries, cache': Entries, item: Item,
                     limit: int)
    requires Took(rows, rows', item, h) && t.docs.Keys == h.Keys && IsFirst(t.docs, rows, item)
    requires Labelled(c, t.docs, rows) && OthersKept(c, rows, item.id, cache, cache')
    requires PinnedBytes(rows', cache') == PinnedBytes(rows, cache) + ItemDelta(rows, item, cache)
    requires Behind(t.docs, rows, item.id) && IsEdit(rows[item.id]) ==>
      HasRoom(item.rec, t.blobs, rows[item.id], cache, PinnedBytes(rows, cache), limit)
    ensures CopiesFit(t, rows, cache, limit, true) ==> CopiesFit(t, rows', cache', limit, true)
    ensures CopiesFit(t, rows', cache', limit, false) ==> CopiesFit(t, rows, cache, limit, false)
  {
    hide PinnedBytes, PinnedAt, Took, Labelled, OthersKept;
    BehindAfterItem(t.docs, h, rows, rows', item);
    forall id | id in rows && IsEdit(rows[id]) && Behind(t.docs, rows, id) && id != item.id
      ensures PinnedAt(t.docs, rows', cache', true, t.docs[id].seqNo) <= PinnedAt(t.docs, rows, cache, true, t.docs[id].seqNo)
      ensures PinnedAt(t.docs, rows', cache', false, t.docs[id].seqNo) >= PinnedAt(t.docs, rows, cache, false, t.docs[id].seqNo)
      ensures IsCached(cache', rows[id].blobId) <==> IsCached(cache, rows[id].blobId)
    {
      PinnedAfterItem(c, t.docs, h, rows, rows', cache, cache', item, t.docs[id].seqNo);
      DeltaKept(c, t.docs, rows, cache, cache', item.id, id);
    }
    if Behind(t.docs, rows, item.id) {
      FirstPinned(t.docs, rows, cache, false, item);
    }
  }

  lemma FirstPinned(docs: map<DocId, Record>, rows: Rows, cache: Entries, lingering: bool, item: Item)
    requires IsFirst(docs, rows, item)
    ensures PinnedAt(docs, rows, cache, lingering, item.rec.seqNo) == PinnedBytes(rows, cache)
  {
    hide PinnedBytes;
    assert Deltas(docs, rows, cache, lingering, item.rec.seqNo) == map[];
  }
}
