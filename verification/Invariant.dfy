/** The invariant that ties the server, its history and every device together. */
module Invariant {
  import opened Types
  import opened Server
  import opened Changes
  import opened Index
  import opened Device
  import opened System

  // ------------------------------------------------------------------ documents ------------

  /** The metadata describes the ciphertext: its length and its hash. */
  predicate Describes(meta: DocMeta, content: CipherBlob) {
    meta.size == content.Size() && meta.contentHash == Digest(content)
  }

  /** A live document at `version`: its blob was encrypted for it, its metadata was sealed for
      exactly this id and version. */
  predicate LiveOk(c: map<BlobId, CipherBlob>, id: DocId, version: nat, blobId: Option<BlobId>, blobSize: nat, enc: EncMeta) {
    && blobId.Some? && blobId.value in c
    && c[blobId.value].doc == id && blobSize == c[blobId.value].Size()
    && Open(id, version, enc).Some? && Describes(Open(id, version, enc).value, c[blobId.value])
  }

  predicate RecordOk(c: map<BlobId, CipherBlob>, id: DocId, rec: Record) {
    if rec.deleted then rec.blobId == None && rec.blobSize == 0
    else LiveOk(c, id, rec.version, rec.blobId, rec.blobSize, rec.encMeta)
  }

  /** The k-th write of a document made version k + 1. Only the last write may be a tombstone, which
      keeps the metadata of the version before; all live versions share one blob. */
  predicate EntryOk(c: map<BlobId, CipherBlob>, lastSeq: nat, id: DocId, es: seq<Entry>, k: nat)
    requires k < |es|
  {
    var rec := es[k].rec;
    && rec.version == k + 1 && 1 <= rec.seqNo <= lastSeq
    && RecordOk(c, id, rec)
    && (k + 1 < |es| ==> !rec.deleted && rec.seqNo < es[k + 1].rec.seqNo)
    && (!rec.deleted ==> rec.blobId == es[0].rec.blobId)
    && (rec.deleted ==> 0 < k && rec.encMeta == es[k - 1].rec.encMeta)
  }

  predicate ChronicleOk(c: map<BlobId, CipherBlob>, lastSeq: nat, id: DocId, es: seq<Entry>) {
    es != [] && forall k :: 0 <= k < |es| ==> EntryOk(c, lastSeq, id, es, k)
  }

  function Tip(es: seq<Entry>): Record
    requires es != []
  {
    es[|es| - 1].rec
  }

  /** The sequence number of the latest accepted write of a document. */
  function LatestSeq(h: History, id: DocId): nat {
    if Past(h, id) == [] then 0 else Tip(h[id]).seqNo
  }

  ghost predicate HistoryOk(s: System) {
    && s.history.Keys == s.tables.docs.Keys
    && (forall id :: id in s.history ==> ChronicleOk(s.contents, s.tables.lastSeq, id, s.history[id]))
    && (forall id :: id in s.history ==> s.tables.docs[id] == Tip(s.history[id]))
  }

  ghost predicate BlobsOk(s: System) {
    forall b :: b in s.tables.blobs ==> b in s.contents && s.tables.blobs[b].content == s.contents[b]
  }

  ghost predicate ServerOk(s: System) {
    && HistoryOk(s)
    && DistinctSeqs(s.tables.docs)
    && References(s.tables)
    && BlobsOk(s)
  }

  // ------------------------------------------------------------------ devices --------------

  predicate SameRecord(row: Row, rec: Record) {
    && row.version == rec.version && row.blobId == rec.blobId && row.blobSize == rec.blobSize
    && row.deleted == rec.deleted
    && (!row.deleted ==> row.encMeta == rec.encMeta)
  }

  /** What a pending edit is based on: nothing, or a live version with the same blob. */
  predicate EditBase(h: History, id: DocId, row: Row)
    requires row.base <= Ver(h, id)
  {
    row.base > 0 ==>
      var rec := h[id][row.base - 1].rec;
      !rec.deleted && (!row.deleted ==> row.blobId == rec.blobId)
  }

  /** A clean row is the server's record of its version; a dirty row is an edit, sealed for the
      version the server will give it, of a version that was live. */
  predicate RowOk(h: History, c: map<BlobId, CipherBlob>, id: DocId, row: Row) {
    && row.base <= Ver(h, id)
    && (if row.deleted then row.blobId == None && row.blobSize == 0
        else LiveOk(c, id, row.version, row.blobId, row.blobSize, row.encMeta))
    && (if row.dirty then row.version == row.base + 1 && Open(id, row.version, row.encMeta).Some? && EditBase(h, id, row)
        else row.base > 0 && SameRecord(row, h[id][row.base - 1].rec) && row.version == row.base)
  }

  ghost predicate RowsOk(s: System, dev: Device) {
    forall id :: id in dev.rows ==> RowOk(s.history, s.contents, id, dev.rows[id])
  }

  /** The device knows the server's current version of the document. */
  predicate Covered(h: History, rows: map<DocId, Row>, id: DocId) {
    id in rows && rows[id].base == Ver(h, id)
  }

  predicate Announces(item: Item, h: History, id: DocId) {
    item.id == id && item.rec.version == Ver(h, id)
  }

  predicate InItems(items: seq<Item>, h: History, id: DocId) {
    exists i :: 0 <= i < |items| && Announces(items[i], h, id)
  }

  /** Everything up to the cursor has been taken in; while a page is being applied, everything up
      to its end has been taken in or is still in the inbox. */
  ghost predicate CursorOk(s: System, dev: Device) {
    && dev.cursor <= s.tables.lastSeq
    && (forall id :: id in s.history && LatestSeq(s.history, id) <= dev.cursor ==> Covered(s.history, dev.rows, id))
  }

  predicate ItemOk(h: History, dev: Device, item: Item) {
    && item.id in h && 1 <= item.rec.version <= Ver(h, item.id)
    && h[item.id][item.rec.version - 1].rec == item.rec
    && (item.id in dev.rows ==> dev.rows[item.id].base <= item.rec.version)
  }

  predicate DistinctItems(items: seq<Item>) {
    forall i, j :: 0 <= i < j < |items| ==> items[i].id != items[j].id
  }

  ghost predicate InboxOk(s: System, dev: Device) {
    dev.inbox.Some? ==>
      var page := dev.inbox.value;
      && dev.cursor <= page.nextSince <= s.tables.lastSeq
      && DistinctItems(page.items)
      && (forall i :: 0 <= i < |page.items| ==> ItemOk(s.history, dev, page.items[i]))
      && (forall id :: id in s.history && LatestSeq(s.history, id) <= page.nextSince ==>
            Covered(s.history, dev.rows, id) || InItems(page.items, s.history, id))
  }

  predicate PendingOk(c: map<BlobId, CipherBlob>, p: Pending) {
    && !p.row.deleted && LiveOk(c, p.id, p.row.version, p.row.blobId, p.row.blobSize, p.row.encMeta)
    && Summarise(p.id, p.row) == Some(p.summary)
  }

  /** The index has exactly one entry a live document, as decrypting its row would give it. */
  ghost predicate IndexOk(dev: Device) {
    && Distinct(dev.index)
    && (forall x :: x in dev.index <==> InIndex(dev.rows, x))
  }

  predicate InIndex(rows: map<DocId, Row>, x: Summary) {
    x.id in rows && !rows[x.id].deleted && Summarise(x.id, rows[x.id]) == Some(x)
  }

  /** Cached bytes are what was encrypted; a document never pushed has its blob cached. */
  ghost predicate CacheOk(c: map<BlobId, CipherBlob>, dev: Device) {
    && (forall b :: b in dev.cache ==> b in c && dev.cache[b].content == c[b] && dev.cache[b].size == c[b].Size())
    && (forall id :: id in dev.rows && NeverPushed(dev.rows[id]) ==> dev.rows[id].blobId.value in dev.cache)
  }

  predicate NeverPushed(row: Row) {
    row.dirty && !row.deleted && row.base == 0 && row.blobId.Some?
  }

  ghost predicate DevOk(s: System, dev: Device) {
    && RowsOk(s, dev)
    && CursorOk(s, dev)
    && InboxOk(s, dev)
    && (dev.pending.Some? ==> PendingOk(s.contents, dev.pending.value))
    && IndexOk(dev)
    && CacheOk(s.contents, dev)
  }

  // ------------------------------------------------------------------ the whole ------------

  /** A document is encrypted once: no two blobs are for the same one. */
  ghost predicate OneBlobEach(c: map<BlobId, CipherBlob>, supply: nat) {
    && (forall b :: b in c ==> c[b].doc < supply)
    && (forall a, b :: a in c && b in c && c[a].doc == c[b].doc ==> a == b)
  }

  ghost predicate SupplyOk(s: System) {
    && OneBlobEach(s.contents, s.supply)
    && (forall id :: id in s.history ==> id < s.supply)
    && (forall b :: b in s.contents ==> b < s.supply)
    && (forall d, id :: d in s.devices && id in s.devices[d].rows ==> id < s.supply)
  }

  /** A document the server has never accepted lives on one device only. */
  ghost predicate OwnersOk(s: System) {
    forall d, e, id :: d in s.devices && e in s.devices && d != e && id in s.devices[d].rows && id in s.devices[e].rows
      ==> id in s.history
  }

  ghost predicate Inv(s: System) {
    && ServerOk(s)
    && (forall d :: d in s.devices ==> DevOk(s, s.devices[d]))
    && SupplyOk(s)
    && OwnersOk(s)
  }

  // ------------------------------------------------------------------ growth ---------------

  /** `t` comes after `s`: writes were appended with new sequence numbers, nothing was rewritten. */
  ghost predicate Grows(s: System, t: System) {
    && s.tables.lastSeq <= t.tables.lastSeq
    && s.supply <= t.supply
    && (forall b :: b in s.contents ==> b in t.contents && t.contents[b] == s.contents[b])
    && (forall id :: id in s.history ==> id in t.history)
    && (forall id :: id in t.history ==> Appended(s, t, id))
  }

  ghost predicate Appended(s: System, t: System, id: DocId)
    requires id in t.history
  {
    && Past(s.history, id) <= t.history[id]
    && (Ver(s.history, id) < Ver(t.history, id) ==> LatestSeq(t.history, id) > s.tables.lastSeq)
  }

  /** A device that did nothing stays consistent when the rest of the system moves on. */
  lemma DevOkGrows(s: System, t: System, dev: Device)
    requires Grows(s, t) && HistoryOk(s) && HistoryOk(t) && DevOk(s, dev)
    ensures DevOk(t, dev)
  {
    forall id | id in dev.rows ensures RowOk(t.history, t.contents, id, dev.rows[id]) {
      RowOkGrows(s, t, id, dev.rows[id]);
    }
    CursorOkGrows(s, t, dev);
    InboxOkGrows(s, t, dev);
  }

  lemma CursorOkGrows(s: System, t: System, dev: Device)
    requires Grows(s, t) && HistoryOk(s) && CursorOk(s, dev) && HistoryOk(t)
    ensures CursorOk(t, dev)
  {
    forall id | id in t.history && LatestSeq(t.history, id) <= dev.cursor ensures Covered(t.history, dev.rows, id) {
      UnchangedBelow(s, t, id, dev.cursor);
    }
  }

  lemma InboxOkGrows(s: System, t: System, dev: Device)
    requires Grows(s, t) && HistoryOk(s) && InboxOk(s, dev) && HistoryOk(t)
    ensures InboxOk(t, dev)
  {
    hide ItemOk, HistoryOk, Grows, Covered, InItems;
    SequencesGrow(s, t);
    if dev.inbox.Some? {
      var page := dev.inbox.value;
      forall i | 0 <= i < |page.items| ensures ItemOk(t.history, dev, page.items[i]) {
        ItemOkGrows(s, t, dev, page.items[i]);
      }
      forall id | id in t.history && LatestSeq(t.history, id) <= page.nextSince
        ensures Covered(t.history, dev.rows, id) || InItems(page.items, t.history, id)
      {
        UnchangedBelow(s, t, id, page.nextSince);
        StillAnnounced(s.history, t.history, dev.rows, page.items, id);
      }
    }
  }

  lemma SequencesGrow(s: System, t: System)
    requires Grows(s, t)
    ensures s.tables.lastSeq <= t.tables.lastSeq
  {
  }

  lemma ItemOkGrows(s: System, t: System, dev: Device, item: Item)
    requires Grows(s, t) && ItemOk(s.history, dev, item)
    ensures ItemOk(t.history, dev, item)
  {
    assert Appended(s, t, item.id);
  }

  lemma StillAnnounced(h: History, h': History, rows: map<DocId, Row>, items: seq<Item>, id: DocId)
    requires id in h && id in h' && h'[id] == h[id] && (Covered(h, rows, id) || InItems(items, h, id))
    ensures Covered(h', rows, id) || InItems(items, h', id)
  {
    if !Covered(h, rows, id) {
      var i :| 0 <= i < |items| && Announces(items[i], h, id);
      assert Announces(items[i], h', id);
    }
  }

  /** Whatever was written after `s` has a sequence number beyond all of those in `s`. */
  lemma UnchangedBelow(s: System, t: System, id: DocId, bound: nat)
    requires Grows(s, t) && HistoryOk(t) && bound <= s.tables.lastSeq
    requires id in t.history && LatestSeq(t.history, id) <= bound
    ensures id in s.history && t.history[id] == s.history[id]
  {
    assert Appended(s, t, id);
    assert ChronicleOk(t.contents, t.tables.lastSeq, id, t.history[id]);
    assert Past(s.history, id) == t.history[id];
  }

  lemma RowOkGrows(s: System, t: System, id: DocId, row: Row)
    requires Grows(s, t) && RowOk(s.history, s.contents, id, row)
    ensures RowOk(t.history, t.contents, id, row)
  {
    if id in t.history {
      assert Appended(s, t, id);
      assert row.base > 0 ==> t.history[id][row.base - 1] == s.history[id][row.base - 1];
    }
  }

  lemma GrowsTransitive(s: System, t: System, u: System)
    requires Grows(s, t) && Grows(t, u)
    ensures Grows(s, u)
  {
    hide Appended;
    forall id | id in u.history ensures Appended(s, u, id) {
      AppendedTransitive(s, t, u, id);
    }
  }

  lemma AppendedTransitive(s: System, t: System, u: System, id: DocId)
    requires id in u.history && Appended(t, u, id) && s.tables.lastSeq <= t.tables.lastSeq
    requires id in s.history ==> id in t.history
    requires id in t.history ==> Appended(s, t, id)
    ensures Appended(s, u, id)
  {
    var a, b, c := Past(s.history, id), Past(t.history, id), u.history[id];
    assert a <= b && b <= c;
    assert a == b[..|a|] && b == c[..|b|];
    assert a == c[..|a|];
  }
}
