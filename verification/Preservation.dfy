/** Every event keeps the invariant, so every run does. */
module Preservation {
  import opened Types
  import opened Server
  import opened Changes
  import opened Index
  import opened Device
  import opened System
  import opened Invariant

  // ------------------------------------------------------------------ index ----------------

  /** A changed row whose index entry was replaced. */
  lemma IndexReplaced(dev: Device, id: DocId, row: Row, x: Summary, index: seq<Summary>)
    requires IndexOk(dev) && id in dev.rows && !dev.rows[id].deleted && Summarise(id, dev.rows[id]).Some?
    requires !row.deleted && Summarise(id, row) == Some(x)
    requires index == Replace(dev.index, x)
    ensures Distinct(index) && forall y :: y in index <==> InIndex(dev.rows[id := row], y)
  {
    assert InIndex(dev.rows, Summarise(id, dev.rows[id]).value);
    assert Summarise(id, dev.rows[id]).value in dev.index;
    assert Find(dev.index, id).Some?;
    forall y ensures y in index <==> InIndex(dev.rows[id := row], y) {
      assert y.id != id ==> (InIndex(dev.rows[id := row], y) <==> InIndex(dev.rows, y));
    }
  }

  /** A row that is no longer live. */
  lemma IndexRetained(dev: Device, id: DocId, row: Row)
    requires IndexOk(dev) && row.deleted
    ensures var index := Retain(dev.index, id);
      Distinct(index) && forall y :: y in index <==> InIndex(dev.rows[id := row], y)
  {
    forall y ensures y in Retain(dev.index, id) <==> InIndex(dev.rows[id := row], y) {
      assert y.id != id ==> (InIndex(dev.rows[id := row], y) <==> InIndex(dev.rows, y));
    }
  }

  /** A row that was just (re)created: its old entry, if any, is dropped and a new one pushed. */
  lemma IndexPushed(dev: Device, id: DocId, row: Row, x: Summary)
    requires IndexOk(dev) && !row.deleted && Summarise(id, row) == Some(x)
    ensures var index := Retain(dev.index, id) + [x];
      Distinct(index) && forall y :: y in index <==> InIndex(dev.rows[id := row], y)
  {
    var kept := Retain(dev.index, id);
    forall y ensures y in kept + [x] <==> InIndex(dev.rows[id := row], y) {
      assert y.id != id ==> (InIndex(dev.rows[id := row], y) <==> InIndex(dev.rows, y));
    }
  }

  lemma {:induction false} RetainAbsent(index: seq<Summary>, id: DocId)
    requires forall i :: 0 <= i < |index| ==> index[i].id != id
    ensures Retain(index, id) == index
  {
    if index != [] {
      var rest := index[1..];
      RetainAbsent(rest, id);
      assert index == [index[0]] + rest;
    }
  }

  lemma EntryFound(dev: Device, id: DocId, row: Row)
    requires IndexOk(dev) && id in dev.rows && dev.rows[id] == row && !row.deleted && Summarise(id, row).Some?
    ensures Find(dev.index, id) == Summarise(id, row)
  {
    assert InIndex(dev.rows, Summarise(id, row).value);
    var found := Find(dev.index, id).value;
    assert InIndex(dev.rows, found);
  }

  // ------------------------------------------------------------------ local operations -----

  ghost predicate BasesKept(rows: map<DocId, Row>, rows': map<DocId, Row>) {
    forall id :: id in rows ==> id in rows' && rows'[id].base == rows[id].base
  }

  lemma CursorKept(s: System, dev: Device, dev': Device)
    requires CursorOk(s, dev) && dev'.cursor == dev.cursor && BasesKept(dev.rows, dev'.rows)
    ensures CursorOk(s, dev')
  {
    forall id | id in s.history && LatestSeq(s.history, id) <= dev'.cursor ensures Covered(s.history, dev'.rows, id) {
      assert Covered(s.history, dev.rows, id);
    }
  }

  lemma RowsChanged(s: System, dev: Device, id: DocId, row: Row)
    requires RowsOk(s, dev) && RowOk(s.history, s.contents, id, row)
    ensures RowsOk(s, dev.(rows := dev.rows[id := row]))
  {
  }

  /** A row edited in place, with nothing else changed but the index. */
  lemma RowEdited(s: System, dev: Device, dev': Device, id: DocId, row: Row)
    requires HistoryOk(s) && DevOk(s, dev) && dev.Idle() && id in dev.rows
    requires RowOk(s.history, s.contents, id, row) && row.base == dev.rows[id].base
    requires NeverPushed(row) ==> NeverPushed(dev.rows[id]) && row.blobId == dev.rows[id].blobId
    requires dev' == dev.(rows := dev.rows[id := row], index := dev'.index)
    requires IndexOk(dev')
    ensures DevOk(s, dev')
  {
    hide RowOk, HistoryOk, IndexOk;
    RowsChanged(s, dev, id, row);
    assert RowsOk(s, dev');
    CursorKept(s, dev, dev');
    CacheRows(s.contents, dev, dev');
  }

  /** A cache that holds at least the blobs the new rows need. */
  lemma CacheRows(c: map<BlobId, CipherBlob>, dev: Device, dev': Device)
    requires CacheOk(c, dev) && dev'.cache == dev.cache
    requires forall id :: id in dev'.rows && NeverPushed(dev'.rows[id]) ==>
      id in dev.rows && NeverPushed(dev.rows[id]) && dev'.rows[id].blobId == dev.rows[id].blobId
    ensures CacheOk(c, dev')
  {
  }

  lemma EditKeepsDevOk(s: System, dev: Device, id: DocId, title: string, tags: seq<string>, note: string, now: nat, nonce: nat)
    requires HistoryOk(s) && DevOk(s, dev) && dev.Idle()
    requires EditDocument(dev, id, title, tags, note, now, nonce).Some?
    ensures DevOk(s, EditDocument(dev, id, title, tags, note, now, nonce).value)
  {
    hide HistoryOk, CursorOk, CacheOk, InboxOk;
    var dev' := EditDocument(dev, id, title, tags, note, now, nonce).value;
    var row, row' := dev.rows[id], dev'.rows[id];
    EntryFound(dev, id, row);
    IndexReplaced(dev, id, row', Summarise(id, row').value, dev'.index);
    assert RowOk(s.history, s.contents, id, row);
    RowEdited(s, dev, dev', id, row');
  }

  lemma RemoveKeepsDevOk(s: System, dev: Device, id: DocId, now: nat, nonce: nat)
    requires HistoryOk(s) && DevOk(s, dev) && dev.Idle()
    requires RemoveDocument(dev, id, now, nonce).Some?
    ensures DevOk(s, RemoveDocument(dev, id, now, nonce).value)
  {
    hide HistoryOk, CursorOk, CacheOk, InboxOk;
    var dev' := RemoveDocument(dev, id, now, nonce).value;
    var row, row' := dev.rows[id], dev'.rows[id];
    IndexRetained(dev, id, row');
    assert RowOk(s.history, s.contents, id, row);
    RowEdited(s, dev, dev', id, row');
  }

  lemma KeepKeepsDevOk(s: System, dev: Device, id: DocId, keep: bool)
    requires HistoryOk(s) && DevOk(s, dev) && dev.Idle() && id in dev.rows
    ensures DevOk(s, KeepDocument(dev, id, keep).value)
  {
    hide HistoryOk, CursorOk, CacheOk, InboxOk;
    var dev' := KeepDocument(dev, id, keep).value;
    var row, row' := dev.rows[id], dev'.rows[id];
    assert RowOk(s.history, s.contents, id, row);
    if row.deleted {
      RetainAbsent(dev.index, id);
      IndexRetained(dev, id, row');
    } else {
      EntryFound(dev, id, row);
      IndexReplaced(dev, id, row', Summarise(id, row').value, dev'.index);
    }
    RowEdited(s, dev, dev', id, row');
  }

  // ------------------------------------------------------------------ pulling --------------

  /** A freshly fetched page: current records of distinct documents, complete up to its end. */
  lemma FetchKeepsDevOk(s: System, dev: Device, limit: nat, page: Page)
    requires ServerOk(s) && DevOk(s, dev) && dev.Idle() && limit > 0
    requires IsPage(s.tables.docs, dev.cursor, limit, page)
    ensures DevOk(s, dev.(inbox := Some(page)))
  {
    var dev' := dev.(inbox := Some(page));
    FetchedPage(s, dev, limit, page);
    assert CursorOk(s, dev') && IndexOk(dev') && CacheOk(s.contents, dev') && RowsOk(s, dev');
  }

  lemma FetchedPage(s: System, dev: Device, limit: nat, page: Page)
    requires ServerOk(s) && RowsOk(s, dev) && CursorOk(s, dev) && limit > 0
    requires IsPage(s.tables.docs, dev.cursor, limit, page)
    ensures InboxOk(s, dev.(inbox := Some(page)))
    ensures forall i :: 0 <= i < |page.items| ==> Announces(page.items[i], s.history, page.items[i].id)
    ensures dev.cursor <= page.nextSince && (page.items != [] ==> dev.cursor < page.nextSince)
    ensures !page.hasMore ==> forall id :: id in s.history ==> LatestSeq(s.history, id) <= page.nextSince
  {
    hide HistoryOk, RowsOk, Lists, Covered, InItems, References, BlobsOk;
    var items, docs := page.items, s.tables.docs;
    forall i | 0 <= i < |items|
      ensures Announces(items[i], s.history, items[i].id) && ItemOk(s.history, dev, items[i])
    {
      ItemIsCurrent(s, dev, page, i);
    }
    if items != [] {
      ItemIsCurrent(s, dev, page, |items| - 1);
    }
    forall id | id in s.history && LatestSeq(s.history, id) <= page.nextSince
      ensures Covered(s.history, dev.rows, id) || InItems(items, s.history, id)
    {
      FetchedOrCovered(s, dev, page, id);
    }
    if !page.hasMore {
      forall id | id in s.history ensures LatestSeq(s.history, id) <= page.nextSince {
        TipInTable(s, id);
        NothingBeyond(s.tables.docs, page.nextSince, id);
      }
    }
    PageIsDistinct(docs, dev.cursor, page);
  }

  lemma NothingBeyond(docs: map<DocId, Record>, lo: nat, id: DocId)
    requires !AnyBeyond(docs, lo) && id in docs
    ensures docs[id].seqNo <= lo
  {
  }

  lemma PageIsDistinct(docs: map<DocId, Record>, lo: nat, page: Page)
    requires Lists(docs, lo, page.nextSince, page.items)
    ensures DistinctItems(page.items)
  {
    var items := page.items;
    forall i, j | 0 <= i < j < |items| ensures items[i].id != items[j].id {
      assert Stored(docs, lo, page.nextSince, items[i]) && Stored(docs, lo, page.nextSince, items[j]);
    }
  }

  lemma TipInTable(s: System, id: DocId)
    requires HistoryOk(s) && id in s.history
    ensures id in s.tables.docs && s.history[id] != [] && s.tables.docs[id] == Tip(s.history[id])
    ensures s.tables.docs[id].version == Ver(s.history, id) && LatestSeq(s.history, id) == s.tables.docs[id].seqNo
  {
    assert ChronicleOk(s.contents, s.tables.lastSeq, id, s.history[id]);
    assert EntryOk(s.contents, s.tables.lastSeq, id, s.history[id], Ver(s.history, id) - 1);
  }

  lemma FetchedOrCovered(s: System, dev: Device, page: Page, id: DocId)
    requires HistoryOk(s) && RowsOk(s, dev) && CursorOk(s, dev)
    requires Lists(s.tables.docs, dev.cursor, page.nextSince, page.items)
    requires id in s.history && LatestSeq(s.history, id) <= page.nextSince
    ensures Covered(s.history, dev.rows, id) || InItems(page.items, s.history, id)
  {
    TipInTable(s, id);
    if LatestSeq(s.history, id) > dev.cursor {
      assert Item(id, s.tables.docs[id]) in page.items;
      var i :| 0 <= i < |page.items| && page.items[i] == Item(id, s.tables.docs[id]);
      assert Announces(page.items[i], s.history, id);
    }
  }

  lemma ItemIsCurrent(s: System, dev: Device, page: Page, i: nat)
    requires HistoryOk(s) && RowsOk(s, dev)
    requires Lists(s.tables.docs, dev.cursor, page.nextSince, page.items) && i < |page.items|
    ensures Announces(page.items[i], s.history, page.items[i].id) && ItemOk(s.history, dev, page.items[i])
    ensures dev.cursor < page.items[i].rec.seqNo <= s.tables.lastSeq
  {
    hide LiveOk, EditBase, SameRecord, NoneMissing, Ascending;
    var item := page.items[i];
    assert Stored(s.tables.docs, dev.cursor, page.nextSince, item);
    var es := s.history[item.id];
    assert ChronicleOk(s.contents, s.tables.lastSeq, item.id, es);
    assert EntryOk(s.contents, s.tables.lastSeq, item.id, es, |es| - 1);
    if item.id in dev.rows {
      assert RowOk(s.history, s.contents, item.id, dev.rows[item.id]);
    }
  }

  /** The row `apply_pulled_record` writes. */
  lemma PulledRowOk(s: System, dev: Device, item: Item, now: nat)
    requires HistoryOk(s) && ItemOk(s.history, dev, item)
    ensures RowOk(s.history, s.contents, item.id, PulledRow(dev, item, now))
  {
    var es := s.history[item.id];
    assert ChronicleOk(s.contents, s.tables.lastSeq, item.id, es);
    assert EntryOk(s.contents, s.tables.lastSeq, item.id, es, item.rec.version - 1);
  }

  lemma ApplyRecordIndexOk(s: System, dev: Device, item: Item, now: nat)
    requires HistoryOk(s) && ItemOk(s.history, dev, item) && IndexOk(dev)
    ensures IndexOk(ApplyRecord(dev, item, now))
  {
    var row := PulledRow(dev, item, now);
    PulledRowOk(s, dev, item, now);
    if row.deleted {
      IndexRetained(dev, item.id, row);
    } else {
      IndexPushed(dev, item.id, row, Summarise(item.id, row).value);
    }
  }

  /** Dropping the blob of the overwritten row takes nothing away that a pending upload needs,
      because a blob belongs to one document. */
  lemma ApplyRecordCacheOk(s: System, dev: Device, item: Item, now: nat)
    requires HistoryOk(s) && ItemOk(s.history, dev, item) && RowsOk(s, dev) && CacheOk(s.contents, dev)
    ensures CacheOk(s.contents, ApplyRecord(dev, item, now))
  {
    var dev' := ApplyRecord(dev, item, now);
    forall id | id in dev'.rows && NeverPushed(dev'.rows[id]) ensures dev'.rows[id].blobId.value in dev'.cache {
      assert id != item.id && NeverPushed(dev.rows[id]);
      assert RowOk(s.history, s.contents, id, dev.rows[id]);
      if item.id in dev.rows {
        assert RowOk(s.history, s.contents, item.id, dev.rows[item.id]);
      }
    }
  }

  /** Applying the head of the inbox: the document is covered if its record was current, and the
      other documents are as they were. */
  lemma PullItemKeepsDevOk(s: System, dev: Device, now: nat)
    requires HistoryOk(s) && DevOk(s, dev)
    requires dev.inbox.Some? && dev.inbox.value.items != [] && dev.pending.None?
    ensures var page := dev.inbox.value;
      DevOk(s, PullItem(dev.(inbox := Some(page.(items := page.items[1..]))), page.items[0], now))
  {
    var page := dev.inbox.value;
    var item := page.items[0];
    var rest := dev.(inbox := Some(page.(items := page.items[1..])));
    var dev' := PullItem(rest, item, now);
    assert ItemOk(s.history, dev, item) && ItemOk(s.history, rest, item);
    if !KeepsEdit(rest, item) {
      PulledRowOk(s, rest, item, now);
      RowsChanged(s, dev, item.id, PulledRow(rest, item, now));
      ApplyRecordIndexOk(s, rest, item, now);
      ApplyRecordCacheOk(s, rest, item, now);
      if dev'.pending.Some? {
        EntryFound(dev, item.id, dev.rows[item.id]);
        assert RowOk(s.history, s.contents, item.id, dev.rows[item.id]);
      }
    }
    assert RowsOk(s, dev') && IndexOk(dev') && CacheOk(s.contents, dev');
    PullItemCursor(s, dev, now);
    PullItemInbox(s, dev, now);
  }

  /** Applying an item touches its own row only, and leaves it based on at least that version. */
  lemma PullItemEffect(dev: Device, item: Item, now: nat)
    ensures var dev' := PullItem(dev, item, now);
      && dev'.inbox == dev.inbox && dev'.cursor == dev.cursor
      && dev'.rows.Keys == dev.rows.Keys + {item.id}
      && (forall id :: id in dev.rows && id != item.id ==> dev'.rows[id] == dev.rows[id])
      && dev'.rows[item.id].base == if KeepsEdit(dev, item) then dev.rows[item.id].base else item.rec.version
  {
  }

  lemma HeadItemOk(s: System, dev: Device)
    requires InboxOk(s, dev) && dev.inbox.Some? && dev.inbox.value.items != []
    ensures ItemOk(s.history, dev, dev.inbox.value.items[0])
  {
  }

  lemma PullItemCursor(s: System, dev: Device, now: nat)
    requires HistoryOk(s) && DevOk(s, dev)
    requires dev.inbox.Some? && dev.inbox.value.items != [] && dev.pending.None?
    ensures var page := dev.inbox.value;
      CursorOk(s, PullItem(dev.(inbox := Some(page.(items := page.items[1..]))), page.items[0], now))
  {
    hide LiveOk, SameRecord, EditBase, IndexOk, CacheOk, HistoryOk, PullItem, InboxOk;
    var page := dev.inbox.value;
    var item := page.items[0];
    var dev' := PullItem(dev.(inbox := Some(page.(items := page.items[1..]))), item, now);
    HeadItemOk(s, dev);
    PullItemEffect(dev.(inbox := Some(page.(items := page.items[1..]))), item, now);
    forall id | id in s.history && LatestSeq(s.history, id) <= dev'.cursor ensures Covered(s.history, dev'.rows, id) {
      assert Covered(s.history, dev.rows, id);
    }
  }

  lemma PullItemInbox(s: System, dev: Device, now: nat)
    requires HistoryOk(s) && DevOk(s, dev)
    requires dev.inbox.Some? && dev.inbox.value.items != [] && dev.pending.None?
    ensures var page := dev.inbox.value;
      InboxOk(s, PullItem(dev.(inbox := Some(page.(items := page.items[1..]))), page.items[0], now))
  {
    hide LiveOk, SameRecord, EditBase, IndexOk, CacheOk, HistoryOk, PullItem, CursorOk;
    var page := dev.inbox.value;
    var item, items := page.items[0], page.items[1..];
    var dev' := PullItem(dev.(inbox := Some(page.(items := items))), item, now);
    assert ItemOk(s.history, dev, item);
    PullItemEffect(dev.(inbox := Some(page.(items := items))), item, now);
    forall i | 0 <= i < |items| ensures ItemOk(s.history, dev', items[i]) {
      assert ItemOk(s.history, dev, page.items[i + 1]) && page.items[i + 1].id != item.id;
    }
    forall id | id in s.history && LatestSeq(s.history, id) <= page.nextSince
      ensures Covered(s.history, dev'.rows, id) || InItems(items, s.history, id)
    {
      if !Covered(s.history, dev.rows, id) {
        var i :| 0 <= i < |page.items| && Announces(page.items[i], s.history, id);
        if i > 0 {
          assert items[i - 1] == page.items[i];
        } else if id in dev.rows {
          assert RowOk(s.history, s.contents, id, dev.rows[id]);
        }
      }
    }
  }

  lemma AdvanceKeepsDevOk(s: System, dev: Device)
    requires DevOk(s, dev) && dev.inbox.Some? && dev.inbox.value.items == [] && dev.pending.None?
    ensures DevOk(s, dev.(cursor := dev.inbox.value.nextSince, inbox := None))
  {
    var dev' := dev.(cursor := dev.inbox.value.nextSince, inbox := None);
    forall id | id in s.history && LatestSeq(s.history, id) <= dev'.cursor ensures Covered(s.history, dev'.rows, id) {
    }
    assert RowsOk(s, dev') && IndexOk(dev') && CacheOk(s.contents, dev');
  }

  // ------------------------------------------------------------------ server writes --------

  /** The accepted write of a pending edit extends the document's history by its next version. */
  lemma AppliedEntryOk(s: System, d: DevId, id: DocId, row: Row)
    requires ServerOk(s) && RowOk(s.history, s.contents, id, row) && row.dirty
    requires PushReply(s.tables, id, row).1.Applied?
    ensures var (t, reply) := PushReply(s.tables, id, row);
      && Ver(s.history, id) == row.base && reply.rec.version == row.base + 1
      && reply.rec.blobId == row.blobId && reply.rec.blobSize == row.blobSize && reply.rec.deleted == row.deleted
      && (!row.deleted ==> reply.rec.encMeta == row.encMeta)
      && ChronicleOk(s.contents, t.lastSeq, id, Past(s.history, id) + [Entry(reply.rec, d)])
  {
    var (t, reply) := PushReply(s.tables, id, row);
    var es := Past(s.history, id);
    var es' := es + [Entry(reply.rec, d)];
    if id in s.history {
      TipInTable(s, id);
      assert ChronicleOk(s.contents, s.tables.lastSeq, id, es);
    }
    forall k | 0 <= k < |es'| ensures EntryOk(s.contents, t.lastSeq, id, es', k) {
      if k < |es| {
        assert EntryOk(s.contents, s.tables.lastSeq, id, es, k);
      } else if k > 0 {
        assert EntryOk(s.contents, s.tables.lastSeq, id, es, k - 1);
      }
    }
  }

  lemma SeqsStayDistinct(s: System, id: DocId, rec: Record)
    requires ServerOk(s) && rec.seqNo == s.tables.lastSeq + 1
    ensures DistinctSeqs(s.tables.docs[id := rec])
  {
    forall i | i in s.tables.docs ensures s.tables.docs[i].seqNo <= s.tables.lastSeq {
      TipInTable(s, i);
      assert ChronicleOk(s.contents, s.tables.lastSeq, i, s.history[i]);
      assert EntryOk(s.contents, s.tables.lastSeq, i, s.history[i], Ver(s.history, i) - 1);
    }
  }

  lemma CommitKeepsServerOk(s: System, d: DevId, id: DocId, row: Row)
    requires ServerOk(s) && RowOk(s.history, s.contents, id, row) && row.dirty && (row.deleted || row.blobId.Some?)
    ensures var (t, reply) := PushReply(s.tables, id, row);
      var u := Commit(s, d, id, t, reply);
      ServerOk(u) && Grows(s, u)
  {
    hide HistoryOk, EditBase, DistinctSeqs, ChronicleOk;
    var (t, reply) := PushReply(s.tables, id, row);
    var u := Commit(s, d, id, t, reply);
    if reply.Applied? {
      AppliedEntryOk(s, d, id, row);
      SeqsStayDistinct(s, id, reply.rec);
    }
    CommitHistoryOk(s, d, id, row);
  }

  lemma CommitHistoryOk(s: System, d: DevId, id: DocId, row: Row)
    requires ServerOk(s) && RowOk(s.history, s.contents, id, row) && row.dirty && (row.deleted || row.blobId.Some?)
    ensures var (t, reply) := PushReply(s.tables, id, row);
      var u := Commit(s, d, id, t, reply);
      HistoryOk(u) && Grows(s, u)
  {
    hide RowOk, HistoryOk, Grows;
    var (t, reply) := PushReply(s.tables, id, row);
    var u := Commit(s, d, id, t, reply);
    if reply.Applied? {
      AppliedEntryOk(s, d, id, row);
      OneMoreEntry(s, u, id, Entry(reply.rec, d));
    } else {
      NoMoreEntries(s, u);
    }
  }

  lemma OneMoreEntry(s: System, u: System, id: DocId, e: Entry)
    requires HistoryOk(s) && u.contents == s.contents && u.supply == s.supply
    requires u.tables.lastSeq == s.tables.lastSeq + 1 == e.rec.seqNo
    requires u.history == s.history[id := Past(s.history, id) + [e]] && u.tables.docs == s.tables.docs[id := e.rec]
    requires ChronicleOk(u.contents, u.tables.lastSeq, id, Past(s.history, id) + [e])
    ensures HistoryOk(u) && Grows(s, u)
  {
    hide ChronicleOk, Appended;
    forall i | i in u.history && i != id ensures ChronicleOk(u.contents, u.tables.lastSeq, i, u.history[i]) && Appended(s, u, i) {
      LaterSeqOk(s.contents, s.tables.lastSeq, u.tables.lastSeq, i, s.history[i]);
      SameHistoryAppended(s, u, i);
    }
    OneMoreAppended(s, u, id, e);
  }

  lemma NoMoreEntries(s: System, u: System)
    requires HistoryOk(s) && u.contents == s.contents && u.supply == s.supply && u.history == s.history
    requires s.tables.lastSeq <= u.tables.lastSeq && u.tables.docs == s.tables.docs
    ensures HistoryOk(u) && Grows(s, u)
  {
    hide ChronicleOk, Appended;
    forall i | i in u.history ensures ChronicleOk(u.contents, u.tables.lastSeq, i, u.history[i]) && Appended(s, u, i) {
      LaterSeqOk(s.contents, s.tables.lastSeq, u.tables.lastSeq, i, s.history[i]);
      SameHistoryAppended(s, u, i);
    }
  }

  lemma SameHistoryAppended(s: System, t: System, id: DocId)
    requires id in t.history && Past(s.history, id) == t.history[id]
    ensures Appended(s, t, id)
  {
  }

  lemma OneMoreAppended(s: System, t: System, id: DocId, e: Entry)
    requires id in t.history && t.history[id] == Past(s.history, id) + [e] && e.rec.seqNo > s.tables.lastSeq
    ensures Appended(s, t, id)
  {
  }

  lemma LaterSeqOk(c: map<BlobId, CipherBlob>, lastSeq: nat, lastSeq': nat, id: DocId, es: seq<Entry>)
    requires ChronicleOk(c, lastSeq, id, es) && lastSeq <= lastSeq'
    ensures ChronicleOk(c, lastSeq', id, es)
  {
    forall k | 0 <= k < |es| ensures EntryOk(c, lastSeq', id, es, k) {
      assert EntryOk(c, lastSeq, id, es, k);
    }
  }

  /** The device's half of an applied write: the row becomes the record it was pushed as. */
  lemma MarkPushedKeepsDevOk(s: System, d: DevId, dev: Device, id: DocId)
    requires ServerOk(s) && DevOk(s, dev) && dev.Idle() && CanPush(dev, id)
    requires PushReply(s.tables, id, dev.rows[id]).1.Applied?
    ensures var (t, reply) := PushReply(s.tables, id, dev.rows[id]);
      DevOk(Commit(s, d, id, t, reply), MarkPushed(dev, id, reply.rec))
  {
    hide HistoryOk, CursorOk, IndexOk, CacheOk, References, BlobsOk, DistinctSeqs, MarkPushed;
    var row := dev.rows[id];
    var (t, reply) := PushReply(s.tables, id, row);
    var u := Commit(s, d, id, t, reply);
    assert RowOk(s.history, s.contents, id, row);
    AppliedEntryOk(s, d, id, row);
    CommitKeepsServerOk(s, d, id, row);
    DevOkGrows(s, u, dev);
    assert u.history[id][row.base].rec == reply.rec;
    PushedIndexOk(s, dev, id, reply.rec);
    PushedDevOk(u, dev, id, reply.rec);
  }

  lemma PushedDevOk(u: System, dev: Device, id: DocId, rec: Record)
    requires HistoryOk(u) && DevOk(u, dev) && dev.Idle() && id in dev.rows
    requires rec.version == Ver(u.history, id) == dev.rows[id].base + 1 == dev.rows[id].version
    requires u.history[id][rec.version - 1].rec == rec
    requires rec.blobId == dev.rows[id].blobId && rec.blobSize == dev.rows[id].blobSize
    requires rec.deleted == dev.rows[id].deleted && (!rec.deleted ==> rec.encMeta == dev.rows[id].encMeta)
    requires IndexOk(MarkPushed(dev, id, rec))
    ensures DevOk(u, MarkPushed(dev, id, rec))
  {
    hide HistoryOk, CursorOk, CacheOk, IndexOk;
    var dev' := MarkPushed(dev, id, rec);
    assert RowOk(u.history, u.contents, id, dev.rows[id]);
    RowsChanged(u, dev, id, dev'.rows[id]);
    assert RowsOk(u, dev');
    PushedCursorOk(u, dev, id, rec);
    CacheRows(u.contents, dev, dev');
  }

  lemma PushedCursorOk(u: System, dev: Device, id: DocId, rec: Record)
    requires CursorOk(u, dev) && id in dev.rows && rec.version == Ver(u.history, id)
    ensures CursorOk(u, MarkPushed(dev, id, rec))
  {
    var dev' := MarkPushed(dev, id, rec);
    forall i | i in u.history && LatestSeq(u.history, i) <= dev'.cursor ensures Covered(u.history, dev'.rows, i) {
      assert Covered(u.history, dev.rows, i);
    }
  }

  lemma PushedIndexOk(s: System, dev: Device, id: DocId, rec: Record)
    requires IndexOk(dev) && id in dev.rows && RowOk(s.history, s.contents, id, dev.rows[id]) && dev.rows[id].dirty
    requires rec.version == dev.rows[id].base + 1 && rec.blobId == dev.rows[id].blobId
    requires rec.blobSize == dev.rows[id].blobSize && rec.deleted == dev.rows[id].deleted
    ensures IndexOk(MarkPushed(dev, id, rec))
  {
    var row := dev.rows[id];
    var dev' := MarkPushed(dev, id, rec);
    if row.deleted {
      RetainAbsent(dev.index, id);
      IndexRetained(dev, id, dev'.rows[id]);
    } else {
      EntryFound(dev, id, row);
      IndexReplaced(dev, id, dev'.rows[id], Summarise(id, dev'.rows[id]).value, dev'.index);
    }
  }

  // ------------------------------------------------------------------ new documents --------

  /** A new document: fresh ids, its blob cached, its first version still to be pushed. */
  lemma AddKeepsDevOk(s: System, d: DevId, dev: Device, plain: Bytes, salt: nat, fields: Fields, now: nat, nonce: nat,
                      thumb: Option<string>)
    requires ServerOk(s) && SupplyOk(s) && DevOk(s, dev) && dev.pending.None?
    requires forall id :: id in dev.rows ==> id < s.supply
    ensures var u := AddTo(s, d, dev, plain, salt, fields, now, nonce, thumb);
      ServerOk(u) && Grows(s, u) && DevOk(u, u.devices[d])
  {
    hide DevOk, HistoryOk, Grows, ServerOk, AddDocument;
    var u := AddTo(s, d, dev, plain, salt, fields, now, nonce, thumb);
    AddedServerOk(s, u, s.supply + 1);
    DevOkGrows(s, u, dev);
    var content := CipherBlob(s.supply, plain, salt);
    AddedDevOk(u, dev, s.supply, s.supply + 1, content, fields, now, nonce, thumb);
  }

  lemma AddedServerOk(s: System, u: System, b: BlobId)
    requires ServerOk(s) && u.history == s.history && u.tables == s.tables && s.supply <= u.supply
    requires b !in s.contents && b in u.contents && u.contents == s.contents[b := u.contents[b]]
    ensures ServerOk(u) && HistoryOk(s) && HistoryOk(u) && Grows(s, u)
  {
    hide ChronicleOk, DistinctSeqs, References;
    forall i | i in u.history ensures ChronicleOk(u.contents, u.tables.lastSeq, i, u.history[i]) {
      MoreContentsOk(s, u, i);
    }
  }

  lemma AddedDevOk(u: System, dev: Device, id: DocId, b: BlobId, content: CipherBlob, fields: Fields, now: nat, nonce: nat,
                   thumb: Option<string>)
    requires HistoryOk(u) && DevOk(u, dev) && dev.pending.None? && id !in dev.rows && id !in u.history
    requires b in u.contents && u.contents[b] == content && content.doc == id
    ensures DevOk(u, AddDocument(dev, id, b, content, fields, now, nonce, thumb))
  {
    var dev' := AddDocument(dev, id, b, content, fields, now, nonce, thumb);
    var row := dev'.rows[id];
    assert RowOk(u.history, u.contents, id, row);
    RowsChanged(u, dev, id, row);
    assert RowsOk(u, dev');
    forall x | x in dev.index ensures x.id != id {
      assert InIndex(dev.rows, x);
    }
    RetainAbsent(dev.index, id);
    IndexPushed(dev, id, row, Summarise(id, row).value);
    AddedCoverage(u, dev, dev', id, row);
    AddedCacheOk(u.contents, dev, dev', id, b);
  }

  lemma AddedCacheOk(c: map<BlobId, CipherBlob>, dev: Device, dev': Device, id: DocId, b: BlobId)
    requires CacheOk(c, dev) && b in c && id in dev'.rows && dev'.rows == dev.rows[id := dev'.rows[id]]
    requires b in dev'.cache && dev'.cache == dev.cache[b := dev'.cache[b]] && dev'.rows[id].blobId == Some(b)
    requires dev'.cache[b].content == c[b] && dev'.cache[b].size == c[b].Size()
    ensures CacheOk(c, dev')
  {
  }

  lemma MoreContentsOk(s: System, u: System, id: DocId)
    requires HistoryOk(s) && id in s.history && u.history == s.history && u.tables == s.tables
    requires forall b :: b in s.contents ==> b in u.contents && u.contents[b] == s.contents[b]
    ensures ChronicleOk(u.contents, u.tables.lastSeq, id, u.history[id])
  {
    var es := s.history[id];
    assert ChronicleOk(s.contents, s.tables.lastSeq, id, es);
    forall k | 0 <= k < |es| ensures EntryOk(u.contents, u.tables.lastSeq, id, es, k) {
      assert EntryOk(s.contents, s.tables.lastSeq, id, es, k);
    }
  }

  lemma AddedCoverage(u: System, dev: Device, dev': Device, id: DocId, row: Row)
    requires CursorOk(u, dev) && InboxOk(u, dev) && id !in dev.rows && id !in u.history
    requires dev'.rows == dev.rows[id := row] && dev'.cursor == dev.cursor && dev'.inbox == dev.inbox
    ensures CursorOk(u, dev') && InboxOk(u, dev')
  {
    forall i | i in u.history && LatestSeq(u.history, i) <= dev'.cursor ensures Covered(u.history, dev'.rows, i) {
      assert Covered(u.history, dev.rows, i);
    }
    if dev.inbox.Some? {
      var page := dev.inbox.value;
      forall i | 0 <= i < |page.items| ensures ItemOk(u.history, dev', page.items[i]) {
        assert ItemOk(u.history, dev, page.items[i]);
      }
      forall i | i in u.history && LatestSeq(u.history, i) <= page.nextSince
        ensures Covered(u.history, dev'.rows, i) || InItems(page.items, u.history, i)
      {
        assert Covered(u.history, dev.rows, i) || InItems(page.items, u.history, i);
      }
    }
  }
}
