/** Where a pending edit can be: in its row, in a conflict copy, or accepted by the server. */
module Edits {
  import opened Types
  import opened Server
  import opened Changes
  import opened Index
  import opened Device
  import opened System
  import opened Invariant
  import opened Preservation
  import opened Runs
  import opened Foreign

  type Rows = map<DocId, Row>
  type Contents = map<BlobId, CipherBlob>

  /** A change of a live document that has not been pushed. */
  predicate IsEdit(row: Row) {
    row.dirty && !row.deleted
  }

  ghost predicate IsCopyTitle(title: string, title': string, today: string) {
    title' == title + " (copia in conflitto " + today + ")"
  }

  /** Same user fields, under a title that says it is a copy. */
  ghost predicate CopiedMeta(m: DocMeta, m': DocMeta) {
    && (exists today :: IsCopyTitle(m.title, m'.title, today))
    && m'.tags == m.tags && m'.note == m.note && m'.mime == m.mime && m'.originalName == m.originalName
  }

  /** A blob and metadata that preserve the edit `row`: the same plaintext bytes under another key. */
  ghost predicate CopyOf(c: Contents, row: Row, blobId: Option<BlobId>, enc: EncMeta) {
    && row.blobId.Some? && row.blobId.value in c && blobId.Some? && blobId.value in c
    && c[blobId.value].plain == c[row.blobId.value].plain
    && CopiedMeta(row.encMeta.plain, enc.plain)
  }

  /** Row `k` is a conflict copy of the edit that no other device and no server knows yet. */
  ghost predicate CopyRow(c: Contents, h: History, rows: Rows, k: DocId, row: Row) {
    && k in rows && k !in h && NeverPushed(rows[k]) && rows[k].keepOffline == row.keepOffline
    && CopyOf(c, row, rows[k].blobId, rows[k].encMeta)
  }

  /** The server accepted the edit as the next version of its own document. */
  ghost predicate Accepted(h: History, id: DocId, row: Row) {
    && row.base < Ver(h, id)
    && !h[id][row.base].rec.deleted && h[id][row.base].rec.encMeta == row.encMeta && h[id][row.base].rec.blobId == row.blobId
  }

  /** The server accepted a conflict copy of the edit, as version 1 of document `k`. */
  ghost predicate CopyAccepted(c: Contents, h: History, k: DocId, row: Row) {
    0 < Ver(h, k) && CopyOf(c, row, h[k][0].rec.blobId, h[k][0].rec.encMeta)
  }

  /** Which edits of `rows0` were copied, and to which documents: new ones, each the copy of one edit. */
  type Copies = map<DocId, DocId>

  ghost predicate OneCopyEach(rows0: Rows, copies: Copies) {
    && (forall id :: id in copies ==> id in rows0 && IsEdit(rows0[id]) && copies[id] !in rows0)
    && (forall i, j :: i in copies && j in copies && copies[i] == copies[j] ==> i == j)
  }

  ghost predicate Held(s: System, rows: Rows, id: DocId, row: Row, copies: Copies) {
    if id in copies then CopyRow(s.contents, s.history, rows, copies[id], row) else id in rows && rows[id] == row
  }

  ghost predicate Safe(s: System, rows: Rows, id: DocId, row: Row, copies: Copies) {
    Held(s, rows, id, row, copies) || OnServer(s, id, row, copies)
  }

  ghost predicate OnServer(s: System, id: DocId, row: Row, copies: Copies) {
    if id in copies then CopyAccepted(s.contents, s.history, copies[id], row) else Accepted(s.history, id, row)
  }

  /** Every edit of `rows0` is still in `rows`, as it was or as its own new copy. */
  ghost predicate AllHeld(s: System, rows: Rows, rows0: Rows, copies: Copies) {
    && OneCopyEach(rows0, copies)
    && (forall id :: id in rows0 && IsEdit(rows0[id]) ==> Held(s, rows, id, rows0[id], copies))
  }

  /** Every edit of `rows0` is held by the device or accepted by the server, as itself or as its copy. */
  ghost predicate AllSafe(s: System, rows: Rows, rows0: Rows, copies: Copies) {
    && OneCopyEach(rows0, copies)
    && (forall id :: id in rows0 && IsEdit(rows0[id]) ==> Safe(s, rows, id, rows0[id], copies))
  }

  /** The server has every edit of `rows0`, under its own id or as a document that is its copy alone. */
  ghost predicate AllOnServer(s: System, rows0: Rows, copies: Copies) {
    && OneCopyEach(rows0, copies)
    && (forall id :: id in rows0 && IsEdit(rows0[id]) ==> OnServer(s, id, rows0[id], copies))
  }

  // ------------------------------------------------------------------ others act -----------

  ghost predicate UnknownStay(s: System, t: System, rows: Rows) {
    forall k :: k in rows && k !in s.history ==> k !in t.history
  }

  lemma HeldLater(s: System, t: System, rows: Rows, id: DocId, row: Row, copies: Copies)
    requires Grows(s, t) && UnknownStay(s, t, rows) && Held(s, rows, id, row, copies)
    ensures Held(t, rows, id, row, copies)
  {
  }

  lemma OnServerLater(s: System, t: System, id: DocId, row: Row, copies: Copies)
    requires Grows(s, t) && OnServer(s, id, row, copies)
    ensures OnServer(t, id, row, copies)
  {
    assert Appended(s, t, if id in copies then copies[id] else id);
  }

  lemma AllSafeLater(s: System, t: System, rows: Rows, rows0: Rows, copies: Copies)
    requires Grows(s, t) && UnknownStay(s, t, rows) && AllSafe(s, rows, rows0, copies)
    ensures AllSafe(t, rows, rows0, copies)
  {
    hide Held, OnServer, Grows, UnknownStay, OneCopyEach;
    forall id | id in rows0 && IsEdit(rows0[id]) ensures Safe(t, rows, id, rows0[id], copies) {
      assert Safe(s, rows, id, rows0[id], copies);
      if Held(s, rows, id, rows0[id], copies) {
        HeldLater(s, t, rows, id, rows0[id], copies);
      } else {
        OnServerLater(s, t, id, rows0[id], copies);
      }
    }
  }

  lemma AllHeldLater(s: System, t: System, rows: Rows, rows0: Rows, copies: Copies)
    requires Grows(s, t) && UnknownStay(s, t, rows) && AllHeld(s, rows, rows0, copies)
    ensures AllHeld(t, rows, rows0, copies)
  {
    hide Held, Grows, UnknownStay, OneCopyEach;
    forall id | id in rows0 && IsEdit(rows0[id]) ensures Held(t, rows, id, rows0[id], copies) {
      HeldLater(s, t, rows, id, rows0[id], copies);
    }
  }

  // ------------------------------------------------------------------ the device acts ------

  /** A row that is no edit in place is overwritten: the edits stay where they are. */
  lemma OverwriteHolds(s: System, rows: Rows, rows0: Rows, copies: Copies, id: DocId, row': Row)
    requires AllHeld(s, rows, rows0, copies) && id in s.history
    requires id in rows0 && IsEdit(rows0[id]) ==> id in copies || !(id in rows && rows[id] == rows0[id])
    ensures AllHeld(s, rows[id := row'], rows0, copies)
  {
    hide OneCopyEach, CopyOf;
    forall i | i in rows0 && IsEdit(rows0[i]) ensures Held(s, rows[id := row'], i, rows0[i], copies) {
      assert Held(s, rows, i, rows0[i], copies);
    }
  }

  /** An edit is overwritten and its copy comes in. */
  lemma CopyHolds(s: System, t: System, rows: Rows, rows0: Rows, copies: Copies, id: DocId, row': Row, k: DocId, copy: Row)
    requires AllHeld(s, rows, rows0, copies) && id in s.history && rows0.Keys <= rows.Keys
    requires Grows(s, t) && UnknownStay(s, t, rows[id := row'])
    requires id in rows0 && IsEdit(rows0[id]) && k !in rows && k != id
    requires CopyRow(t.contents, t.history, rows[id := row'][k := copy], k, rows0[id])
    ensures AllHeld(t, rows[id := row'][k := copy], rows0, copies[id := k])
  {
    hide CopyOf;
    var rows', copies' := rows[id := row'][k := copy], copies[id := k];
    forall i | i in copies && i != id ensures copies[i] in rows && copies[i] != id {
      assert Held(s, rows, i, rows0[i], copies);
    }
    forall i | i in rows0 && IsEdit(rows0[i]) ensures Held(t, rows', i, rows0[i], copies') {
      assert Held(s, rows, i, rows0[i], copies);
      if i != id && i in copies {
        CopyRowLater(s, t, rows, rows', copies[i], rows0[i]);
      }
    }
  }

  lemma CopyRowLater(s: System, t: System, rows: Rows, rows': Rows, k: DocId, row: Row)
    requires Grows(s, t) && CopyRow(s.contents, s.history, rows, k, row) && k in rows' && rows'[k] == rows[k] && k !in t.history
    ensures CopyRow(t.contents, t.history, rows', k, row)
  {
  }

  /** The copy `create_conflict_copy` adds preserves the pending edit. */
  lemma CopyPreserves(s: System, p: Pending, id: DocId, b: BlobId, today: string, salt: nat, now: nat, nonce: nat,
                      thumb: Option<string>)
    requires PendingOk(s.contents, p) && b !in s.contents
    ensures var content := CipherBlob(id, s.contents[p.row.blobId.value].plain, salt);
      var row := NewRow(id, b, content, CopyFields(p, today), now, nonce, thumb);
      NeverPushed(row) && row.keepOffline == p.row.keepOffline && CopyOf(s.contents[b := content], p.row, row.blobId, row.encMeta)
  {
    assert IsCopyTitle(p.row.encMeta.plain.title, CopyFields(p, today).title, today);
  }

  /** A row was accepted: whatever edit it held, the server has it now. */
  lemma PushKeepsSafe(s: System, t: System, rows: Rows, rows0: Rows, copies: Copies, k: DocId, row': Row, rec: Record, me: DevId)
    requires AllSafe(s, rows, rows0, copies) && Grows(s, t) && k in rows && RowOk(s.history, s.contents, k, rows[k])
    requires t.history == s.history[k := Past(s.history, k) + [Entry(rec, me)]]
    requires Ver(s.history, k) == rows[k].base
    requires rec.blobId == rows[k].blobId && rec.deleted == rows[k].deleted && (!rec.deleted ==> rec.encMeta == rows[k].encMeta)
    ensures AllSafe(t, rows[k := row'], rows0, copies)
  {
    hide OneCopyEach, RowOk;
    forall id | id in rows0 && IsEdit(rows0[id]) ensures Safe(t, rows[k := row'], id, rows0[id], copies) {
      assert Safe(s, rows, id, rows0[id], copies);
      PushedEditSafe(s, t, rows, id, rows0[id], copies, k, row', rec, me);
    }
  }

  lemma PushedEditSafe(s: System, t: System, rows: Rows, id: DocId, row: Row, copies: Copies, k: DocId, row': Row, rec: Record,
                       me: DevId)
    requires Safe(s, rows, id, row, copies) && IsEdit(row) && Grows(s, t) && k in rows
    requires t.history == s.history[k := Past(s.history, k) + [Entry(rec, me)]]
    requires Ver(s.history, k) == rows[k].base
    requires rec.blobId == rows[k].blobId && rec.deleted == rows[k].deleted && (!rec.deleted ==> rec.encMeta == rows[k].encMeta)
    ensures Safe(t, rows[k := row'], id, row, copies)
  {
    hide CopyOf;
    if OnServer(s, id, row, copies) {
      OnServerLater(s, t, id, row, copies);
    } else if id in copies {
      if copies[id] == k {
        assert t.history[k][0] == Entry(rec, me);
        CopyNowAccepted(s, t, rows, k, row);
      } else {
        CopyRowLater(s, t, rows, rows[k := row'], copies[id], row);
      }
    } else if id == k {
      assert t.history[k][row.base] == Entry(rec, me);
    }
  }

  lemma CopyNowAccepted(s: System, t: System, rows: Rows, k: DocId, row: Row)
    requires Grows(s, t) && CopyRow(s.contents, s.history, rows, k, row) && 0 < Ver(t.history, k)
    requires t.history[k][0].rec.blobId == rows[k].blobId && t.history[k][0].rec.encMeta == rows[k].encMeta
    ensures CopyAccepted(t.contents, t.history, k, row)
  {
  }

  // ------------------------------------------------------------------ one pull -------------

  /** A dirty row is a pending change of `rows0` that nothing has touched, or a new document; the
      documents of `rows0` that the server does not know are as they were. */
  ghost predicate DirtyOrigin(h: History, rows: Rows, rows0: Rows) {
    && (forall id :: id in rows && rows[id].dirty ==> (id in rows0 && rows[id] == rows0[id]) || (id !in h && NeverPushed(rows[id])))
    && (forall id :: id in rows0 && id !in h ==> id in rows && rows[id] == rows0[id])
  }

  /** What taking one item does to the rows. */
  ghost predicate Took(rows: Rows, rows': Rows, item: Item, h: History) {
    && (forall id :: id in rows && id != item.id ==> id in rows' && rows'[id] == rows[id])
    && item.id in rows'
    && (if item.id in rows && rows[item.id].dirty && item.rec.version <= rows[item.id].base
        then rows'[item.id] == rows[item.id]
        else rows'[item.id].base == item.rec.version && !rows'[item.id].dirty)
    && (forall id :: id in rows' && id !in rows && id != item.id ==> id !in h && NeverPushed(rows'[id]))
  }

  /** The rows against a history `h` while the last page, read in `h`, is being taken in. */
  ghost predicate Tracked(h: History, rows: Rows, items: seq<Item>) {
    && (forall i :: 0 <= i < |items| ==> Announces(items[i], h, items[i].id))
    && (forall id :: id in h ==> Covered(h, rows, id) || InItems(items, h, id))
    && (forall id :: id in rows ==> rows[id].base <= Ver(h, id))
  }

  lemma TrackedStep(h: History, rows: Rows, rows': Rows, items: seq<Item>, h': History)
    requires Tracked(h, rows, items) && items != [] && Took(rows, rows', items[0], h')
    requires forall id :: id in h ==> id in h'
    ensures Tracked(h, rows', items[1..])
  {
    var item, rest := items[0], items[1..];
    assert Announces(items[0], h, item.id);
    forall i | 0 <= i < |rest| ensures Announces(rest[i], h, rest[i].id) {
      assert Announces(items[i + 1], h, items[i + 1].id);
    }
    forall id | id in h ensures Covered(h, rows', id) || InItems(rest, h, id) {
      if id != item.id && !Covered(h, rows, id) {
        var i :| 0 <= i < |items| && Announces(items[i], h, id);
        assert rest[i - 1] == items[i];
      }
    }
  }

  /** Every row is based on the version the history has, and no document is missing. */
  ghost predicate AtSnapshot(h: History, rows: Rows) {
    && (forall id :: id in rows ==> rows[id].base == Ver(h, id))
    && (forall id :: id in h ==> id in rows)
  }

  lemma TrackedEnd(h: History, rows: Rows)
    requires Tracked(h, rows, [])
    ensures AtSnapshot(h, rows)
  {
    forall id | id in rows ensures rows[id].base == Ver(h, id) {
      if id in h {
        assert Covered(h, rows, id) || InItems([], h, id);
      }
    }
    forall id | id in h ensures id in rows {
      assert Covered(h, rows, id) || InItems([], h, id);
    }
  }

  // ------------------------------------------------------------------ counting conflicts ---

  /** The rows that were dirty and no longer are. */
  ghost function Settled(rows0: Rows, rows: Rows): set<DocId> {
    set id | id in rows0 && rows0[id].dirty && id in rows && !rows[id].dirty
  }

  lemma SettledStep(h: History, rows0: Rows, rows: Rows, rows': Rows, item: Item, h': History, conflict: bool)
    requires DirtyOrigin(h, rows, rows0) && item.id in h && Took(rows, rows', item, h')
    requires rows0.Keys <= rows.Keys
    requires conflict <==> item.id in rows && rows[item.id].dirty && item.rec.version > rows[item.id].base
    ensures |Settled(rows0, rows')| == |Settled(rows0, rows)| + if conflict then 1 else 0
  {
    if conflict {
      assert Settled(rows0, rows') == Settled(rows0, rows) + {item.id};
    } else {
      assert Settled(rows0, rows') == Settled(rows0, rows);
    }
  }
}
