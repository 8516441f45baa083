/** What a push keeps, and what it can lose to others. */
module Pushing {
  import opened Types
  import opened Server
  import opened Changes
  import opened Index
  import opened Device
  import opened System
  import opened Invariant
  import opened Preservation
  import opened Runs
  import opened Foreign
  import opened Edits
  import opened Others
  import opened Obstacles

  /** What pushing makes of a row. */
  predicate IsPushed(row: Row, row': Row) {
    && !row'.dirty && row'.base == row.base + 1
    && row'.keepOffline == row.keepOffline && row'.deleted == row.deleted && row'.blobId == row.blobId
    && (row.deleted ==> row.base > 0)
  }

  /** In its time at the server, `me` wrote no document but `id`. */
  ghost predicate OthersElsewhere(h: History, h': History, id: DocId, me: DevId) {
    forall i :: i in h' && i != id ==> OthersWrote(h', i, Ver(h, i), me)
  }

  /** The server, which knew the document, is past the version the row is based on, and not because
      of what `me` did since `h`. */
  ghost predicate OvertakenBy(h: History, h': History, id: DocId, row: Row, me: DevId) {
    id in h && row.base < Ver(h', id) && OthersWrote(h', id, Ver(h, id), me)
  }

  lemma UploadFacts(trace: seq<Event>, s: System, me: DevId, id: DocId)
    requires s == Run(trace) && me in s.devices && id in s.devices[me].rows && NeverPushed(s.devices[me].rows[id])
    ensures var dev := s.devices[me];
      var b := dev.rows[id].blobId.value;
      && CanUpload(dev, id) && b in dev.cache
      && (b in s.tables.blobs ==> s.tables.blobs[b].content == dev.cache[b].content)
  {
    RunKeepsInv(trace);
  }

  /** What decides the answer to a push, in every reachable state. */
  lemma AnswerDecided(trace: seq<Event>, s: System, me: DevId, id: DocId)
    requires s == Run(trace) && me in s.devices && CanPush(s.devices[me], id)
    ensures var row := s.devices[me].rows[id];
      var there := row.deleted || row.blobId.value in s.tables.blobs;
      var reply := PushReply(s.tables, id, row).1;
      && (reply.Applied? <==> there && row.base == Ver(s.history, id) && (row.deleted ==> row.base > 0))
      && (reply.VersionMismatch? <==> there && row.base < Ver(s.history, id))
      && (reply.NotFound? || reply.BlobNotFound? <==> Refused(s, me, id))
  {
    hide Run, Inv, RowOk, LiveOk;
    PushAnswer(trace, s, me, id);
    ServerDoc(trace, s, id);
  }

  lemma OthersSafe(s: System, t: System, rows: Rows, rows0: Rows, copies: Copies, id: DocId, me: DevId)
    requires OnlyOthers(s, t, rows, me) && AllSafe(s, rows, rows0, copies)
    ensures Grows(s, t) && AllSafe(t, rows, rows0, copies) && OthersElsewhere(s.history, t.history, id, me)
    ensures UnknownStay(s, t, rows - {id})
  {
    hide Safe, Grows, OthersWrote;
    AllSafeLater(s, t, rows, rows0, copies);
  }

  lemma LiveStart(s: System, t: System, id: DocId)
    requires Grows(s, t)
    ensures id in s.history ==> id in t.history
  {
  }

  lemma AfterPush(start: System, s: System, t: System, rows: Rows, rows': Rows, rows0: Rows, copies: Copies, id: DocId, reply: Reply,
                  me: DevId)
    requires OnlyOthers(start, s, rows, me) && AllSafe(s, rows, rows0, copies) && Grows(s, t)
    requires id in rows && RowOk(s.history, s.contents, id, rows[id])
    requires t.history == if reply.Applied? then s.history[id := Past(s.history, id) + [Entry(reply.rec, me)]] else s.history
    requires reply.Applied? ==> Writes(reply.rec, rows[id]) && rows[id].base == Ver(s.history, id)
    requires reply.VersionMismatch? ==> rows[id].base < Ver(s.history, id)
    requires rows' == rows || (reply.Applied? && id in rows' && rows' == rows[id := rows'[id]])
    ensures Grows(start, t) && AllSafe(t, rows', rows0, copies) && OthersElsewhere(start.history, t.history, id, me)
    ensures UnknownStay(start, t, rows - {id})
    ensures reply.VersionMismatch? ==> OvertakenBy(start.history, t.history, id, rows[id], me)
  {
    hide Grows, AllSafe, RowOk;
    GrowsTransitive(start, s, t);
    LiveStart(start, s, id);
    if reply.Applied? {
      PushKeepsSafe(s, t, rows, rows0, copies, id, rows'[id], reply.rec, me);
      assert rows[id := rows'[id]] == rows';
    } else {
      assert UnknownStay(s, t, rows);
      AllSafeLater(s, t, rows, rows0, copies);
    }
  }

  /** After `h`, the next version of the document was written by somebody else. */
  ghost predicate Beaten(h: History, h': History, id: DocId, me: DevId) {
    Ver(h, id) < Ver(h', id) && h'[id][Ver(h, id)].writer != me
  }

  /** No pending deletion is of a document the server never knew. */
  ghost predicate NoOrphans(h: History, rows: Rows) {
    forall id :: id in rows && rows[id].dirty && rows[id].deleted ==> id in h
  }

  /** What the server does not know of the deletions in `rows` it did not know before. */
  ghost predicate DeletionsUnknown(h0: History, h: History, rows: Rows) {
    forall id :: id in rows && rows[id].dirty && rows[id].deleted && id !in h0 ==> id !in h
  }

  predicate AnyDirty(rows: Rows, but: set<DocId>) {
    exists id :: id in rows && rows[id].dirty && id !in but
  }

  /** A dirty row that is still to be pushed: others may have written the document, `me` has not. */
  ghost predicate ToPush(h0: History, h: History, id: DocId, was: Row, row: Row, me: DevId) {
    && row == was && row.dirty && OthersWrote(h, id, Ver(h0, id), me)
    && (row.deleted && id !in h0 ==> id !in h)
  }

  /** A row that is done: it was clean, or the server accepted it, or somebody else was faster. */
  ghost predicate Handled(h0: History, h: History, id: DocId, was: Row, row: Row, me: DevId) {
    && (row == was || (was.dirty && IsPushed(was, row)))
    && (row.dirty ==> Beaten(h0, h, id, me))
    && (was.dirty && was.deleted ==> id in h0)
  }

  /** How far a push of the dirty rows has come; `h0` is the history when the last page was read. */
  ghost predicate PushProgress(h0: History, h: History, was: Rows, rows: Rows, todo: set<DocId>, me: DevId) {
    && rows.Keys == was.Keys && todo <= rows.Keys
    && (forall id :: id in rows ==>
          if id in todo then ToPush(h0, h, id, was[id], rows[id], me) else Handled(h0, h, id, was[id], rows[id], me))
  }

  lemma SameDocuments(h0: History, h: History, was: Rows, rows: Rows, me: DevId)
    requires PushProgress(h0, h, was, rows, {}, me)
    ensures rows.Keys == was.Keys
  {
  }

  /** All dirty rows, each once, the oldest change first. */
  ghost predicate OldestChangeFirst(rows: Rows, ids: seq<DocId>) {
    && (forall id :: id in ids <==> id in rows && rows[id].dirty)
    && (forall i, j :: 0 <= i < j < |ids| ==> ids[i] != ids[j] && rows[ids[i]].updatedAt <= rows[ids[j]].updatedAt)
  }

  lemma FirstComesFirst(rows: Rows, ids: seq<DocId>)
    requires forall id :: id in ids <==> id in rows && rows[id].dirty
    requires forall i, j :: 0 <= i < j < |ids| ==> ids[i] != ids[j] && rows[ids[i]].updatedAt <= rows[ids[j]].updatedAt
    ensures OldestChangeFirst(rows, ids)
  {
  }

  function IdsOf(ids: seq<DocId>): set<DocId> {
    set id | id in ids
  }

  lemma IdsStep(ids: seq<DocId>, i: nat)
    requires i < |ids| && forall j, k :: 0 <= j < k < |ids| ==> ids[j] != ids[k]
    ensures ids[i] in IdsOf(ids[i..]) && IdsOf(ids[i..]) - {ids[i]} == IdsOf(ids[i + 1..])
  {
    assert ids[i..] == [ids[i]] + ids[i + 1..];
  }

  lemma IdsEnd(ids: seq<DocId>)
    ensures IdsOf(ids[|ids|..]) == {}
  {
  }

  lemma PushingStarts(seen: System, s: System, rows: Rows, ids: seq<DocId>, me: DevId)
    requires OnlyOthers(seen, s, map[], me) && DeletionsUnknown(seen.history, s.history, rows)
    requires forall id :: id in ids <==> id in rows && rows[id].dirty
    ensures Grows(seen, s) && PushProgress(seen.history, s.history, rows, rows, IdsOf(ids[0..]), me)
    ensures Settled(rows, rows) == {} && !AnyDirty(rows, IdsOf(ids[0..]))
  {
    hide Grows;
    assert ids[0..] == ids;
    forall id | id in ids ensures OthersWrote(s.history, id, Ver(seen.history, id), me) {
      assert id in s.history || Ver(s.history, id) == 0;
    }
  }

  lemma DirtyRowsPush(trace: seq<Event>, s: System, seen: System, was: Rows, me: DevId, todo: set<DocId>, id: DocId)
    requires s == Run(trace) && me in s.devices && id in todo
    requires PushProgress(seen.history, s.history, was, s.devices[me].rows, todo, me)
    ensures CanPush(s.devices[me], id) && s.devices[me].rows[id] == was[id] && was[id].dirty
  {
    RunKeepsInv(trace);
    assert RowOk(s.history, s.contents, id, s.devices[me].rows[id]);
  }

  lemma PushingStep(seen: System, s: System, t: System, was: Rows, rows: Rows, rows': Rows, todo: set<DocId>, id: DocId,
                    applied: bool, me: DevId)
    requires PushProgress(seen.history, s.history, was, rows, todo, me) && id in todo && Grows(s, t) && Grows(seen, s)
    requires AtSnapshot(seen.history, was) && OthersElsewhere(s.history, t.history, id, me) && UnknownStay(s, t, rows - {id})
    requires applied ==> id in rows' && rows' == rows[id := rows'[id]] && IsPushed(rows[id], rows'[id])
    requires !applied ==> rows' == rows && OvertakenBy(s.history, t.history, id, rows[id], me)
    ensures PushProgress(seen.history, t.history, was, rows', todo - {id}, me)
    ensures |Settled(was, rows')| == |Settled(was, rows)| + if applied then 1 else 0
    ensures AnyDirty(rows', todo - {id}) <==> AnyDirty(rows, todo) || !applied
  {
    hide Grows, ToPush, Handled, IsPushed, OvertakenBy, OthersElsewhere, AtSnapshot, UnknownStay;
    forall i | i in rows && i != id
      ensures i in todo ==> ToPush(seen.history, t.history, i, was[i], rows[i], me)
      ensures i !in todo ==> Handled(seen.history, t.history, i, was[i], rows[i], me)
    {
      OtherRowPushing(seen, s, t, rows, id, i, was[i], me);
    }
    RowHandled(seen, s, t, was, rows, rows'[id], id, applied, me);
    SettledOne(was, rows, rows', todo, id, applied);
  }

  lemma OtherRowPushing(seen: System, s: System, t: System, rows: Rows, id: DocId, i: DocId, was: Row, me: DevId)
    requires Grows(seen, s) && Grows(s, t) && i in rows && i != id
    requires OthersElsewhere(s.history, t.history, id, me) && UnknownStay(s, t, rows - {id})
    ensures ToPush(seen.history, s.history, i, was, rows[i], me) ==> ToPush(seen.history, t.history, i, was, rows[i], me)
    ensures Handled(seen.history, s.history, i, was, rows[i], me) ==> Handled(seen.history, t.history, i, was, rows[i], me)
  {
    hide Grows, IsPushed;
    if OthersWrote(s.history, i, Ver(seen.history, i), me) {
      StillOthers(seen, s, t, i, me);
    }
    if Beaten(seen.history, s.history, i, me) {
      StillBeaten(seen, s, t, i, me);
    }
    assert i in rows - {id};
  }

  lemma RowHandled(seen: System, s: System, t: System, was: Rows, rows: Rows, row': Row, id: DocId, applied: bool, me: DevId)
    requires Grows(seen, s) && Grows(s, t) && AtSnapshot(seen.history, was) && id in was && id in rows
    requires ToPush(seen.history, s.history, id, was[id], rows[id], me)
    requires applied ==> IsPushed(rows[id], row')
    requires !applied ==> row' == rows[id] && OvertakenBy(s.history, t.history, id, rows[id], me)
    ensures Handled(seen.history, t.history, id, was[id], row', me) && rows[id] == was[id] && was[id].dirty
    ensures applied <==> !row'.dirty
  {
    hide Grows, OthersWrote;
    if !applied {
      NowBeaten(seen, s, t, was, id, me);
    }
  }

  lemma SettledOne(was: Rows, rows: Rows, rows': Rows, todo: set<DocId>, id: DocId, applied: bool)
    requires id in rows && id in rows' && rows' == rows[id := rows'[id]] && rows.Keys == was.Keys && id in todo
    requires rows[id] == was[id] && was[id].dirty && (applied <==> !rows'[id].dirty)
    ensures |Settled(was, rows')| == |Settled(was, rows)| + if applied then 1 else 0
    ensures AnyDirty(rows', todo - {id}) <==> AnyDirty(rows, todo) || !applied
  {
    if applied {
      assert Settled(was, rows') == Settled(was, rows) + {id};
    } else {
      assert Settled(was, rows') == Settled(was, rows);
    }
    if AnyDirty(rows, todo) {
      var i :| i in rows && rows[i].dirty && i !in todo;
      assert rows'[i].dirty && i !in todo - {id};
    }
  }

  lemma StillOthers(seen: System, s: System, t: System, id: DocId, me: DevId)
    requires Grows(seen, s) && Grows(s, t) && OthersWrote(s.history, id, Ver(seen.history, id), me)
    requires id in t.history ==> OthersWrote(t.history, id, Ver(s.history, id), me)
    ensures OthersWrote(t.history, id, Ver(seen.history, id), me)
  {
    if id in t.history {
      assert Appended(s, t, id);
    }
  }

  lemma StillBeaten(seen: System, s: System, t: System, id: DocId, me: DevId)
    requires Grows(s, t) && Beaten(seen.history, s.history, id, me)
    ensures Beaten(seen.history, t.history, id, me)
  {
    assert Appended(s, t, id);
  }

  lemma NowBeaten(seen: System, s: System, t: System, was: Rows, id: DocId, me: DevId)
    requires Grows(seen, s) && Grows(s, t) && OthersWrote(s.history, id, Ver(seen.history, id), me)
    requires AtSnapshot(seen.history, was) && id in was && OvertakenBy(s.history, t.history, id, was[id], me)
    ensures Beaten(seen.history, t.history, id, me) && id in s.history
  {
    StillOthers(seen, s, t, id, me);
  }

  lemma ReadyAtSnapshot(trace: seq<Event>, s: System, rows: Rows, id: DocId)
    requires s == Run(trace) && AtSnapshot(s.history, rows) && NoOrphans(s.history, rows) && id in rows && rows[id].dirty
    ensures PushReady(s.history, id, rows[id])
  {
    RunKeepsInv(trace);
    assert id in s.history ==> ChronicleOk(s.contents, s.tables.lastSeq, id, s.history[id]);
  }

  lemma SnapshotStep(h: History, h': History, rows: Rows, rows': Rows, id: DocId)
    requires AtSnapshot(h, rows) && NoOrphans(h, rows) && id in rows' && rows' == rows[id := rows'[id]]
    requires id in rows && IsPushed(rows[id], rows'[id])
    requires id in h' && h' == h[id := h'[id]] && rows'[id].base == Ver(h', id)
    ensures AtSnapshot(h', rows') && NoOrphans(h', rows')
  {
  }
}
