/** The invariant holds after every run, and what follows for whole runs. */
module Runs {
  import opened Types
  import opened Server
  import opened Changes
  import opened Index
  import opened Device
  import opened System
  import opened Invariant
  import opened Preservation

  function RowsOf(s: System, d: DevId): map<DocId, Row> {
    if d in s.devices then s.devices[d].rows else map[]
  }

  /** Where the documents of a device may come from: it had them, the server has them, or they
      are new. */
  ghost predicate RowsTraced(s: System, t: System, d: DevId, rows: map<DocId, Row>) {
    forall id :: id in rows ==> id < t.supply && (id in RowsOf(s, d) || id in t.history || id >= s.supply)
  }

  ghost predicate LogBounded(t: System) {
    && OneBlobEach(t.contents, t.supply)
    && (forall id :: id in t.history ==> id < t.supply)
    && (forall b :: b in t.contents ==> b < t.supply)
  }

  /** One device changed, possibly together with the server. */
  lemma OneDeviceChanged(s: System, t: System, d: DevId, dev': Device)
    requires Inv(s) && Grows(s, t) && ServerOk(t) && DevOk(t, dev') && t.devices == s.devices[d := dev']
    requires LogBounded(t) && RowsTraced(s, t, d, dev'.rows)
    ensures Inv(t)
  {
    hide DevOk, HistoryOk, SupplyOk, OwnersOk;
    SupplyKept(s, t, d, dev');
    OwnersKept(s, t, d, dev');
    forall e | e in t.devices ensures DevOk(t, t.devices[e]) {
      if e != d {
        DevOkGrows(s, t, s.devices[e]);
      }
    }
  }

  lemma SupplyKept(s: System, t: System, d: DevId, dev': Device)
    requires SupplyOk(s) && Grows(s, t) && t.devices == s.devices[d := dev']
    requires LogBounded(t) && RowsTraced(s, t, d, dev'.rows)
    ensures SupplyOk(t)
  {
  }

  lemma OwnersKept(s: System, t: System, d: DevId, dev': Device)
    requires SupplyOk(s) && OwnersOk(s) && Grows(s, t) && t.devices == s.devices[d := dev']
    requires RowsTraced(s, t, d, dev'.rows)
    ensures OwnersOk(t)
  {
  }

  lemma ServerChanged(s: System, t: System)
    requires Inv(s) && Grows(s, t) && ServerOk(t) && t.devices == s.devices && LogBounded(t)
    ensures Inv(t)
  {
    hide DevOk, HistoryOk;
    forall e | e in t.devices ensures DevOk(t, t.devices[e]) {
      DevOkGrows(s, t, s.devices[e]);
    }
  }

  lemma SameServer(s: System, d: DevId, dev': Device)
    requires Inv(s) && DevOk(s, dev')
    requires RowsTraced(s, s, d, dev'.rows)
    ensures Inv(With(s, d, dev')) && Grows(s, With(s, d, dev'))
  {
    hide DevOk, HistoryOk, OwnersOk;
    var t := With(s, d, dev');
    assert HistoryOk(t) && ServerOk(t) by {
      SameTablesHistoryOk(s, t);
    }
    DevOkGrows(s, t, dev');
    OneDeviceChanged(s, t, d, dev');
  }

  lemma SameTablesHistoryOk(s: System, t: System)
    requires HistoryOk(s) && t.tables == s.tables && t.history == s.history && t.contents == s.contents
    ensures HistoryOk(t)
  {
  }

  lemma LocalKeepsInv(s: System, d: DevId, a: Action)
    requires Inv(s) && d in s.devices && (a.Edit? || a.Remove? || a.Keep?)
    ensures Inv(Do(s, d, a)) && Grows(s, Do(s, d, a))
  {
    hide DevOk, HistoryOk, OwnersOk, Grows;
    var dev := s.devices[d];
    GrowsReflexive(s);
    if dev.Idle() {
      match a
      case Edit(id, title, tags, note, now, nonce) =>
        var r := EditDocument(dev, id, title, tags, note, now, nonce);
        if r.Some? {
          EditKeepsDevOk(s, dev, id, title, tags, note, now, nonce);
          SameServer(s, d, r.value);
        }
      case Remove(id, now, nonce) =>
        var r := RemoveDocument(dev, id, now, nonce);
        if r.Some? {
          RemoveKeepsDevOk(s, dev, id, now, nonce);
          SameServer(s, d, r.value);
        }
      case Keep(id, keep) =>
        if id in dev.rows {
          KeepKeepsDevOk(s, dev, id, keep);
          SameServer(s, d, KeepDocument(dev, id, keep).value);
        }
      case _ =>
    }
  }

  lemma GrowsReflexive(s: System)
    ensures Grows(s, s)
  {
  }

  lemma FetchKeepsInv(s: System, d: DevId, limit: nat, page: Page)
    requires Inv(s)
    ensures Inv(DoFetch(s, d, limit, page)) && Grows(s, DoFetch(s, d, limit, page))
  {
    hide DevOk, HistoryOk, OwnersOk, Grows;
    GrowsReflexive(s);
    if DoFetch(s, d, limit, page) != s {
      FetchKeepsDevOk(s, s.devices[d], limit, page);
      SameServer(s, d, s.devices[d].(inbox := Some(page)));
    }
  }

  lemma ApplyKeepsInv(s: System, d: DevId, now: nat)
    requires Inv(s)
    ensures Inv(DoApply(s, d, now)) && Grows(s, DoApply(s, d, now))
  {
    hide HistoryOk, RowsOk, CursorOk, IndexOk, CacheOk, OwnersOk, Grows;
    GrowsReflexive(s);
    var t := DoApply(s, d, now);
    if t != s {
      var dev := s.devices[d];
      PullItemKeepsDevOk(s, dev, now);
      assert ItemOk(s.history, dev, dev.inbox.value.items[0]);
      SameServer(s, d, t.devices[d]);
    }
  }

  lemma AdvanceKeepsInv(s: System, d: DevId)
    requires Inv(s)
    ensures Inv(DoAdvance(s, d)) && Grows(s, DoAdvance(s, d))
  {
    hide DevOk, HistoryOk, OwnersOk, Grows;
    GrowsReflexive(s);
    if DoAdvance(s, d) != s {
      AdvanceKeepsDevOk(s, s.devices[d]);
      SameServer(s, d, DoAdvance(s, d).devices[d]);
    }
  }

  lemma AbandonKeepsInv(s: System, d: DevId)
    requires Inv(s)
    ensures Inv(DoAbandon(s, d)) && Grows(s, DoAbandon(s, d))
  {
    hide DevOk, HistoryOk, OwnersOk, Grows;
    GrowsReflexive(s);
    if d in s.devices {
      AbandonKeepsDevOk(s, s.devices[d]);
      SameServer(s, d, DoAbandon(s, d).devices[d]);
    }
  }

  lemma AbandonKeepsDevOk(s: System, dev: Device)
    requires DevOk(s, dev)
    ensures DevOk(s, dev.(inbox := None, pending := None))
  {
    hide RowOk;
    var dev' := dev.(inbox := None, pending := None);
    assert RowsOk(s, dev') && CursorOk(s, dev') && IndexOk(dev') && CacheOk(s.contents, dev');
  }

  lemma AddKeepsInv(s: System, d: DevId, dev: Device, plain: Bytes, salt: nat, fields: Fields, now: nat, nonce: nat,
                    thumb: Option<string>)
    requires Inv(s) && DevOk(s, dev) && dev.pending.None? && dev.rows == RowsOf(s, d) && d in s.devices
    ensures var t := AddTo(s, d, dev, plain, salt, fields, now, nonce, thumb);
      Inv(t) && Grows(s, t)
  {
    hide DevOk, HistoryOk, OwnersOk, Grows;
    var t := AddTo(s, d, dev, plain, salt, fields, now, nonce, thumb);
    AddKeepsDevOk(s, d, dev, plain, salt, fields, now, nonce, thumb);
    OneDeviceChanged(s, t, d, t.devices[d]);
  }

  lemma DoAddKeepsInv(s: System, d: DevId, plain: Bytes, salt: nat, fields: Fields, now: nat, nonce: nat,
                      thumb: Option<string>)
    requires Inv(s)
    ensures var t := DoAdd(s, d, plain, salt, fields, now, nonce, thumb);
      Inv(t) && Grows(s, t)
  {
    hide DevOk, HistoryOk, OwnersOk, Grows, AddTo;
    GrowsReflexive(s);
    if d in s.devices && s.devices[d].Idle() {
      AddKeepsInv(s, d, s.devices[d], plain, salt, fields, now, nonce, thumb);
    }
  }

  lemma CopyKeepsInv(s: System, d: DevId, today: string, salt: nat, now: nat, nonce: nat, thumb: Option<string>)
    requires Inv(s)
    ensures var t := DoCopy(s, d, today, salt, now, nonce, thumb);
      Inv(t) && Grows(s, t)
  {
    hide DevOk, HistoryOk, OwnersOk, Grows, AddTo;
    GrowsReflexive(s);
    if d in s.devices && s.devices[d].pending.Some? {
      var dev := s.devices[d];
      var p := dev.pending.value;
      if p.row.blobId.Some? && p.row.blobId.value in dev.cache {
        var plain := dev.cache[p.row.blobId.value].content.Decrypt(p.id);
        if plain.Some? {
          DropPendingKeepsDevOk(s, dev);
          AddKeepsInv(s, d, dev.(pending := None), plain.value, salt, CopyFields(p, today), now, nonce, thumb);
        }
      }
    }
  }

  lemma DropPendingKeepsDevOk(s: System, dev: Device)
    requires DevOk(s, dev)
    ensures DevOk(s, dev.(pending := None))
  {
    hide RowOk;
    var dev' := dev.(pending := None);
    assert RowsOk(s, dev') && CursorOk(s, dev') && InboxOk(s, dev') && IndexOk(dev') && CacheOk(s.contents, dev');
  }

  lemma PushKeepsInv(s: System, d: DevId, id: DocId, delivered: bool)
    requires Inv(s)
    ensures Inv(DoPush(s, d, id, delivered)) && Grows(s, DoPush(s, d, id, delivered))
  {
    hide HistoryOk, CursorOk, InboxOk, IndexOk, CacheOk, OwnersOk, Grows, DevOk, MarkPushed;
    GrowsReflexive(s);
    if d in s.devices && s.devices[d].Idle() && CanPush(s.devices[d], id) {
      var dev := s.devices[d];
      PushedRowOk(s, dev, id);
      var (tables, reply) := PushReply(s.tables, id, dev.rows[id]);
      var u := Commit(s, d, id, tables, reply);
      CommitKeepsServerOk(s, d, id, dev.rows[id]);
      ServerChanged(s, u);
      if reply.Applied? && delivered {
        MarkPushedKeepsDevOk(s, d, dev, id);
        MarkPushedKeys(dev, id, reply.rec);
        SameServer(u, d, MarkPushed(dev, id, reply.rec));
        GrowsTransitive(s, u, With(u, d, MarkPushed(dev, id, reply.rec)));
      }
    }
  }

  lemma MarkPushedKeys(dev: Device, id: DocId, rec: Record)
    requires id in dev.rows
    ensures MarkPushed(dev, id, rec).rows.Keys == dev.rows.Keys
  {
  }

  lemma PushedRowOk(s: System, dev: Device, id: DocId)
    requires DevOk(s, dev) && id in dev.rows
    ensures RowOk(s.history, s.contents, id, dev.rows[id])
  {
  }

  lemma UploadKeepsInv(s: System, d: DevId, id: DocId, now: nat)
    requires Inv(s)
    ensures Inv(DoUpload(s, d, id, now)) && Grows(s, DoUpload(s, d, id, now))
  {
    hide HistoryOk, CursorOk, InboxOk, IndexOk, OwnersOk, RowsOk, DevOk;
    var t := DoUpload(s, d, id, now);
    if t != s {
      CachedContent(s, s.devices[d], s.devices[d].rows[id].blobId.value);
      UploadHistoryOk(s, t);
      ServerChanged(s, t);
    }
  }

  lemma UploadHistoryOk(s: System, t: System)
    requires HistoryOk(s) && t.history == s.history && t.contents == s.contents
    requires t.tables.docs == s.tables.docs && t.tables.lastSeq == s.tables.lastSeq
    ensures HistoryOk(t)
  {
  }

  lemma CachedContent(s: System, dev: Device, b: BlobId)
    requires DevOk(s, dev) && b in dev.cache
    ensures b in s.contents && dev.cache[b].content == s.contents[b]
  {
  }

  lemma DownloadKeepsInv(s: System, d: DevId, b: BlobId, now: nat)
    requires Inv(s)
    ensures Inv(DoDownload(s, d, b, now)) && Grows(s, DoDownload(s, d, b, now))
  {
    hide HistoryOk, OwnersOk, Grows, DevOk;
    GrowsReflexive(s);
    var t := DoDownload(s, d, b, now);
    if t != s {
      CacheChangeKeepsDevOk(s, s.devices[d], t.devices[d].cache) by {
        RevealCacheOk(s, s.devices[d]);
      }
      SameServer(s, d, t.devices[d]);
    }
  }

  lemma EvictKeepsInv(s: System, d: DevId, b: BlobId)
    requires Inv(s)
    ensures Inv(DoEvict(s, d, b)) && Grows(s, DoEvict(s, d, b))
  {
    hide HistoryOk, OwnersOk, Grows, DevOk;
    GrowsReflexive(s);
    var t := DoEvict(s, d, b);
    if t != s {
      var dev := s.devices[d];
      RevealCacheOk(s, dev);
      assert forall id :: id in dev.rows && NeverPushed(dev.rows[id]) ==> Pins(dev.rows[id], dev.rows[id].blobId.value);
      CacheChangeKeepsDevOk(s, dev, t.devices[d].cache);
      SameServer(s, d, t.devices[d]);
    }
  }

  lemma TouchKeepsInv(s: System, d: DevId, b: BlobId, now: nat)
    requires Inv(s)
    ensures Inv(DoTouch(s, d, b, now)) && Grows(s, DoTouch(s, d, b, now))
  {
    hide HistoryOk, OwnersOk, Grows, DevOk;
    GrowsReflexive(s);
    var t := DoTouch(s, d, b, now);
    if t != s {
      CacheChangeKeepsDevOk(s, s.devices[d], t.devices[d].cache) by {
        RevealCacheOk(s, s.devices[d]);
      }
      SameServer(s, d, t.devices[d]);
    }
  }

  lemma RevealCacheOk(s: System, dev: Device)
    requires DevOk(s, dev)
    ensures CacheOk(s.contents, dev)
  {
  }

  lemma CacheChangeKeepsDevOk(s: System, dev: Device, cache: map<BlobId, CacheEntry>)
    requires DevOk(s, dev) && CacheOk(s.contents, dev.(cache := cache))
    ensures DevOk(s, dev.(cache := cache))
  {
    hide RowOk;
    var dev' := dev.(cache := cache);
    assert RowsOk(s, dev') && CursorOk(s, dev') && IndexOk(dev');
    if dev.inbox.Some? {
      forall i | 0 <= i < |dev.inbox.value.items| ensures ItemOk(s.history, dev', dev.inbox.value.items[i]) {
        assert ItemOk(s.history, dev, dev.inbox.value.items[i]);
      }
    }
    assert InboxOk(s, dev');
  }

  /** Every event keeps the invariant and only appends to the log. */
  lemma NextKeepsInv(s: System, e: Event)
    requires Inv(s)
    ensures Inv(Next(s, e)) && Grows(s, Next(s, e))
  {
    match e
    case Join(d) => JoinKeepsInv(s, d);
    case Gc(now) => GcKeepsInv(s, now);
    case Act(d, a) => DoKeepsInv(s, d, a);
  }

  lemma JoinKeepsInv(s: System, d: DevId)
    requires Inv(s)
    ensures Inv(Next(s, Join(d))) && Grows(s, Next(s, Join(d)))
  {
    hide Grows, OwnersOk;
    GrowsReflexive(s);
    if d !in s.devices {
      NewDeviceOk(s);
      SameServer(s, d, NEW_DEVICE);
    }
  }

  lemma NewDeviceOk(s: System)
    requires HistoryOk(s)
    ensures DevOk(s, NEW_DEVICE)
  {
    forall id | id in s.history && LatestSeq(s.history, id) <= 0 ensures false {
      SeqsArePositive(s, id);
    }
  }

  lemma SeqsArePositive(s: System, id: DocId)
    requires HistoryOk(s) && id in s.history
    ensures LatestSeq(s.history, id) >= 1
  {
    assert EntryOk(s.contents, s.tables.lastSeq, id, s.history[id], Ver(s.history, id) - 1) by {
      assert ChronicleOk(s.contents, s.tables.lastSeq, id, s.history[id]);
    }
  }

  lemma GcKeepsInv(s: System, now: nat)
    requires Inv(s)
    ensures Inv(Next(s, Gc(now))) && Grows(s, Next(s, Gc(now)))
  {
    hide DevOk, OwnersOk;
    var t := Next(s, Gc(now));
    SweepIsExact(s.tables, now);
    UploadHistoryOk(s, t);
    ServerChanged(s, t);
  }

  lemma DoKeepsInv(s: System, d: DevId, a: Action)
    requires Inv(s)
    ensures Inv(Do(s, d, a)) && Grows(s, Do(s, d, a))
  {
    hide Inv, Grows, DoAdd, DoFetch, DoApply, DoCopy, DoAdvance, DoAbandon, DoUpload, DoPush, DoDownload, DoEvict, DoTouch;
    GrowsReflexive(s);
    match a
    case Add(plain, salt, fields, now, nonce, thumb) => DoAddKeepsInv(s, d, plain, salt, fields, now, nonce, thumb);
    case Edit(_, _, _, _, _, _) => if d in s.devices { LocalKeepsInv(s, d, a); }
    case Remove(_, _, _) => if d in s.devices { LocalKeepsInv(s, d, a); }
    case Keep(_, _) => if d in s.devices { LocalKeepsInv(s, d, a); }
    case Fetch(limit, page) => FetchKeepsInv(s, d, limit, page);
    case Apply(now) => ApplyKeepsInv(s, d, now);
    case Copy(today, salt, now, nonce, thumb) => CopyKeepsInv(s, d, today, salt, now, nonce, thumb);
    case Advance => AdvanceKeepsInv(s, d);
    case Abandon => AbandonKeepsInv(s, d);
    case Upload(id, now) => UploadKeepsInv(s, d, id, now);
    case Push(id, delivered) => PushKeepsInv(s, d, id, delivered);
    case Download(b, now) => DownloadKeepsInv(s, d, b, now);
    case Evict(b) => EvictKeepsInv(s, d, b);
    case Touch(b, now) => TouchKeepsInv(s, d, b, now);
  }

  lemma {:induction false} RunFromKeepsInv(s: System, run: seq<Event>)
    requires Inv(s)
    ensures Inv(RunFrom(s, run)) && Grows(s, RunFrom(s, run))
  {
    hide Inv, Grows, Next;
    GrowsReflexive(s);
    if run != [] {
      var before := RunFrom(s, run[..|run| - 1]);
      RunFromKeepsInv(s, run[..|run| - 1]);
      NextKeepsInv(before, run[|run| - 1]);
      GrowsTransitive(s, before, RunFrom(s, run));
    }
  }

  /** The invariant holds in every reachable state. */
  lemma RunKeepsInv(run: seq<Event>)
    ensures Inv(Run(run))
  {
    RunFromKeepsInv(START, run);
  }

  lemma RunStep(trace: seq<Event>, e: Event)
    ensures Run(trace + [e]) == Next(Run(trace), e)
  {
    hide Next;
    OneMore(START, trace, e);
  }

  lemma RunGrows(a: seq<Event>, b: seq<Event>)
    requires a <= b
    ensures Inv(Run(a)) && Inv(Run(b)) && Grows(Run(a), Run(b))
  {
    hide Inv, Grows;
    assert b == a + b[|a|..];
    RunConcat(START, a, b[|a|..]);
    RunKeepsInv(a);
    RunFromKeepsInv(Run(a), b[|a|..]);
  }

  // ------------------------------------------------------------------ reachable states -----

  lemma IndexIsOk(run: seq<Event>, s: System, d: DevId)
    requires s == Run(run) && d in s.devices
    ensures IndexOk(s.devices[d])
  {
    RunKeepsInv(run);
  }

  /** An identifier from the supply is new. */
  lemma SupplyIsNew(run: seq<Event>, s: System, d: DevId)
    requires s == Run(run) && d in s.devices
    ensures s.supply !in s.devices[d].rows && s.supply !in s.history && s.supply !in s.tables.docs && s.supply + 1 !in s.contents
  {
    RunKeepsInv(run);
  }

  lemma RowIsOk(trace: seq<Event>, s: System, me: DevId, id: DocId)
    requires s == Run(trace) && me in s.devices && id in s.devices[me].rows
    ensures RowOk(s.history, s.contents, id, s.devices[me].rows[id])
  {
    hide RowOk, CursorOk, InboxOk, IndexOk, CacheOk, ServerOk, SupplyOk, OwnersOk;
    RunKeepsInv(trace);
  }

  /** What the server has for a document is the last write of its history. */
  lemma ServerDoc(trace: seq<Event>, s: System, id: DocId)
    requires s == Run(trace)
    ensures id in s.tables.docs <==> id in s.history
    ensures id in s.history ==>
      && 0 < Ver(s.history, id) && s.tables.docs[id] == Tip(s.history[id]) && s.tables.docs[id].version == Ver(s.history, id)
      && (forall k :: 0 <= k < Ver(s.history, id) ==> EntryOk(s.contents, s.tables.lastSeq, id, s.history[id], k))
      && (!s.tables.docs[id].deleted ==> s.tables.docs[id].blobId.Some? && s.tables.docs[id].blobId.value in s.tables.blobs)
  {
    hide DevOk, EntryOk, DistinctSeqs, BlobsOk, SupplyOk, OwnersOk;
    RunKeepsInv(trace);
    if id in s.history {
      assert ChronicleOk(s.contents, s.tables.lastSeq, id, s.history[id]);
      HistoryEntryOk(s, id, Ver(s.history, id) - 1);
      VersionOf(s.contents, s.tables.lastSeq, id, s.history[id], Ver(s.history, id) - 1);
    }
  }

  lemma VersionOf(c: map<BlobId, CipherBlob>, lastSeq: nat, id: DocId, es: seq<Entry>, k: nat)
    requires k < |es| && EntryOk(c, lastSeq, id, es, k)
    ensures es[k].rec.version == k + 1
  {
  }

  lemma HistoryEntryOk(s: System, id: DocId, k: nat)
    requires HistoryOk(s) && k < Ver(s.history, id)
    ensures EntryOk(s.contents, s.tables.lastSeq, id, s.history[id], k)
  {
    assert ChronicleOk(s.contents, s.tables.lastSeq, id, s.history[id]);
  }

  /** A row whose push the server will accept. */
  predicate PushReady(h: History, id: DocId, row: Row) {
    row.base == Ver(h, id) && (row.deleted ==> row.base > 0)
  }

  /** The record the server makes of a pushed row. */
  predicate Writes(rec: Record, row: Row) {
    && rec.version == row.base + 1 && rec.blobId == row.blobId && rec.blobSize == row.blobSize && rec.deleted == row.deleted
    && (!row.deleted ==> rec.encMeta == row.encMeta)
  }

  /** The server's answer to a push, in every reachable state. */
  lemma PushAnswer(trace: seq<Event>, s: System, me: DevId, id: DocId)
    requires s == Run(trace) && me in s.devices && CanPush(s.devices[me], id)
    ensures var row := s.devices[me].rows[id];
      var reply := PushReply(s.tables, id, row).1;
      && RowOk(s.history, s.contents, id, row)
      && (reply.Applied? <==> PushReady(s.history, id, row) && (row.deleted || row.blobId.value in s.tables.blobs))
      && (reply.NotFound? <==> row.deleted && id !in s.history)
      && (reply.BlobNotFound? <==> !row.deleted && row.blobId.value !in s.tables.blobs)
      && (reply.VersionMismatch? ==> row.base < Ver(s.history, id))
      && (!row.deleted && 0 < row.base == Ver(s.history, id) ==> row.blobId.value in s.tables.blobs)
      && (reply.Applied? ==> Writes(reply.rec, row))
  {
    hide Inv, LiveOk;
    RowIsOk(trace, s, me, id);
    ServerDoc(trace, s, id);
  }
}
