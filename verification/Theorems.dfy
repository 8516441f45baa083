/** What holds of every run of the whole system. */
module Theorems {
  import opened Types
  import opened Server
  import opened Changes
  import opened Index
  import opened Device
  import opened System
  import opened Invariant
  import opened Preservation
  import opened Runs

  // ------------------------------------------------------------------ cursors and bases ----

  /** Everything the server numbered up to a device's cursor has a row there, based on the current
      version; no row is based on a version the server does not have. */
  lemma CursorCovers(run: seq<Event>, d: DevId)
    requires d in Run(run).devices
    ensures var s := Run(run);
      var dev := s.devices[d];
      && dev.cursor <= s.tables.lastSeq
      && (forall id :: id in s.tables.docs && s.tables.docs[id].seqNo <= dev.cursor ==>
            id in dev.rows && dev.rows[id].base == s.tables.docs[id].version)
      && (forall id :: id in dev.rows && dev.rows[id].base > 0 ==>
            id in s.tables.docs && dev.rows[id].base <= s.tables.docs[id].version)
  {
    hide LiveOk, RecordOk, InboxOk, IndexOk, CacheOk;
    var s := Run(run);
    var dev := s.devices[d];
    RunKeepsInv(run);
    forall id | id in s.tables.docs && s.tables.docs[id].seqNo <= dev.cursor
      ensures id in dev.rows && dev.rows[id].base == s.tables.docs[id].version
    {
      TipInTable(s, id);
    }
    forall id | id in dev.rows && dev.rows[id].base > 0
      ensures id in s.tables.docs && dev.rows[id].base <= s.tables.docs[id].version
    {
      assert RowOk(s.history, s.contents, id, dev.rows[id]);
      TipInTable(s, id);
    }
  }

  /** The bases of a device's rows and its cursor only ever move forward. */
  ghost predicate Forward(dev: Device, dev': Device) {
    && dev.cursor <= dev'.cursor
    && forall id :: id in dev.rows ==> id in dev'.rows && dev.rows[id].base <= dev'.rows[id].base
  }

  lemma {:induction false} BasesNeverDecrease(run: seq<Event>, more: seq<Event>, d: DevId)
    requires d in Run(run).devices
    ensures d in Run(run + more).devices && Forward(Run(run).devices[d], Run(run + more).devices[d])
    decreases |more|
  {
    if more == [] {
      assert run + more == run;
    } else {
      var most, e := more[..|more| - 1], more[|more| - 1];
      BasesNeverDecrease(run, most, d);
      assert run + more == run + most + [e];
      RunStep(run + most, e);
      StepForward(run + most, e, d);
    }
  }

  lemma StepForward(run: seq<Event>, e: Event, d: DevId)
    requires d in Run(run).devices
    ensures var s := Run(run);
      d in Next(s, e).devices && Forward(s.devices[d], Next(s, e).devices[d])
  {
    hide DoAdd, DoFetch, DoApply, DoCopy, DoAdvance, DoAbandon, DoUpload, DoPush, DoDownload, DoEvict, DoTouch, RunFrom, Forward;
    var s := Run(run);
    ForwardReflexive(s.devices[d]);
    if e.Act? {
      if e.dev == d {
        ActForward(run, e.action, d);
      } else {
        OtherDevicesAlone(s, e.dev, e.action, d);
      }
    }
  }

  lemma ForwardReflexive(dev: Device)
    ensures Forward(dev, dev)
  {
  }

  lemma OtherDevicesAlone(s: System, e: DevId, a: Action, d: DevId)
    requires d in s.devices && d != e
    ensures d in Do(s, e, a).devices && Do(s, e, a).devices[d] == s.devices[d]
  {
    hide PullItem, AddDocument, EditDocument, RemoveDocument, KeepDocument, MarkPushed, IsPage, CanPush, CanUpload, Put, Delete;
  }

  lemma ActForward(run: seq<Event>, a: Action, d: DevId)
    requires d in Run(run).devices
    ensures d in Do(Run(run), d, a).devices && Forward(Run(run).devices[d], Do(Run(run), d, a).devices[d])
  {
    hide Inv, Run, Forward, DoAdd, DoFetch, DoApply, DoCopy, DoAdvance, DoAbandon, DoUpload, DoPush, DoDownload, DoEvict, DoTouch,
         EditDocument, RemoveDocument, KeepDocument, CanPush;
    var s := Run(run);
    SupplyIsNew(run, s, d);
    match a
    case Add(plain, salt, fields, now, nonce, thumb) => AddForward(s, d, plain, salt, fields, now, nonce, thumb);
    case Copy(today, salt, now, nonce, thumb) => CopyForward(s, d, today, salt, now, nonce, thumb);
    case Apply(now) => ApplyForward(run, s, d, now);
    case Advance => AdvanceForward(run, s, d);
    case Push(id, delivered) => PushForward(run, s, d, id, delivered);
    case Edit(_, _, _, _, _, _) => EditForward(s, d, a);
    case Remove(_, _, _) => EditForward(s, d, a);
    case Keep(_, _) => EditForward(s, d, a);
    case _ => SameRowsForward(s, d, a);
  }

  lemma EditForward(s: System, d: DevId, a: Action)
    requires d in s.devices && (a.Edit? || a.Remove? || a.Keep?)
    ensures d in Do(s, d, a).devices && Forward(s.devices[d], Do(s, d, a).devices[d])
  {
    hide Find, Retain, Replace;
  }

  lemma SameRowsForward(s: System, d: DevId, a: Action)
    requires d in s.devices && (a.Fetch? || a.Abandon? || a.Upload? || a.Download? || a.Evict? || a.Touch?)
    ensures d in Do(s, d, a).devices && Forward(s.devices[d], Do(s, d, a).devices[d])
  {
    hide IsPage, CanUpload, PutBlob, Pinned;
  }

  lemma AddForward(s: System, d: DevId, plain: Bytes, salt: nat, fields: Fields, now: nat, nonce: nat, thumb: Option<string>)
    requires d in s.devices && s.supply !in s.devices[d].rows
    ensures var t := DoAdd(s, d, plain, salt, fields, now, nonce, thumb);
      d in t.devices && Forward(s.devices[d], t.devices[d])
  {
    hide NewMeta, ToSummary;
  }

  lemma CopyForward(s: System, d: DevId, today: string, salt: nat, now: nat, nonce: nat, thumb: Option<string>)
    requires d in s.devices && s.supply !in s.devices[d].rows
    ensures var t := DoCopy(s, d, today, salt, now, nonce, thumb);
      d in t.devices && Forward(s.devices[d], t.devices[d])
  {
    hide NewMeta, ToSummary, CopyFields;
  }

  lemma ApplyForward(run: seq<Event>, s: System, d: DevId, now: nat)
    requires s == Run(run) && d in s.devices
    ensures d in DoApply(s, d, now).devices && Forward(s.devices[d], DoApply(s, d, now).devices[d])
  {
    hide Inv, RunFrom, Find, Retain, Summarise;
    var dev := s.devices[d];
    if dev.inbox.Some? && dev.inbox.value.items != [] {
      HeadItem(run, s, d);
    }
  }

  lemma AdvanceForward(run: seq<Event>, s: System, d: DevId)
    requires s == Run(run) && d in s.devices
    ensures d in DoAdvance(s, d).devices && Forward(s.devices[d], DoAdvance(s, d).devices[d])
  {
    hide Inv, RunFrom;
    if s.devices[d].inbox.Some? {
      InboxBeyondCursor(run, s, d);
    }
  }

  lemma PushForward(run: seq<Event>, s: System, d: DevId, id: DocId, delivered: bool)
    requires s == Run(run) && d in s.devices
    ensures d in DoPush(s, d, id, delivered).devices && Forward(s.devices[d], DoPush(s, d, id, delivered).devices[d])
  {
    hide Inv, RunFrom, Find, Replace, Put, Delete, RowOk;
    if CanPush(s.devices[d], id) {
      PushAnswer(run, s, d, id);
    }
  }

  lemma HeadItem(run: seq<Event>, s: System, d: DevId)
    requires s == Run(run) && d in s.devices && s.devices[d].inbox.Some? && s.devices[d].inbox.value.items != []
    ensures ItemOk(s.history, s.devices[d], s.devices[d].inbox.value.items[0])
  {
    RunKeepsInv(run);
    HeadItemOk(s, s.devices[d]);
  }

  lemma InboxBeyondCursor(run: seq<Event>, s: System, d: DevId)
    requires s == Run(run) && d in s.devices && s.devices[d].inbox.Some?
    ensures s.devices[d].cursor <= s.devices[d].inbox.value.nextSince
  {
    RunKeepsInv(run);
  }

  // ------------------------------------------------------------------ convergence ----------

  ghost predicate UpToDate(s: System, dev: Device) {
    forall id :: id in s.tables.docs ==> id in dev.rows && dev.rows[id].base == s.tables.docs[id].version
  }

  ghost predicate AllClean(dev: Device) {
    forall id :: id in dev.rows ==> !dev.rows[id].dirty
  }

  /** A device whose cursor has reached the last sequence number in use has seen every document. */
  lemma CursorAtTheEnd(run: seq<Event>, d: DevId)
    requires d in Run(run).devices
    requires forall id :: id in Run(run).tables.docs ==> Run(run).tables.docs[id].seqNo <= Run(run).devices[d].cursor
    ensures UpToDate(Run(run), Run(run).devices[d])
  {
    CursorCovers(run, d);
  }

  /** A clean, up-to-date device holds exactly the server's documents. */
  lemma MirrorsServer(run: seq<Event>, d: DevId)
    requires d in Run(run).devices && UpToDate(Run(run), Run(run).devices[d]) && AllClean(Run(run).devices[d])
    ensures var s := Run(run);
      var dev := s.devices[d];
      && dev.rows.Keys == s.tables.docs.Keys
      && forall id :: id in dev.rows ==> SameRecord(dev.rows[id], s.tables.docs[id])
  {
    hide Run, Inv, LiveOk, SameRecord;
    var s := Run(run);
    var dev := s.devices[d];
    forall id | id in dev.rows ensures id in s.tables.docs && SameRecord(dev.rows[id], s.tables.docs[id]) {
      RowIsOk(run, s, d, id);
      ServerDoc(run, s, id);
    }
  }

  /** An index without the flag that is a device's own choice. */
  ghost function Shared(index: seq<Summary>): set<Summary> {
    set x | x in index :: x.(keepOffline := false)
  }

  /** Two clean, up-to-date devices agree on every document, whatever led there. */
  lemma Convergence(run: seq<Event>, d: DevId, e: DevId)
    requires d in Run(run).devices && UpToDate(Run(run), Run(run).devices[d]) && AllClean(Run(run).devices[d])
    requires e in Run(run).devices && UpToDate(Run(run), Run(run).devices[e]) && AllClean(Run(run).devices[e])
    ensures var a, b := Run(run).devices[d], Run(run).devices[e];
      && a.rows.Keys == b.rows.Keys
      && (forall id :: id in a.rows ==>
            var x, y := a.rows[id], b.rows[id];
            && x.version == y.version && x.blobId == y.blobId && x.blobSize == y.blobSize && x.deleted == y.deleted
            && (!x.deleted ==> x.encMeta == y.encMeta))
      && Shared(a.index) == Shared(b.index)
  {
    hide Run, UpToDate;
    MirrorsServer(run, d);
    MirrorsServer(run, e);
    var a, b := Run(run).devices[d], Run(run).devices[e];
    IndexFollowsRows(run, d, e);
    IndexFollowsRows(run, e, d);
  }

  lemma IndexFollowsRows(run: seq<Event>, d: DevId, e: DevId)
    requires d in Run(run).devices && e in Run(run).devices
    requires var a, b := Run(run).devices[d], Run(run).devices[e];
      && AllClean(a) && AllClean(b)
      && forall id :: id in a.rows && !a.rows[id].deleted ==> id in b.rows && Alike(a.rows[id], b.rows[id])
    ensures Shared(Run(run).devices[d].index) <= Shared(Run(run).devices[e].index)
  {
    hide Run, Inv;
    var a, b := Run(run).devices[d], Run(run).devices[e];
    IndexIsOk(run, Run(run), d);
    IndexIsOk(run, Run(run), e);
    forall x | x in a.index ensures x.(keepOffline := false) in Shared(b.index) {
      assert InIndex(a.rows, x) && Alike(a.rows[x.id], b.rows[x.id]);
      var y := ToSummary(x.id, b.rows[x.id], Open(x.id, x.version, b.rows[x.id].encMeta).value);
      assert InIndex(b.rows, y);
      assert y.(keepOffline := false) == x.(keepOffline := false);
    }
  }

  predicate Alike(x: Row, y: Row) {
    x.version == y.version && x.blobSize == y.blobSize && x.deleted == y.deleted && x.encMeta == y.encMeta
  }

  // ------------------------------------------------------------------ histories ------------

  /** The versions of a document are numbered without a gap, each is one record that never changes,
      all live ones share one blob, and only the last can be a tombstone. */
  lemma HistoryIsUnbroken(run: seq<Event>, more: seq<Event>, id: DocId)
    ensures var s, t := Run(run), Run(run + more);
      && Past(s.history, id) <= Past(t.history, id)
      && (id in t.tables.docs <==> 0 < Ver(t.history, id))
      && (id in t.tables.docs ==> t.tables.docs[id] == Tip(t.history[id]))
      && forall k :: 0 <= k < Ver(t.history, id) ==> Unbroken(t.history[id], k)
  {
    hide Run, EntryOk, Unbroken, Inv;
    RunGrows(run, run + more);
    ServerDoc(run + more, Run(run + more), id);
    var s, t := Run(run), Run(run + more);
    if id in t.history {
      assert Appended(s, t, id);
      forall k | 0 <= k < Ver(t.history, id) ensures Unbroken(t.history[id], k) {
        EntryUnbroken(t.contents, t.tables.lastSeq, id, t.history[id], k);
      }
    }
  }

  predicate Unbroken(es: seq<Entry>, k: nat)
    requires k < |es|
  {
    var rec := es[k].rec;
    && rec.version == k + 1
    && (rec.deleted ==> 0 < k && k + 1 == |es|)
    && (!rec.deleted ==> rec.blobId == es[0].rec.blobId)
  }

  lemma EntryUnbroken(c: map<BlobId, CipherBlob>, lastSeq: nat, id: DocId, es: seq<Entry>, k: nat)
    requires k < |es| && EntryOk(c, lastSeq, id, es, k)
    ensures Unbroken(es, k)
  {
  }

  /** A deleted document stays deleted, although every accepted PUT writes `deleted = false`. */
  lemma TombstonesAreFinal(run: seq<Event>, more: seq<Event>, id: DocId)
    requires id in Run(run).tables.docs && Run(run).tables.docs[id].deleted
    ensures id in Run(run + more).tables.docs && Run(run + more).tables.docs[id] == Run(run).tables.docs[id]
  {
    hide Run;
    HistoryIsUnbroken(run, [], id);
    assert run + [] == run;
    HistoryIsUnbroken(run, more, id);
    var s, t := Run(run), Run(run + more);
    var k := Ver(s.history, id) - 1;
    assert t.history[id][k] == s.history[id][k] && Unbroken(t.history[id], k);
  }

  // ------------------------------------------------------------------ metadata -------------

  /** Live rows and live server records open under their own id and version; a clean row has the
      version of its base, a dirty one the version its push will get. */
  lemma MetadataBound(run: seq<Event>)
    ensures var s := Run(run);
      && (forall d, id :: d in s.devices && id in s.devices[d].rows ==>
            var row := s.devices[d].rows[id];
            && (!row.deleted ==> Open(id, row.version, row.encMeta).Some?)
            && row.version == (if row.dirty then row.base + 1 else row.base)
            && (!row.dirty ==> row.base > 0))
      && (forall id :: id in s.tables.docs && !s.tables.docs[id].deleted ==>
            Open(id, s.tables.docs[id].version, s.tables.docs[id].encMeta).Some?)
  {
    hide Run, Inv;
    var s := Run(run);
    forall d, id | d in s.devices && id in s.devices[d].rows
      ensures RowOk(s.history, s.contents, id, s.devices[d].rows[id])
    {
      RowIsOk(run, s, d, id);
    }
    forall id | id in s.tables.docs && !s.tables.docs[id].deleted
      ensures Open(id, s.tables.docs[id].version, s.tables.docs[id].encMeta).Some?
    {
      ServerDoc(run, s, id);
      assert EntryOk(s.contents, s.tables.lastSeq, id, s.history[id], Ver(s.history, id) - 1);
    }
  }

  /** The metadata the server keeps with a tombstone was sealed for the version before: nobody can
      open it under the version of the record it comes with. */
  lemma TombstoneMetadataUnreadable(run: seq<Event>, id: DocId)
    requires id in Run(run).tables.docs
    ensures var rec := Run(run).tables.docs[id];
      Open(id, rec.version, rec.encMeta).None? <==> rec.deleted
  {
    hide Run, Inv;
    var s := Run(run);
    ServerDoc(run, s, id);
    var n := Ver(s.history, id);
    assert EntryOk(s.contents, s.tables.lastSeq, id, s.history[id], n - 1);
    if s.tables.docs[id].deleted {
      assert EntryOk(s.contents, s.tables.lastSeq, id, s.history[id], n - 2);
    }
  }

  /** `size` and `content_hash` are those of the ciphertext, so the size is never the plaintext's. */
  lemma MetadataDescribesCiphertext(run: seq<Event>, d: DevId, id: DocId)
    requires d in Run(run).devices && id in Run(run).devices[d].rows && !Run(run).devices[d].rows[id].deleted
    ensures var s := Run(run);
      var row := s.devices[d].rows[id];
      && row.blobId.Some? && row.blobId.value in s.contents
      && var content := s.contents[row.blobId.value];
      && content.doc == id && row.encMeta.plain.contentHash == Digest(content) && row.blobSize == content.Size()
      && row.encMeta.plain.size == content.Size() > |content.plain|
  {
    hide Run, Inv;
    RowIsOk(run, Run(run), d, id);
  }

  // ------------------------------------------------------------------ local operations -----

  /** What the index shows of a document is what its row and its opened metadata say, of every live
      document once, and of nothing else. */
  lemma IndexShowsRows(run: seq<Event>, d: DevId)
    requires d in Run(run).devices
    ensures var dev := Run(run).devices[d];
      && (forall x :: x in dev.index ==>
            && x.id in dev.rows && !dev.rows[x.id].deleted
            && var row := dev.rows[x.id];
            && row.encMeta.doc == x.id && row.encMeta.version == row.version
            && var m := row.encMeta.plain;
            x == Summary(x.id, m.title, m.tags, m.note, m.mime, m.size, m.contentHash, m.originalName, m.createdAt,
                         row.version, row.dirty, row.keepOffline, row.blobSize))
      && (forall id :: id in dev.rows && !dev.rows[id].deleted ==> exists x :: x in dev.index && x.id == id)
      && (forall i, j :: 0 <= i < j < |dev.index| ==> dev.index[i].id != dev.index[j].id)
  {
    hide Run, Inv, LiveOk;
    var dev := Run(run).devices[d];
    IndexIsOk(run, Run(run), d);
    forall id | id in dev.rows && !dev.rows[id].deleted ensures exists x :: x in dev.index && x.id == id {
      RowIsOk(run, Run(run), d, id);
      LiveRowOpens(Run(run), id, dev.rows[id]);
      EntryFound(dev, id, dev.rows[id]);
    }
  }

  /** A document can be edited, and can be deleted, exactly when the device has a live row of it:
      neither its index entry nor its metadata is ever missing. */
  lemma LiveRowsCanChange(run: seq<Event>, d: DevId, id: DocId, title: string, tags: seq<string>, note: string, now: nat, nonce: nat)
    requires d in Run(run).devices
    ensures var dev := Run(run).devices[d];
      var live := id in dev.rows && !dev.rows[id].deleted;
      && (EditDocument(dev, id, title, tags, note, now, nonce).Some? <==> live)
      && (RemoveDocument(dev, id, now, nonce).Some? <==> live)
      && (live ==> Find(dev.index, id).Some? && Open(id, dev.rows[id].version, dev.rows[id].encMeta).Some?)
  {
    hide Run, Inv, LiveOk, Replace, Retain;
    var dev := Run(run).devices[d];
    if id in dev.rows && !dev.rows[id].deleted {
      RowIsOk(run, Run(run), d, id);
      IndexIsOk(run, Run(run), d);
      LiveRowOpens(Run(run), id, dev.rows[id]);
      EntryFound(dev, id, dev.rows[id]);
    }
  }

  lemma LiveRowOpens(s: System, id: DocId, row: Row)
    requires RowOk(s.history, s.contents, id, row) && !row.deleted
    ensures Open(id, row.version, row.encMeta).Some?
  {
  }

  /** Editing replaces title, tags and note and keeps everything else of the document, although the code
      takes most of it from the index and only the thumbnail from the stored metadata. */
  lemma EditIsExact(run: seq<Event>, d: DevId, id: DocId, title: string, tags: seq<string>, note: string, now: nat, nonce: nat)
    requires d in Run(run).devices && EditDocument(Run(run).devices[d], id, title, tags, note, now, nonce).Some?
    ensures var dev := Run(run).devices[d];
      var dev' := EditDocument(dev, id, title, tags, note, now, nonce).value;
      var was, row, m := dev.rows[id], dev'.rows[id], dev.rows[id].encMeta.plain;
      && dev' == dev.(rows := dev.rows[id := row], index := dev'.index)
      && !row.deleted && row == was.(version := was.base + 1, dirty := true, updatedAt := now, encMeta := row.encMeta)
      && row.encMeta == Sealed(id, was.base + 1, nonce, m.(title := title, tags := tags, note := note))
      && Find(dev'.index, id) == Some(Summary(id, title, tags, note, m.mime, m.size, m.contentHash, m.originalName, m.createdAt,
                                              was.base + 1, true, was.keepOffline, was.blobSize))
      && forall x: Summary :: x.id != id ==> (x in dev'.index <==> x in dev.index)
  {
    hide Run, Inv, LiveOk;
    var dev := Run(run).devices[d];
    RowIsOk(run, Run(run), d, id);
    IndexIsOk(run, Run(run), d);
    LiveRowOpens(Run(run), id, dev.rows[id]);
    EntryFound(dev, id, dev.rows[id]);
    EditTouchesOneEntry(dev, id, title, tags, note, now, nonce);
  }

  lemma EditTouchesOneEntry(dev: Device, id: DocId, title: string, tags: seq<string>, note: string, now: nat, nonce: nat)
    requires IndexOk(dev) && EditDocument(dev, id, title, tags, note, now, nonce).Some?
    ensures var dev' := EditDocument(dev, id, title, tags, note, now, nonce).value;
      && Find(dev'.index, id) == Summarise(id, dev'.rows[id])
      && forall x: Summary :: x.id != id ==> (x in dev'.index <==> x in dev.index)
  {
  }

  /** Deleting leaves a pending tombstone without a blob that still has the document's metadata but its
      thumbnail, and takes the document out of the index. */
  lemma RemoveIsExact(run: seq<Event>, d: DevId, id: DocId, now: nat, nonce: nat)
    requires d in Run(run).devices && RemoveDocument(Run(run).devices[d], id, now, nonce).Some?
    ensures var dev := Run(run).devices[d];
      var dev' := RemoveDocument(dev, id, now, nonce).value;
      var was, row := dev.rows[id], dev'.rows[id];
      && dev' == dev.(rows := dev.rows[id := row], index := dev'.index)
      && row == Row(was.base + 1, was.base, None, 0, row.encMeta, true, true, was.keepOffline, now)
      && row.encMeta == Sealed(id, was.base + 1, nonce, was.encMeta.plain.(thumb := None))
      && forall x: Summary :: x in dev'.index <==> x in dev.index && x.id != id
  {
    hide Run, Inv, LiveOk;
    var dev := Run(run).devices[d];
    RowIsOk(run, Run(run), d, id);
    IndexIsOk(run, Run(run), d);
    LiveRowOpens(Run(run), id, dev.rows[id]);
    EntryFound(dev, id, dev.rows[id]);
  }

  /** The bytes of a document that was never pushed are on the device, however small its cache. */
  lemma NeverPushedIsCached(run: seq<Event>, d: DevId, id: DocId)
    requires d in Run(run).devices && id in Run(run).devices[d].rows && NeverPushed(Run(run).devices[d].rows[id])
    ensures var dev := Run(run).devices[d];
      var b := dev.rows[id].blobId.value;
      && b in dev.cache && b in Run(run).contents && dev.cache[b].content == Run(run).contents[b] && dev.cache[b].content.Decrypt(id).Some?
  {
    RunKeepsInv(run);
    RowIsOk(run, Run(run), d, id);
  }
}
