/** What can happen to a device in ordinary use and its documentation does not mention: each with the
    exact condition over all runs, and a run that leads there. */
module Hazards {
  import opened Types
  import opened Server
  import opened Changes
  import opened Index
  import opened Device
  import opened System
  import opened Invariant
  import opened Preservation
  import opened Runs
  import opened Foreign
  import opened Theorems
  import opened Edits
  import opened Cache
  import opened Room
  import opened Pulling
  import opened Pushing
  import opened Crossing

  // ------------------------------------------------------------------ deleted before its first push

  /** A pending deletion of a document the server has never heard of. */
  ghost predicate Orphan(s: System, d: DevId, id: DocId) {
    && d in s.devices && id in s.devices[d].rows && id !in s.tables.docs
    && s.devices[d].rows[id].dirty && s.devices[d].rows[id].deleted
  }

  /** The server answers "not found" to a push exactly when the row is an orphan. */
  lemma NotFoundIffOrphan(run: seq<Event>, d: DevId, id: DocId)
    requires d in Run(run).devices && CanPush(Run(run).devices[d], id)
    ensures PushReply(Run(run).tables, id, Run(run).devices[d].rows[id]).1.NotFound? <==> Orphan(Run(run), d, id)
  {
    hide Run, Inv;
    PushAnswer(run, Run(run), d, id);
    ServerDoc(run, Run(run), id);
  }

  /** Once there, an orphan never goes away, so no later push of it can succeed either. */
  lemma {:induction false} OrphansStay(run: seq<Event>, more: seq<Event>, d: DevId, id: DocId)
    requires Orphan(Run(run), d, id)
    ensures Orphan(Run(run + more), d, id)
    decreases |more|
  {
    hide Orphan;
    if more == [] {
      assert run + more == run;
    } else {
      var most, e := more[..|more| - 1], more[|more| - 1];
      OrphansStay(run, most, d, id);
      assert run + more == run + most + [e];
      RunStep(run + most, e);
      OrphanStep(run + most, e, d, id);
    }
  }

  lemma OrphanStep(run: seq<Event>, e: Event, d: DevId, id: DocId)
    requires Orphan(Run(run), d, id)
    ensures Orphan(Next(Run(run), e), d, id)
  {
    hide Do, Run, Inv;
    var s := Run(run);
    RunKeepsInv(run);
    NextKeepsInv(s, e);
    ServerDoc(run, s, id);
    RunStep(run, e);
    ServerDoc(run + [e], Next(s, e), id);
    if IsForeign(e, d) {
      ForeignStep(s, e, d);
    } else if e.Act? {
      OwnOrphanStep(run, e.action, d, id);
    }
  }

  lemma OwnOrphanStep(run: seq<Event>, a: Action, d: DevId, id: DocId)
    requires Orphan(Run(run), d, id)
    ensures Orphan(Do(Run(run), d, a), d, id)
  {
    hide Inv, Run, DoAdd, DoFetch, DoApply, DoCopy, DoAdvance, DoAbandon, DoUpload, DoPush, DoDownload, DoEvict, DoTouch,
         EditDocument, RemoveDocument, KeepDocument, CanPush;
    var s := Run(run);
    SupplyIsNew(run, s, d);
    match a
    case Add(plain, salt, fields, now, nonce, thumb) => OrphanAdd(s, d, id, plain, salt, fields, now, nonce, thumb);
    case Copy(today, salt, now, nonce, thumb) => OrphanCopy(s, d, id, today, salt, now, nonce, thumb);
    case Apply(now) => OrphanApply(run, s, d, id, now);
    case Push(other, delivered) => OrphanPush(run, s, d, id, other, delivered);
    case _ => OrphanLocal(s, d, id, a);
  }

  lemma OrphanLocal(s: System, d: DevId, id: DocId, a: Action)
    requires Orphan(s, d, id) && !a.Add? && !a.Copy? && !a.Apply? && !a.Push?
    ensures Orphan(Do(s, d, a), d, id)
  {
    hide Find, Retain, Replace, IsPage, CanUpload, PutBlob, Pinned;
    if a.Upload? {
      UploadKeepsDocs(s, d, a.id, a.now);
    }
  }

  lemma UploadKeepsDocs(s: System, d: DevId, id: DocId, now: nat)
    ensures DoUpload(s, d, id, now).tables.docs == s.tables.docs && DoUpload(s, d, id, now).devices == s.devices
  {
    hide CanUpload;
  }

  lemma OrphanAdd(s: System, d: DevId, id: DocId, plain: Bytes, salt: nat, fields: Fields, now: nat, nonce: nat,
                  thumb: Option<string>)
    requires Orphan(s, d, id) && s.supply !in s.devices[d].rows
    ensures Orphan(DoAdd(s, d, plain, salt, fields, now, nonce, thumb), d, id)
  {
    hide NewMeta, ToSummary;
  }

  lemma OrphanCopy(s: System, d: DevId, id: DocId, today: string, salt: nat, now: nat, nonce: nat, thumb: Option<string>)
    requires Orphan(s, d, id) && s.supply !in s.devices[d].rows
    ensures Orphan(DoCopy(s, d, today, salt, now, nonce, thumb), d, id)
  {
    hide NewMeta, ToSummary, CopyFields;
  }

  lemma OrphanApply(run: seq<Event>, s: System, d: DevId, id: DocId, now: nat)
    requires s == Run(run) && Orphan(s, d, id)
    ensures Orphan(DoApply(s, d, now), d, id)
  {
    hide Inv, RunFrom, Find, Retain, Summarise;
    ServerDoc(run, s, id);
    var dev := s.devices[d];
    if dev.inbox.Some? && dev.inbox.value.items != [] {
      HeadItem(run, s, d);
    }
  }

  lemma OrphanPush(run: seq<Event>, s: System, d: DevId, id: DocId, other: DocId, delivered: bool)
    requires s == Run(run) && Orphan(s, d, id)
    ensures Orphan(DoPush(s, d, other, delivered), d, id)
  {
    hide Inv, RunFrom, Find, Replace, RowOk;
    if CanPush(s.devices[d], other) {
      PushAnswer(run, s, d, other);
      ServerDoc(run, s, other);
    }
  }

  /** How it comes about: adding a document and deleting it again before the next sync. */
  lemma AddThenRemove(run: seq<Event>, d: DevId, plain: Bytes, salt: nat, fields: Fields, now: nat, nonce: nat,
                      thumb: Option<string>, later: nat, nonce': nat)
    requires d in Run(run).devices && Run(run).devices[d].Idle()
    ensures var id := Run(run).supply;
      Orphan(Run(run + [Act(d, Add(plain, salt, fields, now, nonce, thumb)), Act(d, Remove(id, later, nonce'))]), d, id)
  {
    var s := Run(run);
    var id := s.supply;
    var add, remove := Act(d, Add(plain, salt, fields, now, nonce, thumb)), Act(d, Remove(id, later, nonce'));
    RunStep(run, add);
    RunStep(run + [add], remove);
    assert run + [add, remove] == run + [add] + [remove];
    SupplyIsNew(run, s, d);
    AddedRow(s, d, plain, salt, fields, now, nonce, thumb);
    LiveRowsCanChange(run + [add], d, id, "", [], "", later, nonce');
    RemovedRow(Next(s, add), d, id, later, nonce');
  }

  lemma AddedRow(s: System, d: DevId, plain: Bytes, salt: nat, fields: Fields, now: nat, nonce: nat, thumb: Option<string>)
    requires d in s.devices && s.devices[d].Idle()
    ensures var t := DoAdd(s, d, plain, salt, fields, now, nonce, thumb);
      && d in t.devices && t.devices[d].Idle() && s.supply in t.devices[d].rows && !t.devices[d].rows[s.supply].deleted
      && t.tables == s.tables
  {
  }

  lemma RemovedRow(s: System, d: DevId, id: DocId, now: nat, nonce: nat)
    requires d in s.devices && s.devices[d].Idle() && RemoveDocument(s.devices[d], id, now, nonce).Some? && id !in s.tables.docs
    ensures Orphan(Next(s, Act(d, Remove(id, now, nonce))), d, id)
  {
  }

  // ------------------------------------------------------------------ a reply that gets lost

  /** The server applied a write and the answer was lost: from then on the device takes its own
      write for somebody else's, so that pushing again is a mismatch and pulling is a conflict. */
  lemma LostReplyLooksLikeAConflict(run: seq<Event>, d: DevId, id: DocId)
    requires d in Run(run).devices && Run(run).devices[d].Idle() && CanPush(Run(run).devices[d], id)
    requires PushReply(Run(run).tables, id, Run(run).devices[d].rows[id]).1.Applied?
    ensures var row := Run(run).devices[d].rows[id];
      var t := Next(Run(run), Act(d, Push(id, false)));
      && d in t.devices && t.devices[d] == Run(run).devices[d]
      && id in t.tables.docs && id in t.history && t.history[id][|t.history[id]| - 1].writer == d
      && Writes(t.tables.docs[id], row)
      && PushReply(t.tables, id, row).1.VersionMismatch?
      && Conflicts(t.devices[d], Item(id, t.tables.docs[id]))
  {
    hide Inv, RunFrom, MarkPushed, RowOk;
    PushAnswer(run, Run(run), d, id);
  }

  /** A push of a row is a version mismatch exactly when the server is past its base, unless the blob
      of a live row is gone. */
  lemma MismatchIffOvertaken(run: seq<Event>, d: DevId, id: DocId)
    requires d in Run(run).devices && CanPush(Run(run).devices[d], id)
    ensures var s := Run(run);
      var row := s.devices[d].rows[id];
      PushReply(s.tables, id, row).1.VersionMismatch? <==>
        row.base < Ver(s.history, id) && (row.deleted || row.blobId.value in s.tables.blobs)
  {
    hide Run, Inv;
    PushAnswer(run, Run(run), d, id);
    ServerDoc(run, Run(run), id);
  }

  // ------------------------------------------------------------------ a pull that fails half-way

  predicate Carries(row: Row, edit: Row) {
    !row.deleted && row.encMeta == edit.encMeta
  }

  /** A pull that stops between taking the server's record and making the copy: the row is clean, and a live
      row carries the edit exactly if the server's record is that very edit, as after a lost reply. */
  lemma FailedCopyDropsTheEdit(run: seq<Event>, d: DevId, now: nat)
    requires d in Run(run).devices && Run(run).devices[d].pending.None?
    requires Run(run).devices[d].inbox.Some? && Run(run).devices[d].inbox.value.items != []
    requires var dev := Run(run).devices[d];
      var item := dev.inbox.value.items[0];
      Conflicts(dev, item) && !dev.rows[item.id].deleted
    ensures var dev := Run(run).devices[d];
      var item := dev.inbox.value.items[0];
      var t := Next(Next(Run(run), Act(d, Apply(now))), Act(d, Abandon));
      && t.history == Run(run).history && d in t.devices && t.devices[d].Idle()
      && t.devices[d].rows == dev.rows[item.id := PulledRow(dev, item, now)]
      && forall k :: k in t.devices[d].rows && Carries(t.devices[d].rows[k], dev.rows[item.id]) <==>
           k == item.id && !item.rec.deleted && item.rec.encMeta == dev.rows[item.id].encMeta
  {
    hide Inv, Run, Find, Retain, Summarise;
    var dev := Run(run).devices[d];
    var item := dev.inbox.value.items[0];
    RowIsOk(run, Run(run), d, item.id);
    LiveRowOpens(Run(run), item.id, dev.rows[item.id]);
    forall k | k in dev.rows && !dev.rows[k].deleted ensures dev.rows[k].encMeta.doc == k {
      RowIsOk(run, Run(run), d, k);
      LiveRowOpens(Run(run), k, dev.rows[k]);
    }
  }

  // ------------------------------------------------------------------ no room for the copy

  /** Two devices edited one document, and the one that was slower never had its blob. There is no orphan,
      and the copy that a pull has to make fits exactly if the cache may hold the blob: with a smaller limit
      the device cannot sync, alone and with every request answered. */
  lemma CopyMayNotFit(plain: Bytes, limit: int)
    ensures var s := Run(Crossed(plain));
      && 1 in s.devices && s.devices[1].Idle()
      && var dev := s.devices[1];
      && NoOrphans(s.history, dev.rows) && NoneLingers(s.tables, dev.rows, dev.cache)
      && (CopiesFit(s.tables, dev.rows, dev.cache, limit, true) <==> SealedLength(|plain|) <= limit)
  {
    hide Run, PinnedBytes, Crossed;
    CrossedState(plain);
    var s := Run(Crossed(plain));
    var dev := s.devices[1];
    NothingIsPinned(dev.rows);
    FirstPinned(s.tables.docs, dev.rows, dev.cache, true, Item(0, s.tables.docs[0]));
    assert Behind(s.tables.docs, dev.rows, 0);
  }

  lemma NothingIsPinned(rows: Rows)
    ensures PinnedBytes(rows, map[]) == 0
  {
    assert Sizes(OnlyPinned(rows, map[])) == map[];
  }

  ghost function SecondFetch(plain: Bytes): Event {
    CrossedState(plain);
    Act(1, Fetch(PAGE_LIMIT, Page([Item(0, Run(Crossed(plain)).tables.docs[0])], 2, false)))
  }

  lemma SecondFetchState(plain: Bytes)
    ensures var s, t := Run(Crossed(plain)), Run(Crossed(plain) + [SecondFetch(plain)]);
      && t.tables == s.tables && t.history == s.history && 1 in s.devices && 1 in t.devices
      && t.devices[1] == s.devices[1].(inbox := Some(SecondFetch(plain).action.page))
  {
    hide Run, Crossed;
    CrossedState(plain);
    var s, page := Run(Crossed(plain)), SecondFetch(plain).action.page;
    assert Stored(s.tables.docs, 1, 2, page.items[0]);
    RunStep(Crossed(plain), SecondFetch(plain));
  }

  /** The pull that follows: the edit is overtaken by a write of the other device, its copy can be made
      exactly if the cache may hold the blob, and if it is not made no live row has the edit. */
  lemma CrossedEditIsLost(plain: Bytes, limit: int, now: nat)
    ensures var s := Run(Crossed(plain) + [SecondFetch(plain)]);
      && 1 in s.devices && s.devices[1].pending.None? && s.devices[1].inbox.Some? && s.devices[1].inbox.value.items != []
      && var dev, item := s.devices[1], s.devices[1].inbox.value.items[0];
      && Conflicts(dev, item) && IsEdit(dev.rows[item.id]) && dev.rows[item.id].blobId.Some?
      && item.id in s.history && item.rec.version == Ver(s.history, item.id) == 2 && s.history[item.id][1].writer != 1
      && var mid := ApplyRecord(dev, item, now);
      && (CanBeRead(mid.rows, mid.cache, limit, s.tables.blobs, dev.rows[item.id].blobId.value) <==> SealedLength(|plain|) <= limit)
      && var t := Next(Next(s, Act(1, Apply(now))), Act(1, Abandon));
      && 1 in t.devices && t.devices[1].Idle()
      && forall k :: k in t.devices[1].rows ==> !Carries(t.devices[1].rows[k], dev.rows[item.id]) && !t.devices[1].rows[k].dirty
  {
    hide Run, Crossed, SecondFetch, PinnedBytes, Next, ApplyRecord, Survives;
    CrossedState(plain);
    SecondFetchState(plain);
    SecondItem(plain);
    var run := Crossed(plain) + [SecondFetch(plain)];
    var dev := Run(run).devices[1];
    NothingIsPinned(dev.rows);
    CopyRoom(run, Run(run), 1, now, limit);
    FailedCopyDropsTheEdit(run, 1, now);
  }

  lemma SecondItem(plain: Bytes)
    ensures 0 in Run(Crossed(plain)).tables.docs
    ensures SecondFetch(plain).action.page.items == [Item(0, Run(Crossed(plain)).tables.docs[0])]
  {
    hide Run, Crossed;
    CrossedState(plain);
  }
}
