/** What the rest of the system may do while one device is busy. */
module Foreign {
  import opened Types
  import opened Server
  import opened Changes
  import opened Index
  import opened Device
  import opened System
  import opened Invariant
  import opened Preservation
  import opened Runs

  /** An event that device `me` has no part in. */
  predicate IsForeign(e: Event, me: DevId) {
    match e
    case Join(d) => d != me
    case Act(d, _) => d != me
    case Gc(_) => true
  }

  ghost predicate AllForeign(run: seq<Event>, me: DevId) {
    forall i :: 0 <= i < |run| ==> IsForeign(run[i], me)
  }

  /** The writes of a document after its first `n` were all made by other devices. */
  ghost predicate OthersWrote(h: History, id: DocId, n: nat, me: DevId) {
    forall k :: n <= k < Ver(h, id) ==> h[id][k].writer != me
  }

  /** The documents only `me` knows stay unknown to the server, and nothing is written in its name. */
  ghost predicate LeftAlone(s: System, t: System, me: DevId) {
    && (me in s.devices <==> me in t.devices)
    && (me in s.devices ==> t.devices[me] == s.devices[me])
    && (forall id :: id in RowsOf(s, me) && id !in s.history ==> id !in t.history)
    && (forall id :: id in t.history ==> OthersWrote(t.history, id, Ver(s.history, id), me))
  }

  lemma ForeignStep(s: System, e: Event, me: DevId)
    requires Inv(s) && IsForeign(e, me)
    ensures LeftAlone(s, Next(s, e), me)
    ensures Next(s, e).tables.lastSeq <= s.tables.lastSeq + 1
  {
    hide ServerOk, DevOk, SupplyOk, DoAdd, DoFetch, DoApply, DoCopy, DoAdvance, DoAbandon, DoUpload, DoDownload, DoEvict, DoTouch;
    var t := Next(s, e);
    if e.Act? && e.action.Push? {
      ForeignPush(s, e.dev, e.action.id, e.action.delivered, me);
    } else if e.Act? {
      QuietStep(s, e.dev, e.action);
    }
  }

  /** Only a push changes the history. */
  lemma QuietStep(s: System, d: DevId, a: Action)
    requires !a.Push?
    ensures var t := Do(s, d, a);
      t.history == s.history && t.tables.lastSeq == s.tables.lastSeq
    ensures forall m :: m != d ==> (m in s.devices <==> m in Do(s, d, a).devices)
    ensures forall m :: m != d && m in s.devices ==> Do(s, d, a).devices[m] == s.devices[m]
  {
    hide PullItem, AddDocument, EditDocument, RemoveDocument, KeepDocument, IsPage, CanUpload, Pinned, CopyFields;
  }

  lemma ForeignPush(s: System, d: DevId, id: DocId, delivered: bool, me: DevId)
    requires OwnersOk(s) && d != me
    ensures LeftAlone(s, DoPush(s, d, id, delivered), me)
    ensures DoPush(s, d, id, delivered).tables.lastSeq <= s.tables.lastSeq + 1
  {
    hide MarkPushed;
  }

  lemma LeftAloneTransitive(s: System, t: System, u: System, me: DevId)
    requires LeftAlone(s, t, me) && LeftAlone(t, u, me) && Grows(s, t) && Grows(t, u)
    ensures LeftAlone(s, u, me)
  {
    forall id | id in u.history ensures OthersWrote(u.history, id, Ver(s.history, id), me) {
      assert Appended(t, u, id);
      if id in t.history {
        assert Appended(s, t, id);
      }
    }
  }

  lemma {:induction false} ForeignRun(s: System, run: seq<Event>, me: DevId)
    requires Inv(s) && AllForeign(run, me)
    ensures var t := RunFrom(s, run);
      Inv(t) && Grows(s, t) && LeftAlone(s, t, me) && t.tables.lastSeq <= s.tables.lastSeq + |run|
  {
    hide Inv, Grows, Next, LeftAlone;
    if run == [] {
      GrowsReflexive(s);
      LeftAloneReflexive(s, me);
    } else {
      var before := RunFrom(s, run[..|run| - 1]);
      var e := run[|run| - 1];
      ForeignRun(s, run[..|run| - 1], me);
      NextKeepsInv(before, e);
      ForeignStep(before, e, me);
      GrowsTransitive(s, before, Next(before, e));
      LeftAloneTransitive(s, before, Next(before, e), me);
    }
  }

  lemma LeftAloneReflexive(s: System, me: DevId)
    ensures LeftAlone(s, s, me)
  {
  }

  /** What the others do does not depend on what `me` holds. */
  lemma ForeignCommutes(s: System, e: Event, me: DevId, dev: Device)
    requires me !in s.devices && IsForeign(e, me)
    ensures me !in Next(s, e).devices && Next(With(s, me, dev), e) == With(Next(s, e), me, dev)
  {
    match e
    case Act(d, a) =>
      DoCommutes(s, d, a, me, dev);
    case Join(d) =>
      if d !in s.devices {
        WithSwap(s, d, NEW_DEVICE, me, dev);
      }
    case Gc(now) =>
  }

  lemma WithSwap(s: System, d: DevId, x: Device, e: DevId, y: Device)
    requires d != e
    ensures With(With(s, d, x), e, y) == With(With(s, e, y), d, x)
  {
    assert s.devices[d := x][e := y] == s.devices[e := y][d := x];
  }

  lemma WithTwice(s: System, d: DevId, x: Device, y: Device)
    ensures With(With(s, d, x), d, y) == With(s, d, y)
  {
    assert s.devices[d := x][d := y] == s.devices[d := y];
  }

  lemma DoCommutes(s: System, d: DevId, a: Action, me: DevId, dev: Device)
    requires me !in s.devices && d != me
    ensures me !in Do(s, d, a).devices && Do(With(s, me, dev), d, a) == With(Do(s, d, a), me, dev)
  {
    hide PullItem, AddDocument, EditDocument, RemoveDocument, KeepDocument, MarkPushed, IsPage, CanPush, CanUpload,
         Put, Delete, PutBlob, Pinned, CopyFields, NewRow;
    var u := Do(s, d, a);
    DoTouchesOne(s, d, a);
    if d in u.devices {
      WithSwap(s, d, u.devices[d], me, dev);
      assert u.devices == s.devices[d := u.devices[d]];
      assert u.devices[me := dev] == s.devices[me := dev][d := u.devices[d]];
      assert s.devices[me := dev][d := s.devices[d]] == s.devices[me := dev];
    }
  }

  lemma DoTouchesOne(s: System, d: DevId, a: Action)
    ensures d !in s.devices ==> Do(s, d, a) == s
    ensures d in s.devices ==> d in Do(s, d, a).devices && Do(s, d, a).devices == s.devices[d := Do(s, d, a).devices[d]]
  {
    hide PullItem, AddDocument, EditDocument, RemoveDocument, KeepDocument, MarkPushed, IsPage, CanPush, CanUpload;
  }

  lemma {:induction false} ForeignRunCommutes(s: System, run: seq<Event>, me: DevId, dev: Device)
    requires me !in s.devices && AllForeign(run, me)
    ensures me !in RunFrom(s, run).devices && RunFrom(With(s, me, dev), run) == With(RunFrom(s, run), me, dev)
  {
    hide Next;
    if run != [] {
      ForeignRunCommutes(s, run[..|run| - 1], me, dev);
      ForeignCommutes(RunFrom(s, run[..|run| - 1]), run[|run| - 1], me, dev);
    }
  }
}
