/** A run of two devices that edit the same document: device 0 adds and pushes it, device 1 pulls it and
    never opens it, both edit it, and device 0 is the first to push. */
module Crossing {
  import opened Types
  import opened Server
  import opened Changes
  import opened Index
  import opened Device
  import opened System
  import opened Invariant
  import opened Preservation
  import opened Runs
  import opened Foreign
  import opened Theorems

  const FIELDS: Fields := Fields("plan", [], "", "text/plain", "plan.txt", false)

  function Content(plain: Bytes): CipherBlob {
    CipherBlob(0, plain, 0)
  }

  function FirstRecord(plain: Bytes): Record {
    Record(1, Some(1), Content(plain).Size(), Seal(0, 1, 0, NewMeta(FIELDS, Content(plain), 0, None)), false, 1)
  }

  function Added(plain: Bytes): seq<Event> {
    [Join(0), Join(1), Act(0, Add(plain, 0, FIELDS, 0, 0, None))]
  }

  function Published(plain: Bytes): seq<Event> {
    Added(plain) + [Act(0, Upload(0, 0)), Act(0, Push(0, true))]
  }

  function FirstPage(plain: Bytes): Page {
    Page([Item(0, FirstRecord(plain))], 1, false)
  }

  function Pulled(plain: Bytes): seq<Event> {
    Published(plain) + [Act(1, Fetch(PAGE_LIMIT, FirstPage(plain))), Act(1, Apply(0)), Act(1, Advance)]
  }

  const MINE: Event := Act(1, Edit(0, "mine", [], "", 1, 1))
  const THEIRS: Event := Act(0, Edit(0, "theirs", [], "", 1, 0))

  function BothEdited(plain: Bytes): seq<Event> {
    Pulled(plain) + [MINE, THEIRS]
  }

  function Crossed(plain: Bytes): seq<Event> {
    BothEdited(plain) + [Act(0, Push(0, true))]
  }

  lemma TwoSteps(run: seq<Event>, a: Event, b: Event)
    ensures Run(run + [a, b]) == Next(Next(Run(run), a), b)
  {
    hide Next, Run;
    RunStep(run, a);
    RunStep(run + [a], b);
    assert run + [a, b] == run + [a] + [b];
  }

  lemma ThreeSteps(run: seq<Event>, a: Event, b: Event, c: Event)
    ensures Run(run + [a, b, c]) == Next(Next(Next(Run(run), a), b), c)
  {
    hide Next, Run;
    TwoSteps(run, a, b);
    RunStep(run + [a, b], c);
    assert run + [a, b, c] == run + [a, b] + [c];
  }

  lemma AddedState(plain: Bytes)
    ensures var s := Run(Added(plain));
      && s.tables == EMPTY && s.history == map[] && 0 in s.devices && 1 in s.devices && s.devices[1] == NEW_DEVICE
      && s.devices[0] == AddDocument(NEW_DEVICE, 0, 1, Content(plain), FIELDS, 0, 0, None)
  {
    ThreeSteps([], Join(0), Join(1), Act(0, Add(plain, 0, FIELDS, 0, 0, None)));
    assert [] + Added(plain) == Added(plain);
    assert Run([]) == START;
  }

  /** Device 0 has pushed the new document. */
  lemma PublishedState(plain: Bytes)
    ensures var s := Run(Published(plain));
      && s.tables == Tables(map[0 := FirstRecord(plain)], map[1 := StoredBlob(Content(plain), 0)], 1)
      && s.history == map[0 := [Entry(FirstRecord(plain), 0)]]
      && 0 in s.devices && 1 in s.devices && s.devices[1] == NEW_DEVICE && s.devices[0].Idle()
      && s.devices[0].rows == map[0 := PushedRow(NewRow(0, 1, Content(plain), FIELDS, 0, 0, None), FirstRecord(plain))]
  {
    hide Run, NewMeta, Find, Replace;
    AddedState(plain);
    TwoSteps(Added(plain), Act(0, Upload(0, 0)), Act(0, Push(0, true)));
    var first := Entry(FirstRecord(plain), 0);
    assert [] + [first] == [first];
  }

  /** Device 1 has pulled it: it has the row, and not the blob. */
  lemma PulledState(plain: Bytes)
    ensures var s, was := Run(Pulled(plain)), Run(Published(plain));
      && s.tables == was.tables && s.history == was.history && 0 in s.devices && 0 in was.devices && s.devices[0] == was.devices[0]
      && 1 in s.devices && s.devices[1].Idle() && s.devices[1].cache == map[] && s.devices[1].cursor == 1
      && s.devices[1].rows == map[0 := PulledRow(NEW_DEVICE, Item(0, FirstRecord(plain)), 0)]
  {
    hide Run, NewMeta, Retain, Summarise;
    PublishedState(plain);
    var page := FirstPage(plain);
    assert Stored(Run(Published(plain)).tables.docs, 0, 1, page.items[0]);
    assert page.items[1..] == [];
    ThreeSteps(Published(plain), Act(1, Fetch(PAGE_LIMIT, page)), Act(1, Apply(0)), Act(1, Advance));
  }

  /** A pending edit, based on version 1, of the one document there is. */
  predicate EditOfFirst(plain: Bytes, row: Row, title: string) {
    && row.dirty && !row.deleted && row.base == 1 && row.version == 2 && !row.keepOffline
    && row.blobId == Some(1) && row.blobSize == Content(plain).Size() && row.encMeta.plain.title == title
  }

  lemma OneEdit(run: seq<Event>, plain: Bytes, d: DevId, title: string, nonce: nat)
    requires d in Run(run).devices && Run(run).devices[d].Idle() && 0 in Run(run).devices[d].rows
    requires var row := Run(run).devices[d].rows[0];
      !row.deleted && row.base == 1 && !row.keepOffline && row.blobId == Some(1) && row.blobSize == Content(plain).Size()
    ensures var s, t := Run(run), Next(Run(run), Act(d, Edit(0, title, [], "", 1, nonce)));
      && d in t.devices && t == s.(devices := s.devices[d := t.devices[d]])
      && 0 in t.devices[d].rows && t.devices[d].rows == s.devices[d].rows[0 := t.devices[d].rows[0]]
      && t.devices[d] == s.devices[d].(rows := t.devices[d].rows, index := t.devices[d].index)
      && EditOfFirst(plain, t.devices[d].rows[0], title)
  {
    hide Run;
    LiveRowsCanChange(run, d, 0, title, [], "", 1, nonce);
    EditIsExact(run, d, 0, title, [], "", 1, nonce);
  }

  lemma BothEditedState(plain: Bytes)
    ensures var s, was := Run(BothEdited(plain)), Run(Published(plain));
      && s.tables == was.tables && s.history == was.history
      && 0 in s.devices && s.devices[0].Idle() && 0 in s.devices[0].rows && EditOfFirst(plain, s.devices[0].rows[0], "theirs")
      && 1 in s.devices && s.devices[1].Idle() && s.devices[1].cache == map[] && s.devices[1].cursor == 1
      && 0 in s.devices[1].rows && s.devices[1].rows == map[0 := s.devices[1].rows[0]]
      && EditOfFirst(plain, s.devices[1].rows[0], "mine")
  {
    hide Run, Next, EditOfFirst;
    PublishedState(plain);
    PulledState(plain);
    var run := Pulled(plain);
    OneEdit(run, plain, 1, "mine", 1);
    RunStep(run, MINE);
    OneEdit(run + [MINE], plain, 0, "theirs", 0);
    RunStep(run + [MINE], THEIRS);
    assert BothEdited(plain) == run + [MINE] + [THEIRS];
  }

  /** Device 0 was faster: device 1 is left with an edit the server has overtaken. */
  lemma CrossedState(plain: Bytes)
    ensures var s := Run(Crossed(plain));
      && s.tables.docs.Keys == {0} && s.tables.blobs == map[1 := StoredBlob(Content(plain), 0)] && s.history.Keys == {0}
      && s.tables.docs[0].version == 2 && s.tables.docs[0].seqNo == 2 && s.tables.docs[0].blobId == Some(1)
      && s.tables.docs[0].encMeta.plain.title == "theirs"
      && Ver(s.history, 0) == 2 && s.history[0][1].writer == 0
      && 1 in s.devices && s.devices[1].Idle() && s.devices[1].cache == map[] && s.devices[1].cursor == 1
      && 0 in s.devices[1].rows && s.devices[1].rows == map[0 := s.devices[1].rows[0]]
      && EditOfFirst(plain, s.devices[1].rows[0], "mine")
  {
    hide Run, MarkPushed;
    PublishedState(plain);
    BothEditedState(plain);
    RunStep(BothEdited(plain), Act(0, Push(0, true)));
  }
}
