/** The whole system: one server and any number of devices, changed one event at a time. */
module System {
  import opened Types
  import opened Server
  import opened Changes
  import opened Index
  import opened Device

  /** One accepted write of a document, and the device that made it. */
  datatype Entry = Entry(rec: Record, writer: DevId)

  type History = map<DocId, seq<Entry>>

  /** `history` and `contents` are the log of the run: every accepted write of every document, and
      the bytes first encrypted under every blob id. `supply` is the supply of new identifiers. */
  datatype System = System(
    tables: Tables,
    history: History,
    contents: map<BlobId, CipherBlob>,
    supply: nat,
    devices: map<DevId, Device>)

  const START: System := System(EMPTY, map[], map[], 0, map[])

  datatype Action =
    | Add(plain: Bytes, salt: nat, fields: Fields, now: nat, nonce: nat, thumb: Option<string>)
    | Edit(id: DocId, title: string, tags: seq<string>, note: string, now: nat, nonce: nat)
    | Remove(id: DocId, now: nat, nonce: nat)
    | Keep(id: DocId, keep: bool)
    | Fetch(limit: nat, page: Page)
    | Apply(now: nat)
    | Copy(today: string, salt: nat, now: nat, nonce: nat, thumb: Option<string>)
    | Advance
    | Abandon
    | Upload(id: DocId, now: nat)
    | Push(id: DocId, delivered: bool)
    | Download(blob: BlobId, now: nat)
    | Evict(blob: BlobId)
    | Touch(blob: BlobId, now: nat)

  datatype Event = Join(dev: DevId) | Act(dev: DevId, action: Action) | Gc(now: nat)

  function With(s: System, d: DevId, dev: Device): System {
    s.(devices := s.devices[d := dev])
  }

  function Past(h: History, id: DocId): seq<Entry> {
    if id in h then h[id] else []
  }

  /** The number of accepted writes of a document, which is its version on the server. */
  function Ver(h: History, id: DocId): nat {
    |Past(h, id)|
  }

  // ------------------------------------------------------------------ local steps ----------

  function DoAdd(s: System, d: DevId, plain: Bytes, salt: nat, fields: Fields, now: nat, nonce: nat, thumb: Option<string>): System {
    if d !in s.devices || !s.devices[d].Idle() then s else
    AddTo(s, d, s.devices[d], plain, salt, fields, now, nonce, thumb)
  }

  /** Encrypts `plain` as a new document of device `d`, whose state is otherwise `dev`. */
  function AddTo(s: System, d: DevId, dev: Device, plain: Bytes, salt: nat, fields: Fields, now: nat, nonce: nat,
                 thumb: Option<string>): System {
    var id, b := s.supply, s.supply + 1;
    var content := CipherBlob(id, plain, salt);
    With(s.(supply := s.supply + 2, contents := s.contents[b := content]), d,
         AddDocument(dev, id, b, content, fields, now, nonce, thumb))
  }

  /** A local operation that may be refused, in which case nothing changes. */
  function Locally(s: System, d: DevId, dev': Option<Device>): System {
    if dev'.Some? then With(s, d, dev'.value) else s
  }

  // ------------------------------------------------------------------ pulling --------------

  function DoFetch(s: System, d: DevId, limit: nat, page: Page): System {
    if d in s.devices && s.devices[d].Idle() && limit > 0 && IsPage(s.tables.docs, s.devices[d].cursor, limit, page)
    then With(s, d, s.devices[d].(inbox := Some(page)))
    else s
  }

  /** The next item of the page leaves the inbox and is applied. */
  function DoApply(s: System, d: DevId, now: nat): System {
    if d in s.devices && s.devices[d].inbox.Some? && s.devices[d].inbox.value.items != [] && s.devices[d].pending.None? then
      var page := s.devices[d].inbox.value;
      With(s, d, PullItem(s.devices[d].(inbox := Some(page.(items := page.items[1..]))), page.items[0], now))
    else s
  }

  /** `create_conflict_copy` once the old blob is in the cache. */
  function DoCopy(s: System, d: DevId, today: string, salt: nat, now: nat, nonce: nat, thumb: Option<string>): System {
    if d !in s.devices || s.devices[d].pending.None? then s else
    var dev := s.devices[d];
    var p := dev.pending.value;
    if p.row.blobId.None? || p.row.blobId.value !in dev.cache then s else
    var plain := dev.cache[p.row.blobId.value].content.Decrypt(p.id);
    if plain.None? then s else
    AddTo(s, d, dev.(pending := None), plain.value, salt, CopyFields(p, today), now, nonce, thumb)
  }

  function DoAdvance(s: System, d: DevId): System {
    if d in s.devices && s.devices[d].inbox.Some? && s.devices[d].inbox.value.items == [] && s.devices[d].pending.None?
    then With(s, d, s.devices[d].(cursor := s.devices[d].inbox.value.nextSince, inbox := None))
    else s
  }

  /** A pull that fails or is killed: the page and the pending copy are gone, the rows stay. */
  function DoAbandon(s: System, d: DevId): System {
    if d in s.devices then With(s, d, s.devices[d].(inbox := None, pending := None)) else s
  }

  // ------------------------------------------------------------------ pushing --------------

  function DoUpload(s: System, d: DevId, id: DocId, now: nat): System {
    if d in s.devices && s.devices[d].Idle() && id in s.devices[d].rows && CanUpload(s.devices[d], id) then
      var b := s.devices[d].rows[id].blobId.value;
      s.(tables := PutBlob(s.tables, b, s.devices[d].cache[b].content, now).0)
    else s
  }

  predicate CanUpload(dev: Device, id: DocId)
    requires id in dev.rows
  {
    var row := dev.rows[id];
    row.dirty && !row.deleted && row.base == 0 && row.blobId.Some? && row.blobId.value in dev.cache
  }

  predicate CanPush(dev: Device, id: DocId) {
    id in dev.rows && dev.rows[id].dirty && (dev.rows[id].deleted || dev.rows[id].blobId.Some?)
  }

  /** The request `push_once` makes for a dirty row, and the answer. */
  function PushReply(t: Tables, id: DocId, row: Row): (Tables, Reply)
    requires row.deleted || row.blobId.Some?
  {
    if row.deleted then Delete(t, id, row.base)
    else Put(t, id, row.base, PutBody(row.blobId.value, row.blobSize, row.encMeta))
  }

  /** The server's side of a write: an applied one goes into the history. */
  function Commit(s: System, writer: DevId, id: DocId, t: Tables, reply: Reply): System {
    s.(tables := t,
       history := if reply.Applied? then s.history[id := Past(s.history, id) + [Entry(reply.rec, writer)]] else s.history)
  }

  /** One dirty row is pushed; the reply may get lost after the server has applied the write. */
  function DoPush(s: System, d: DevId, id: DocId, delivered: bool): System {
    if d in s.devices && s.devices[d].Idle() && CanPush(s.devices[d], id) then
      var (t, reply) := PushReply(s.tables, id, s.devices[d].rows[id]);
      var s' := Commit(s, d, id, t, reply);
      if reply.Applied? && delivered then With(s', d, MarkPushed(s.devices[d], id, reply.rec)) else s'
    else s
  }

  // ------------------------------------------------------------------ cache and server -----

  function DoDownload(s: System, d: DevId, b: BlobId, now: nat): System {
    if d in s.devices && b in s.tables.blobs && b !in s.devices[d].cache then
      var content := s.tables.blobs[b].content;
      With(s, d, s.devices[d].(cache := s.devices[d].cache[b := CacheEntry(content.Size(), now, content)]))
    else s
  }

  function DoEvict(s: System, d: DevId, b: BlobId): System {
    if d in s.devices && !Pinned(s.devices[d].rows, b)
    then With(s, d, s.devices[d].(cache := s.devices[d].cache - {b}))
    else s
  }

  function DoTouch(s: System, d: DevId, b: BlobId, now: nat): System {
    if d in s.devices && b in s.devices[d].cache
    then With(s, d, s.devices[d].(cache := s.devices[d].cache[b := s.devices[d].cache[b].(lastAccess := now)]))
    else s
  }

  function Do(s: System, d: DevId, a: Action): System {
    match a
    case Add(plain, salt, fields, now, nonce, thumb) => DoAdd(s, d, plain, salt, fields, now, nonce, thumb)
    case Edit(id, title, tags, note, now, nonce) =>
      if d in s.devices && s.devices[d].Idle()
      then Locally(s, d, EditDocument(s.devices[d], id, title, tags, note, now, nonce)) else s
    case Remove(id, now, nonce) =>
      if d in s.devices && s.devices[d].Idle()
      then Locally(s, d, RemoveDocument(s.devices[d], id, now, nonce)) else s
    case Keep(id, keep) =>
      if d in s.devices && s.devices[d].Idle() then Locally(s, d, KeepDocument(s.devices[d], id, keep)) else s
    case Fetch(limit, page) => DoFetch(s, d, limit, page)
    case Apply(now) => DoApply(s, d, now)
    case Copy(today, salt, now, nonce, thumb) => DoCopy(s, d, today, salt, now, nonce, thumb)
    case Advance => DoAdvance(s, d)
    case Abandon => DoAbandon(s, d)
    case Upload(id, now) => DoUpload(s, d, id, now)
    case Push(id, delivered) => DoPush(s, d, id, delivered)
    case Download(b, now) => DoDownload(s, d, b, now)
    case Evict(b) => DoEvict(s, d, b)
    case Touch(b, now) => DoTouch(s, d, b, now)
  }

  /** One event. An event that is not possible in `s` leaves it as it is. */
  function Next(s: System, e: Event): System {
    match e
    case Join(d) => if d in s.devices then s else With(s, d, NEW_DEVICE)
    case Act(d, a) => Do(s, d, a)
    case Gc(now) => s.(tables := Sweep(s.tables, now))
  }

  function RunFrom(s: System, run: seq<Event>): System {
    if run == [] then s else Next(RunFrom(s, run[..|run| - 1]), run[|run| - 1])
  }

  /** The state after a whole run of events. */
  function Run(run: seq<Event>): System {
    RunFrom(START, run)
  }

  lemma OneMore(s: System, run: seq<Event>, e: Event)
    ensures RunFrom(s, run + [e]) == Next(RunFrom(s, run), e)
  {
    hide Next;
    assert (run + [e])[..|run + [e]| - 1] == run;
  }

  lemma {:induction false} RunConcat(s: System, a: seq<Event>, b: seq<Event>)
    ensures RunFrom(s, a + b) == RunFrom(RunFrom(s, a), b)
    decreases |b|
  {
    if b == [] {
      assert a + b == a;
    } else {
      var b0 := b[..|b| - 1];
      RunConcat(s, a, b0);
      assert (a + b)[..|a + b| - 1] == a + b0;
    }
  }
}
