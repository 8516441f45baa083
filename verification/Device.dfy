/** One device: its local tables, its index, and what each local operation makes of them.
    Everything here is sequential; `Vault.dfy` has the methods that do it in place. */
module Device {
  import opened Types
  import opened Server
  import opened Changes
  import opened Index

  /** A row of the local `document` table. */
  datatype Row = Row(
    version: nat,
    base: nat,
    blobId: Option<BlobId>,
    blobSize: nat,
    encMeta: EncMeta,
    deleted: bool,
    dirty: bool,
    keepOffline: bool,
    updatedAt: nat)

  /** A row of the local `blob_cache` table, with the bytes of its file. */
  datatype CacheEntry = CacheEntry(size: nat, lastAccess: nat, content: CipherBlob)

  /** A conflicting edit between `apply_pulled_record` and `create_conflict_copy`. */
  datatype Pending = Pending(id: DocId, row: Row, summary: Summary)

  /** `inbox` and `pending` are what a running pull holds in memory: the page it is applying and
      the edit it is about to copy. A device that is not pulling has neither. */
  datatype Device = Device(
    rows: map<DocId, Row>,
    cursor: nat,
    index: seq<Summary>,
    cache: map<BlobId, CacheEntry>,
    inbox: Option<Page>,
    pending: Option<Pending>)
  {
    predicate Idle() { inbox == None && pending == None }
  }

  const NEW_DEVICE: Device := Device(map[], 0, [], map[], None, None)

  datatype Fields = Fields(
    title: string,
    tags: seq<string>,
    note: string,
    mime: string,
    originalName: string,
    keepOffline: bool)

  // ------------------------------------------------------------------ summaries ------------

  function ToSummary(id: DocId, row: Row, meta: DocMeta): Summary {
    Summary(id, meta.title, meta.tags, meta.note, meta.mime, meta.size, meta.contentHash,
            meta.originalName, meta.createdAt, row.version, row.dirty, row.keepOffline, row.blobSize)
  }

  /** `row_to_summary`: fails when the metadata was sealed for another id or version. */
  function Summarise(id: DocId, row: Row): Option<Summary> {
    var meta := Open(id, row.version, row.encMeta);
    if meta.Some? then Some(ToSummary(id, row, meta.value)) else None
  }

  // ------------------------------------------------------------------ local operations -----

  /** The metadata of a new document. Size and hash are those of the ciphertext, because the
      hashing writer sits below the encryptor. */
  function NewMeta(fields: Fields, content: CipherBlob, now: nat, thumb: Option<string>): DocMeta {
    DocMeta(fields.title, fields.tags, fields.note, fields.mime, content.Size(), Digest(content),
            fields.originalName, now, thumb)
  }

  function NewRow(id: DocId, b: BlobId, content: CipherBlob, fields: Fields, now: nat, nonce: nat, thumb: Option<string>): Row {
    Row(1, 0, Some(b), content.Size(), Seal(id, 1, nonce, NewMeta(fields, content, now, thumb)),
        false, true, fields.keepOffline, now)
  }

  /** `encrypt_new_document` and the index entry its callers push. */
  function AddDocument(dev: Device, id: DocId, b: BlobId, content: CipherBlob, fields: Fields, now: nat, nonce: nat,
                       thumb: Option<string>): Device {
    var row := NewRow(id, b, content, fields, now, nonce, thumb);
    dev.(rows := dev.rows[id := row],
         cache := dev.cache[b := CacheEntry(content.Size(), now, content)],
         index := dev.index + [ToSummary(id, row, NewMeta(fields, content, now, thumb))])
  }

  /** `update_meta`. */
  function EditDocument(dev: Device, id: DocId, title: string, tags: seq<string>, note: string, now: nat, nonce: nat): Option<Device> {
    if id !in dev.rows || dev.rows[id].deleted then None else
    var row := dev.rows[id];
    var current := Find(dev.index, id);
    var existing := Open(id, row.version, row.encMeta);
    if current.None? || existing.None? then None else
    var c := current.value;
    var meta := DocMeta(title, tags, note, c.mime, c.size, c.contentHash, c.originalName, c.createdAt, existing.value.thumb);
    var row' := row.(version := row.base + 1, dirty := true, updatedAt := now,
                     encMeta := Seal(id, row.base + 1, nonce, meta));
    Some(dev.(rows := dev.rows[id := row'], index := Replace(dev.index, ToSummary(id, row', meta))))
  }

  /** `delete`. */
  function RemoveDocument(dev: Device, id: DocId, now: nat, nonce: nat): Option<Device> {
    if id !in dev.rows || dev.rows[id].deleted then None else
    var row := dev.rows[id];
    var current := Find(dev.index, id);
    if current.None? then None else
    var c := current.value;
    var meta := DocMeta(c.title, c.tags, c.note, c.mime, c.size, c.contentHash, c.originalName, c.createdAt, None);
    var row' := row.(version := row.base + 1, dirty := true, deleted := true, blobId := None, blobSize := 0,
                     updatedAt := now, encMeta := Seal(id, row.base + 1, nonce, meta));
    Some(dev.(rows := dev.rows[id := row'], index := Retain(dev.index, id)))
  }

  /** `set_keep_offline`. */
  function KeepDocument(dev: Device, id: DocId, keep: bool): Option<Device> {
    if id !in dev.rows then None else
    var slot := Find(dev.index, id);
    Some(dev.(rows := dev.rows[id := dev.rows[id].(keepOffline := keep)],
              index := if slot.Some? then Replace(dev.index, slot.value.(keepOffline := keep)) else dev.index))
  }

  // ------------------------------------------------------------------ pulling --------------

  function PulledRow(dev: Device, item: Item, now: nat): Row {
    Row(item.rec.version, item.rec.version, item.rec.blobId, item.rec.blobSize, item.rec.encMeta, item.rec.deleted,
        false, item.id in dev.rows && dev.rows[item.id].keepOffline, now)
  }

  /** `apply_pulled_record`. */
  function ApplyRecord(dev: Device, item: Item, now: nat): Device {
    var row := PulledRow(dev, item, now);
    var stale := if item.id in dev.rows && dev.rows[item.id].blobId != item.rec.blobId then dev.rows[item.id].blobId else None;
    var summary := Summarise(item.id, row);
    dev.(rows := dev.rows[item.id := row],
         cache := if stale.Some? then dev.cache - {stale.value} else dev.cache,
         index := if !row.deleted && summary.Some? then Retain(dev.index, item.id) + [summary.value]
                  else Retain(dev.index, item.id))
  }

  predicate Conflicts(dev: Device, item: Item) {
    item.id in dev.rows && dev.rows[item.id].dirty && item.rec.version > dev.rows[item.id].base
  }

  predicate KeepsEdit(dev: Device, item: Item) {
    item.id in dev.rows && dev.rows[item.id].dirty && item.rec.version <= dev.rows[item.id].base
  }

  /** What `create_conflict_copy` has to preserve of an overwritten row: nothing of a tombstone. */
  function EditToCopy(id: DocId, row: Row, summary: Option<Summary>): Option<Pending> {
    if row.deleted || summary.None? || row.blobId.None? then None else Some(Pending(id, row, summary.value))
  }

  /** The three-way decision of `pull` on one item. A conflicting live edit is left pending. */
  function PullItem(dev: Device, item: Item, now: nat): Device {
    if KeepsEdit(dev, item) then dev
    else if Conflicts(dev, item) then
      ApplyRecord(dev, item, now).(pending := EditToCopy(item.id, dev.rows[item.id], Find(dev.index, item.id)))
    else ApplyRecord(dev, item, now)
  }

  function CopyTitle(title: string, today: string): string {
    title + " (copia in conflitto " + today + ")"
  }

  function CopyFields(p: Pending, today: string): Fields {
    Fields(CopyTitle(p.summary.title, today), p.summary.tags, p.summary.note, p.summary.mime, p.summary.originalName,
           p.row.keepOffline)
  }

  // ------------------------------------------------------------------ pushing --------------

  function PushedRow(row: Row, rec: Record): Row {
    row.(dirty := false, base := rec.version, version := rec.version, blobId := rec.blobId, blobSize := rec.blobSize,
         deleted := rec.deleted)
  }

  /** What `push_once` does with an applied write. */
  function MarkPushed(dev: Device, id: DocId, rec: Record): Device
    requires id in dev.rows
  {
    var slot := Find(dev.index, id);
    dev.(rows := dev.rows[id := PushedRow(dev.rows[id], rec)],
         index := if slot.Some? then Replace(dev.index, slot.value.(dirty := false, version := rec.version)) else dev.index)
  }

  // ------------------------------------------------------------------ the blob cache -------

  /** A row that protects its blob from eviction. */
  predicate Pins(row: Row, b: BlobId) {
    row.blobId == Some(b) && (row.keepOffline || row.dirty)
  }

  predicate Pinned(rows: map<DocId, Row>, b: BlobId) {
    exists id :: id in rows && Pins(rows[id], b)
  }
}
