# Scrigno: sync protocol, blob format and text codecs

Scrigno keeps documents on any number of devices and one server that only ever sees ciphertext. This
project models the parts of it where many pieces have to fit together, and proves what they promise.

## The sync protocol

`System.dfy` is the whole system as a state and a list of events: the server's two tables and sequence
counter, and for every device its rows, cursor, index and blob cache. An event is one step of one device
(add, edit, delete, keep offline, fetch a page, apply one item of it, make a conflict copy, advance the
cursor, give a pull up, upload a blob, push one row with or without the reply arriving, download, evict,
open) or a blob sweep of the server. `Run(run)` is the state after a list of events; every theorem about
runs holds for every such list, so for every interleaving, lost reply and aborted pull. The state also
carries a log, the history of accepted writes of every document and who made them, and the bytes first
encrypted under every blob id.

- `Invariant.dfy`, `Preservation.dfy`, `Runs.dfy`: one invariant over server, history and devices, kept by
  every event.
- `Theorems.dfy`: what follows for every run. `Hazards.dfy`: ordinary uses that end badly, each with the
  exact condition; `Crossing.dfy`: a run of two devices that leads to the last of them.
- `Server.dfy`, `Changes.dfy`, `Upload.dfy`: the handlers, in place, against the functions the events use.
- `Vault.dfy`: class `UnlockedVault`, the local operations and the sync engine in place. Everybody else is
  behind class `Network` (`Network.dfy`), which may let any events of the others happen before each
  request and may fail any request. Each method states what it does and that the whole system, this vault
  included, is still the result of a run (`Valid`), so whatever holds of runs holds of the vault.
  In a `reliable` network no request fails and the clock goes forward; in one that is `alone` nobody else
  acts; `solo` is both. How an operation ends is stated for every reliable network, whoever else writes;
  that a sync needs one round only, where it is `solo`.
- `Obstacles.dfy`: what can still stop a sync when every request is answered: a row the server refuses, or the
  blob of an edit to be copied that cannot be had. A sync is `Clear` if its stretch of the run has neither.
- `Cache.dfy`, `Sums.dfy`: the blob cache, what an eviction pass takes and what survives it. `Room.dfy`: what
  each step of a pull does to the pinned part of the cache, and so when its conflict copies fit.
- `Edits.dfy`, `Foreign.dfy`, `Others.dfy`, `Steps.dfy`, `Pulling.dfy`, `Pushing.dfy`, `Rounds.dfy`: where
  a pending edit can be, what others can do meanwhile, and how far a pull, a push and a sync have come.

Cryptography is ideal here. A blob (`CipherBlob`) is its plaintext together with the document it was
encrypted for and a salt that makes it unique; sealed metadata (`EncMeta`) is its plaintext together with
the document and version; a digest is what it was taken of.

## The blob format

`BlobFormat.dfy` has the bytes of an SCRG file, `BlobEncryptor.dfy` and `BlobDecryptor.dfy` the two
streaming adapters over writers and readers that may fail and readers that may return less than asked for.
The primitives are arbitrary functions on bytes under `Ideal`: under a data key exactly the segments of the
one blob sealed with it open, each in its place, and a wrapped key unwraps only for its document.
`IdealIsPossible` says for which blobs this can be met.

## Text codecs

`Codec.dfy`, `Base64.dfy`, `Recovery.dfy`: the loops that shift bits through an unmasked 32-bit accumulator,
against one number written in base 256 and in base 32, and the recovery codes on top of them. `Bits.dfy` says
the same bit by bit.

## Where code and documentation differ

The model follows the code.

- `DocMeta.size` and `content_hash` are documented as those of the plaintext (docs/CRYPTO.md:102). The
  hashing writer sits below the encryptor (crates/scrigno-client/src/vault.rs:683-701), so they are those
  of the ciphertext: `Theorems.MetadataDescribesCiphertext`.
- A tombstone on the server is documented to keep the metadata so that others can show what was deleted
  (docs/ARCHITECTURE.md:98). It keeps the metadata of the version before under a bumped version, which
  nobody can open: `Theorems.TombstoneMetadataUnreadable`.
- A server rollback is documented to show up as `server_seq` going backwards (docs/CRYPTO.md:223). A page
  only ever holds records beyond the cursor, so the warning in `pull` is never given:
  `Changes.NoPageShowsARollback`.
- Sync is documented to converge when run again. A document deleted before its first push makes every later
  sync fail, because the server answers 404 to a DELETE of what it never knew:
  `Hazards.NotFoundIffOrphan`, `Hazards.OrphansStay`, and the `NoOrphans` clause of `Sync`. And a pull that
  has to copy an edit downloads its blob into the cache first; if the blob does not fit beside what is pinned
  and is not pinned itself, the eviction pass of that very download takes it, the pull fails, and the edit,
  whose row is already overwritten, is gone: `Hazards.CopyMayNotFit`, `Hazards.CrossedEditIsLost`, and the
  `CopiesFit` clauses of `Sync`. Alone there is no third cause.
- `Contention` is documented as one document losing its race in three rounds in a row
  (crates/scrigno-client/src/sync.rs:32-33). The rounds may be lost with different documents: the Contention
  clause of `Sync`.
- `SyncReport.conflicts` counts the pending rows that were overwritten, deletions included, not the copies
  made.
- `crockford_decode` is documented for upper case only and takes lower case too; it also takes texts no
  encoder writes (`Codec.CanonicalIffShort`), and so does `base64_decode` (`Base64.CanonicalIff`).

## Model

| member | source | states |
|---|---|---|
| Runs.NextKeepsInv | crates/scrigno-client/src/sync.rs:96-121 | Every event of every device and of the server keeps the global invariant and only appends to the history. |
| Runs.RunKeepsInv | crates/scrigno-client/src/sync.rs:36-54 | The invariant holds after every run of events. |
| Runs.PushAnswer | crates/scrigno-server/src/routes/docs.rs:97-177 | In every reachable state, exactly when a push of a dirty row is applied, mismatched, without its blob, or unknown; an applied one makes the record the row announced. |
| Theorems.CursorCovers | crates/scrigno-client/src/sync.rs:57-164 | Every server document numbered up to a device's cursor has a row there based on its current version, and no row is based on a version the server does not have. |
| Theorems.BasesNeverDecrease | crates/scrigno-client/src/sync.rs:117-118 | Over any run a device's cursor and the base version of each of its rows only move forward, and rows never disappear. |
| Theorems.CursorAtTheEnd | crates/scrigno-client/src/sync.rs:117-121 | A device whose cursor has reached the last number in use knows the current version of every document. |
| Theorems.MirrorsServer | crates/scrigno-client/src/sync.rs:131-164 | A clean, up-to-date device has exactly the server's documents, with the server's version, blob, size, deletion flag and, if live, metadata. |
| Theorems.Convergence | crates/scrigno-client/src/sync.rs:96-121 | Two clean, up-to-date devices agree on every document and, but for the local keep-offline flag, on the whole index, whatever runs led there. |
| Theorems.IndexShowsRows | crates/scrigno-client/src/vault.rs:366-404 | In every reachable state the index has each live document exactly once and nothing else, and every entry has, field by field, the opened metadata of its row and the version, the dirty and keep-offline flags and the size of the row. |
| Theorems.HistoryIsUnbroken | crates/scrigno-server/src/routes/docs.rs:97-130 | The versions of a document are numbered without a gap, each is one record that never changes in any continuation, live ones share one blob, and only the last can be a tombstone. |
| Theorems.TombstonesAreFinal | crates/scrigno-server/src/routes/docs.rs:99-109 | A deleted document stays as it is in every continuation, although an accepted PUT sets `deleted = false`. |
| Theorems.MetadataBound | crates/scrigno-client/src/vault.rs:891-916 | Every live row and live server record opens under its own id and version; clean rows have the version of their base, dirty rows one more, after any edits, pushes, pulls and lost replies. |
| Theorems.TombstoneMetadataUnreadable | crates/scrigno-server/src/routes/docs.rs:144-156 | The metadata that comes with a server record fails to open under its version if and only if the record is a tombstone. |
| Theorems.MetadataDescribesCiphertext | crates/scrigno-client/src/vault.rs:683-717 | Size and hash in the metadata of a live row are those of the ciphertext, so the size exceeds the plaintext's. |
| Theorems.LiveRowsCanChange | crates/scrigno-client/src/vault.rs:868-889 | In every reachable state editing and deleting succeed if and only if the device has a live row: no index entry or metadata is ever missing. |
| Theorems.EditIsExact | crates/scrigno-client/src/vault.rs:879-928 | An edit replaces title, tags and note in the sealed metadata, keeps the rest, thumbnail included, though most of it is taken from the index, and makes the row dirty at the version after its base, changed now. |
| Theorems.RemoveIsExact | crates/scrigno-client/src/vault.rs:937-978 | A deletion leaves a pending tombstone at the version after its base, changed now, without a blob, with the metadata but the thumbnail, and takes exactly its entry out of the index. |
| Theorems.NeverPushedIsCached | crates/scrigno-client/src/store.rs:282-296 | The blob of a live document that was never pushed is always cached, whole and decryptable, however small the cache limit. |
| Foreign.ForeignRun | crates/scrigno-client/src/sync.rs:222-286 | Whatever the others do leaves a device's documents unknown to the server unknown, writes nothing in its name and leaves the device as it is. |
| Edits.CopyPreserves | crates/scrigno-client/src/sync.rs:194-217 | A conflict copy has the plaintext bytes, tags, note, mime, name and keep-offline flag of the edit under its title followed by " (copia in conflitto ", the date and ")", as a new document never pushed. |
| Edits.PushKeepsSafe | crates/scrigno-client/src/sync.rs:266-278 | When the server accepts a row, every edit that was on the device or on the server still is on one of them. |
| Hazards.NotFoundIffOrphan | crates/scrigno-server/src/routes/docs.rs:165-175 | The server answers "not found" to a push if and only if it is of a deletion of a document it never knew. |
| Hazards.OrphansStay | crates/scrigno-client/src/sync.rs:240-241 | Such a pending deletion stays in every continuation, so that no later sync of the device can succeed. |
| Hazards.AddThenRemove | crates/scrigno-client/src/vault.rs:937-978 | Adding a document and deleting it before the next sync leads there from every reachable state. |
| Hazards.LostReplyLooksLikeAConflict | crates/scrigno-client/src/sync.rs:97-106 | After an applied write whose reply was lost, pushing again is a version mismatch and pulling is a conflict, with the device's own write. |
| Hazards.MismatchIffOvertaken | crates/scrigno-server/src/routes/docs.rs:122-129 | A push is a version mismatch if and only if the server is past the row's base, unless the blob of a live row is gone. |
| Hazards.FailedCopyDropsTheEdit | crates/scrigno-client/src/sync.rs:103-104 | After a pull that fails between taking the record and copying, a live row carries the edit if and only if the record is that very edit. |
| Hazards.CopyMayNotFit | crates/scrigno-client/src/vault.rs:846-853 | Two devices edited one document, the slower one never had its blob, there is no orphan: the copies of its pull fit if and only if the cache limit is at least the size of the blob. |
| Hazards.CrossedEditIsLost | crates/scrigno-client/src/sync.rs:97-105 | In the pull that follows the edit is overtaken by the other device, its blob can be had for the copy exactly under that condition, and if the copy is not made no row has the edit any more or is pending. |
| Server.DocServer.HandlePutDoc | crates/scrigno-server/src/routes/docs.rs:36-130 | Done in place: not found without the blob row; a create of a known document is a mismatch that uses up a number; the right version is replaced by the next one under a new number; anything else is a mismatch with the current record and changes nothing. The references stay intact. |
| Server.DocServer.HandleDeleteDoc | crates/scrigno-server/src/routes/docs.rs:134-177 | The same for deletions: a tombstone under the next version with the old metadata, a mismatch with the current record, or not found. |
| Server.DocServer.HandlePutBlob | crates/scrigno-server/src/routes/blobs.rs:36-141 | Without the declared length, with another one, or too large, an upload leaves no trace; the first complete upload of an id is created, the same content again is accepted, other content refused; if nothing fails exactly one of these answers is given, by conditions on the request, the limit and the table; a failure leaves the tables as they were and at most one object too many. |
| Server.DocServer.HandleSweep | crates/scrigno-server/src/gc.rs:51-91 | Exactly the rows of blobs older than 86,400 seconds that no live document refers to go; their number is returned; only objects of those rows are deleted, all of them if no deletion fails. |
| Server.DocServer.SelectSweepable | crates/scrigno-server/src/gc.rs:54-66 | The query selects a blob row if and only if it is older than 86,400 seconds and no live document has it; without those rows the references still hold. |
| Server.ReferencesAlwaysHold | crates/scrigno-server/src/gc.rs:54-77 | Over all sequences of requests every live document has an existing blob row and every tombstone none, so the foreign key is never violated. |
| Server.SweepIsExact | crates/scrigno-server/src/gc.rs:54-77 | A sweep removes a blob if and only if it was recorded more than 86,400 seconds ago and no live document refers to it, and changes no other. |
| Server.BlobsAreWriteOnce | crates/scrigno-server/src/routes/blobs.rs:97-140 | Over any sequence of requests the recorded content and date of a blob never change while its row exists. |
| Upload.StreamIntoUpload | crates/scrigno-server/src/routes/blobs.rs:146-182 | An accepted body is stored and hashed whole and in order, in full parts; it is refused if and only if it is too large, and never more than the limit is stored. |
| Changes.ListChanges | crates/scrigno-server/src/routes/changes.rs:25-60 | The answer is the one page there is for the limit asked for, or for 100; a limit outside 1 to 500 is refused. |
| Changes.PageUnique | crates/scrigno-server/src/routes/changes.rs:33-59 | Table, start and limit determine the page: its items, where to go on, and whether there is more. |
| Changes.FollowPages | crates/scrigno-server/src/routes/changes.rs:53-59 | Following `next_since` with any limits ends, and the pages joined are the one sorted listing of everything beyond the start. |
| Changes.NoPageShowsARollback | crates/scrigno-client/src/sync.rs:71-78 | No page answered to a cursor holds a record numbered below it, so the rollback warning cannot be given. |
| Vault.UnlockedVault.constructor | crates/scrigno-client/src/vault.rs:321-338 | A new vault is a new device of the run: an empty store with the cursor at 0 and a cache limit of 512 MB. |
| Vault.UnlockedVault.AddDocument | crates/scrigno-client/src/vault.rs:616-638 | The new row, its sealed metadata and its index entry, field by field; the document is never pushed, its bytes are cached even after the eviction pass, and that pass brought the cache within the limit or down to its pinned blobs. |
| Vault.UnlockedVault.EncryptNewDocument | crates/scrigno-client/src/vault.rs:663-742 | Row, metadata and cache entry of a new document, and an eviction pass that takes no pinned blob and leaves the cache within the limit or only pinned blobs. |
| Vault.UnlockedVault.UpdateMeta | crates/scrigno-client/src/vault.rs:861-929 | It succeeds if and only if the document is live. Then row, sealed metadata and the returned summary, which says dirty, are given field by field and no other index entry changes; else nothing changes and the error is "not found". |
| Vault.UnlockedVault.DeleteDocument | crates/scrigno-client/src/vault.rs:937-978 | It succeeds if and only if the document is live. Then the row is the pending tombstone, given field by field, and exactly its index entry is gone; else nothing changes and the error is "not found". |
| Vault.UnlockedVault.SetKeepOffline | crates/scrigno-client/src/vault.rs:985-993 | It succeeds if and only if the row exists; the flag and nothing else of the row changes, and no other index entry. |
| Vault.UnlockedVault.RebuildIndex | crates/scrigno-client/src/vault.rs:346-363 | In every reachable state rebuilding skips no document and gives the incrementally kept index up to order. |
| Vault.UnlockedVault.OpenDocument | crates/scrigno-client/src/vault.rs:809-825 | What is read is the plaintext first encrypted for the document by whichever device, and its blob is then the one accessed last; a cached live document always opens; if requests do not fail an uncached one opens if and only if it is stored and survives the eviction pass of its own download. |
| Vault.UnlockedVault.EnsureCached | crates/scrigno-client/src/vault.rs:829-854 | No pinned blob is lost and the pinned bytes grow by the blob's if it is pinned; if requests do not fail it succeeds if and only if the blob is cached or stored when asked for, at a given place of the run, and a download is still there afterwards if and only if it survives its own eviction pass, which ends within the limit or with pinned blobs only. |
| Vault.UnlockedVault.EvictCacheOverLimit | crates/scrigno-client/src/vault.rs:747-764 | Exactly the shortest least-recently-used prefix of the unpinned blobs goes that brings the true total within the limit, or all of them: what goes no dirty or keep-offline row has, what stays unpinned was not accessed earlier, and without the last one taken the limit was still exceeded. |
| Vault.UnlockedVault.SetCacheLimitMb | crates/scrigno-client/src/vault.rs:798-801 | Afterwards the cache fits the limit or only pinned blobs are left, and no pinned one was lost. |
| Cache.CacheTotalSize | crates/scrigno-client/src/store.rs:271-277 | The sum of the sizes of all cache rows. |
| Cache.CacheEvictableByLru | crates/scrigno-client/src/store.rs:282-296 | Every cached blob that no dirty or keep-offline row refers to, once, oldest access first. |
| Cache.EvictsUnique | crates/scrigno-client/src/vault.rs:748-762 | How many blobs an eviction pass removes is determined. |
| Steps.EvictionInFull | crates/scrigno-client/src/vault.rs:747-764 | What any pass leaves: entries as they were, every blob taken unpinned and accessed no later than any unpinned one left, the limit met or only pinned blobs left, and not met before the last one was taken. |
| Cache.SurvivesIff | crates/scrigno-client/src/vault.rs:753-762 | A blob survives a pass if and only if the cache fits without the blobs accessed before it. |
| Cache.NewestSurvivesIff | crates/scrigno-client/src/vault.rs:846-853 | A blob accessed last survives the pass after its own download if and only if it fits next to the pinned ones. |
| Cache.DownloadSurvivesIff | crates/scrigno-client/src/vault.rs:846-853 | A blob downloaded later than everything cached was accessed is there after the eviction pass if and only if it is pinned or fits beside the pinned blobs, whatever the order of equally old ones. |
| Vault.UnlockedVault.ApplyPulledRecord | crates/scrigno-client/src/sync.rs:131-164 | The row is the record, clean, with the keep-offline flag it had; of the cache exactly the row's former blob goes, if the record has another or none; no other index entry changes; and row, cache and index are those of the protocol's step. |
| Vault.UnlockedVault.CreateConflictCopy | crates/scrigno-client/src/sync.rs:178-218 | On success a pending live edit is held by one new row, unknown to everybody, nothing else changed, and the pinned bytes grew by exactly the copy and a pinned download; if requests do not fail it succeeds if and only if nothing is pending, or the old blob is cached, or it is stored when asked for and survives the eviction pass of its own download, and that is the one obstacle the run can have here. |
| Vault.UnlockedVault.Overwrite | crates/scrigno-client/src/sync.rs:97-103 | The first half of a conflict: the row is the server's, the edit is pending, and whether its blob can now be had is decided by the room there was before. |
| Pulling.CopyRoom | crates/scrigno-client/src/sync.rs:97-105 | In every reachable state with an overtaken edit at the head of the inbox there is room for its copy if and only if, once the record has been taken, the old blob is cached or can be fetched and stays. |
| Room.PinnedAfterItem | crates/scrigno-client/src/sync.rs:80-114 | One item later the bytes foreseen to be pinned at any later item are as foreseen before, up to blobs that linger. |
| Room.FitAfterItem | crates/scrigno-client/src/sync.rs:80-114 | Copies that are sure to fit are still sure to after one item, and if the rest can fit then all could. |
| Room.FitIsCertain | crates/scrigno-client/src/vault.rs:747-764 | With no lingering blob of a deletion that is given up, sure and possible fit are the same. |
| Vault.UnlockedVault.TakeItem | crates/scrigno-client/src/sync.rs:80-114 | After the three-way decision every edit of the pull's start is still held, unchanged or as its own new copy, the row of the item is as new as the item, and the pinned bytes changed exactly as foreseen; if requests do not fail it succeeds if and only if it meets no obstacle, and alone if and only if an overtaken edit has room for its copy; a failure drops that edit alone. |
| Vault.UnlockedVault.TakeQuietly | crates/scrigno-client/src/sync.rs:86-96 | An item that is no conflict never fails: a pending edit the record does not overtake stays, and any other row becomes the record; no edit is lost and the pinned bytes change as foreseen. |
| Vault.UnlockedVault.TakePage | crates/scrigno-client/src/sync.rs:71-115 | The same for a whole page, with the exact count of items and of overwritten rows; after the last page every row is based on the history as read; a failure drops at most one edit, and if requests do not fail it fails if and only if there is an obstacle. |
| Vault.UnlockedVault.PullPage | crates/scrigno-client/src/sync.rs:62-121 | A page is read, taken in and passed, and the cursor moves on if there is more; if requests do not fail it succeeds if and only if it meets no obstacle; copies that are sure to fit at the start make it succeed alone. |
| Vault.UnlockedVault.Pull | crates/scrigno-client/src/sync.rs:57-125 | It ends. On success every live edit is held, unchanged or as a new document of its own, every row has the base it should have at the last page, whose place in the run is given, pulled counts the items applied in the run and conflicts the overwritten pending rows; a failure drops at most one edit, an overtaken one. If requests do not fail it succeeds, whoever else writes, if and only if no copy of it meets a blob that cannot be had; alone, if its copies surely fit and only if they possibly do. |
| Vault.UnlockedVault.ListDirty | crates/scrigno-client/src/store.rs:195-204 | All dirty rows, each once, oldest change first. |
| Vault.UnlockedVault.UploadBlobOf | crates/scrigno-client/src/sync.rs:255-258 | Uploading writes no document; it fails only if a request does; alone, the blob of the never-pushed row is on the server afterwards. (It is always on the device, and never differs from one stored under its id.) |
| Vault.UnlockedVault.PushRow | crates/scrigno-client/src/sync.rs:228-282 | At the given place of the write in the run: applied if and only if the server is at the row's base and has the blob of a live row; in conflict if and only if it is past the base and has the blob; an error, if requests do not fail, if and only if the row deletes a document the server never knew or the blob of a live row is gone. Applied means the row is clean at its next version; after a conflict it is unchanged, and nothing since the call was written by this device; every edit stays on the device or on the server. |
| Pushing.AnswerDecided | crates/scrigno-server/src/routes/docs.rs:70-177 | In every reachable state the answer to a push is applied, a mismatch, or a refusal by the base of the row, the number of accepted writes of its document, and whether the blob of a live row is stored. |
| Obstacles.NextPushed | crates/scrigno-client/src/sync.rs:222-286 | One push later the pushes in the run are one further along the list, and the stretch is still without an obstacle if and only if the server did not refuse this row. |
| Vault.UnlockedVault.PushOnce | crates/scrigno-client/src/sync.rs:222-286 | The documents whose turn it was are the dirty rows, each once, oldest change first, and the pushes in the run are these in this order. A row left dirty lost the next version of its document to a write of somebody else after the last page was read; there is a conflict to report if and only if there is one; the number of rows pushed is exact. If requests do not fail it succeeds, whoever else writes, if and only if the server refused none; alone, with every row up to date and no orphan, nothing is left dirty. |
| Vault.UnlockedVault.PrefetchKeepOffline | crates/scrigno-client/src/sync.rs:289-306 | On success the blob of every live keep-offline row is cached, although each download may evict; if requests do not fail it fails only if the blob of such a row is neither cached nor stored. |
| Vault.UnlockedVault.SyncRound | crates/scrigno-client/src/sync.rs:39-50 | One pull and one push, as a round at given places of the run: it leaves nothing dirty, or lost a document to somebody else between its last page and the end of its push, or failed; if requests do not fail, it failed if and only if it met an obstacle. All three counts go on. |
| Vault.UnlockedVault.Sync | crates/scrigno-client/src/sync.rs:36-54 | Whatever happens, every edit of the start but at most one is on the device or on the server, under its id or as one new document that is its copy alone, and the one is an overtaken edit whose copy a failed pull could not make. Ok means nothing is dirty, every edit is on the server, offline blobs are cached, after one to three rounds of which all but the last were lost, and pulled, conflicts and pushed count the items taken, rows overwritten and rows accepted between the recorded places of the rounds. Contention means three rounds, one after the other in the run, in each of which somebody else wrote the next version of a document this device set out to push, after the last page and before the push was done. If requests do not fail, whoever else writes: Ok or Contention means that no obstacle was met, and any other end that one was, or that in the end the blob of a document to be kept offline was neither cached nor stored. Alone one round suffices, and it is Ok if and only if there is no orphan and every conflict copy fits the cache in its turn. |
| Rounds.SafeAfterPull | crates/scrigno-client/src/sync.rs:57-125 | What was safe before a pull is safe after it, but for the one edit it drops if it fails; copies of earlier rounds and of this one stay distinct. |
| Rounds.RoundOver | crates/scrigno-client/src/sync.rs:39-50 | A round after lost rounds is one more lost round of the run or the last one, and the counts add up. |
| Obstacles.CopyObstacle | crates/scrigno-client/src/sync.rs:178-192 | A copy given up because its blob could not be had is an obstacle in the run, at the place where the blob was asked for. |
| BlobFormat.FileLength | crates/scrigno-core/src/blob.rs:135-157 | A file of n plaintext bytes has 97 + n + 16 * (n / 1048576 + 1) bytes. |
| BlobFormat.SegmentAt | crates/scrigno-core/src/blob.rs:159-167 | Full segment k is at 97 + k * (1048576 + 16) and seals chunk k of the plaintext under nonce k. |
| BlobFormat.SegmentsInFull | crates/scrigno-core/src/blob.rs:135-167 | The file written out: after the 97 bytes of the header, segment k of 1048592 bytes seals bytes from k * 1048576 on with the prefix, counter k and the last flag as nonce and the header followed by the document id as associated data. |
| BlobFormat.HeaderParts | crates/scrigno-core/src/blob.rs:343-353 | The header has 97 bytes: "SCRG", version 1, the wrapped key and the nonce prefix, each read back from its place. |
| BlobFormat.IdealIsPossible | crates/scrigno-core/src/blob.rs:355-360 | The assumptions on the AEAD can be met for exactly those files of a document that are in the format and whose wrapped keys differ, with wrapping giving those keys. |
| BlobEncryptor.Encryptor.New | crates/scrigno-core/src/blob.rs:74-82 | The header, "SCRG", 1, the wrapped key and the prefix, is written first, and the encryptor is bound to it and to the document. |
| BlobEncryptor.Encryptor.WriteFullChunk | crates/scrigno-core/src/blob.rs:159-167 | One more segment in place, sealed under the next counter with header and document as associated data, or an exhausted counter, which is 4294967295, or a failed writer. |
| BlobEncryptor.Encryptor.Write | crates/scrigno-core/src/blob.rs:171-186 | All of the data is taken, and the file has every full segment of everything written so far with less than one chunk buffered, or the counter is exhausted or the writer failed; after such a failure every further write of something fails, with the same error or an underflow, and changes nothing. |
| BlobEncryptor.Encryptor.Finish | crates/scrigno-core/src/blob.rs:149-157 | One last segment is sealed from what is buffered: in good order the file is then the one-shot segmentation of everything written, with its exact length; after a failed write it is what the failure left there, and finishing succeeds all the same. |
| BlobEncryptor.EncryptPieces | crates/scrigno-core/src/blob.rs:171-186 | The file depends on the concatenation of the writes only, and writing fails only if the writer does or the counter runs out. |
| BlobDecryptor.Source.ReadExact | crates/scrigno-core/src/blob.rs:224-225 | Exactly the bytes asked for from however short reads, or the end of the file was too near. |
| BlobDecryptor.Decryptor.New | crates/scrigno-core/src/blob.rs:223-258 | A header is accepted if and only if it has 97 bytes, begins with "SCRG" and 1, and its key unwraps for the document, each failure with its own error, and then the key is that of a blob sealed for it. |
| BlobDecryptor.Decryptor.Gather | crates/scrigno-core/src/blob.rs:272-286 | From reads of any size exactly the next segment's bytes, never more than one segment. |
| BlobDecryptor.Decryptor.Probe | crates/scrigno-core/src/blob.rs:289-298 | One byte is read ahead if and only if the file goes on. |
| BlobDecryptor.Decryptor.FillNextSegment | crates/scrigno-core/src/blob.rs:267-321 | What is opened is the next segment under the next counter, marked last if and only if nothing follows; however the file was made, what is decrypted stays a prefix of the plaintext, and the genuine file never fails. |
| BlobDecryptor.Decryptor.Read | crates/scrigno-core/src/blob.rs:325-340 | The caller's buffer gets the next plaintext bytes and nothing else changes in it; all bytes given out, even after failures, are a prefix of the plaintext; the end is reported only after all of it. |
| BlobDecryptor.ReadToEnd | crates/scrigno-core/src/blob.rs:325-340 | Reading to the end with any buffer size gives a prefix of the plaintext; reaching the end means the file is the genuine one, and the genuine one is read to the end if the reader does not fail. |
| BlobDecryptor.DecryptFile | crates/scrigno-core/src/blob.rs:223-340 | Any file decrypts to its end exactly when it is, byte for byte, one of the blobs sealed for the document; until a failure only a prefix of such a plaintext is released. |
| BlobDecryptor.RoundTrip | crates/scrigno-core/src/blob.rs:171-340 | Encrypting in any pieces and decrypting with any reads and buffers gives the plaintext back, for every length the counter allows. |
| Codec.CrockfordEncode | crates/scrigno-core/src/codec.rs:95-114 | The loop over the unmasked accumulator writes the bytes' number, padded with zero bits, in base 32, for inputs of every length. |
| Codec.CrockfordDecode | crates/scrigno-core/src/codec.rs:119-140 | The loop gives the symbols' number without its leftover bits in base 256; it fails if and only if a symbol is foreign or a leftover bit is set. |
| Bits.EncodedBits | crates/scrigno-core/src/codec.rs:95-114 | Bit by bit: symbol j of the encoding is the letter of the alphabet for bits 5j to 5j + 4 of the bytes, zeros beyond the end. |
| Bits.DecodedBits | crates/scrigno-core/src/codec.rs:119-140 | A text decodes if and only if all its characters are symbols and the bits beyond the last whole byte are zero, and bit i of the result is bit i of the symbols. |
| Codec.ShiftOut | crates/scrigno-core/src/codec.rs:103-105 | The accumulator, which has lost its high bits, still has the bits taken out of it. |
| Codec.CrockfordRoundTrip | crates/scrigno-core/src/codec.rs:95-140 | Decoding undoes encoding for every byte string. |
| Codec.CanonicalIffShort | crates/scrigno-core/src/codec.rs:133-139 | What decodes is, but for case, the encoding of its result if and only if it has fewer than five leftover bits. |
| Codec.LoneZeroDecodes | crates/scrigno-core/src/codec.rs:133-139 | Such a text: one zero decodes to nothing. |
| Base64.Encode | crates/scrigno-core/src/codec.rs:17-39 | The loop over three bytes at a time is the encoding whose inverse is proved. |
| Base64.Decode | crates/scrigno-core/src/codec.rs:43-80 | The loop over four characters at a time is that decoding, failures included. |
| Base64.EncodedAt | crates/scrigno-core/src/codec.rs:17-39 | Four characters of the encoding spell three bytes, six bits to a character, and a missing byte is padding. |
| Base64.GroupRead | crates/scrigno-core/src/codec.rs:52-78 | What a group of four characters decodes to, in all its cases of data, padding and failure. |
| Base64.StandardAlphabet | crates/scrigno-core/src/codec.rs:10-15 | The 64 characters of the alphabet, by their codes. |
| Base64.DecodeChunk | crates/scrigno-core/src/codec.rs:52-78 | A group is accepted if and only if it is data characters followed by at most two of padding. |
| Base64.RoundTrip | crates/scrigno-core/src/codec.rs:17-80 | Decoding undoes encoding for every byte string, and the encoding has four characters for every three bytes begun. |
| Base64.CanonicalIff | crates/scrigno-core/src/codec.rs:52-78 | What decodes is the encoding of its result if and only if padding is at the end only and its dropped bits are zero. |
| Base64.LeftoverBitsAreDropped | crates/scrigno-core/src/codec.rs:52-78 | Such a text: two different ones decode to the same byte. |
| Recovery.FormatGrouped | crates/scrigno-core/src/recovery.rs:49-58 | The symbols with a dash before every fourth but the first. |
| Recovery.GroupedAt | crates/scrigno-core/src/recovery.rs:49-58 | Every fifth character is a dash and the others are the symbols in order, with the exact length. |
| Recovery.GenerateCode | crates/scrigno-core/src/recovery.rs:21-25 | 32 bytes become 64 characters, the grouped encoding. |
| Recovery.CleanedGrouped | crates/scrigno-core/src/recovery.rs:37-58 | Stripping the separators undoes the grouping. |
| Recovery.OnlySymbolsCount | crates/scrigno-core/src/recovery.rs:37-41 | A dash or white space anywhere in a code counts for nothing, a letter or digit counts. |
| Recovery.ParseCode | crates/scrigno-core/src/recovery.rs:36-47 | A code is accepted if and only if, but for case, dashes and white space, it is the encoding of 32 bytes, and then it gives exactly those. |
| Recovery.GenerateThenParse | crates/scrigno-core/src/recovery.rs:21-47 | A generated code parses back to its bytes. |

## Left out

- HTTP, JSON and retries: a request succeeds, fails before or fails after it took effect. Document writes are not retried by the client, so a lost reply of one ends the sync.
- Payload sizes and failing uploads are not part of the protocol events: a device's upload is never refused as too large there; `Server.DocServer.HandlePutBlob` has the limit and the failures.
- Postgres isolation, `nextval` order against commit order, and the object store behind a blob row: each handler is one atomic step. A sweep sees every row; `FOR UPDATE SKIP LOCKED` is not part of this model.
- Integer widths of versions, sequence numbers and sizes; the vault and its id, of which there is one.
- Real cryptography: key derivation, the ciphers themselves, hashing, the random generator, zeroing. Fresh ids come from one supply, fresh keys and salts are parameters.
- Metadata envelopes as bytes, and their parsing: sealed metadata is a value bound to id and version.
- Thumbnails, the clock and today's date are arbitrary values; timestamps are numbers.
- `DocSummary.cached` and its refreshing: the index is modelled without that flag.
- Files of the cache that disappear behind the store's back, and a cache row without its file.
- Leftover temporary files, and a crash between writing a file and recording it.
- A server that forgets or replaces accepted writes.
- Vault.UnlockedVault.Pull: ends because the others make finitely many moves while it runs (`Network.budget`); with writers that never stop it could go on for ever.
- Vault.UnlockedVault.Sync: the condition under which it succeeds alone is exact but for one case, the blob of a deletion that is given up, of a document to be kept offline, when it still lies in the cache unpinned (`Room.Lingers`): whether it is there when it becomes pinned again depends on the access times of everything else evicted before, so there a sufficient and a necessary condition are given.
- BlobEncryptor.Encryptor.Write: the subtraction that goes below zero after a failed write panics where overflow is checked (`Overflow`); that without the check it wraps around, so that the data is buffered behind the failed segment and reported as written, is not modelled.
- What a method of `UnlockedVault` answers when a request fails is stated by which errors there can be (`CanHappen`), what became of the edits, and that the state is still that of a run; which of the requests failed is the network's choice.
- Device.ApplyRecord: dropping the stale blob and storing the row are two statements of the local database, and one step here; a crash between them, which leaves a row without its cached blob, is not modelled.
- Keyslots, joining and unlocking, authentication, range requests, configuration, commands of the shell and the apps.
