/** The server's tables and its handlers: conditional document writes, write-once blobs, the blob
    sweep. Each handler is one transaction; the functions say what it does to the tables, the
    class does it in place. */
module Server {
  import opened Types
  import opened Pieces
  import Upload

  datatype Record = Record(
    version: nat,
    blobId: Option<BlobId>,
    blobSize: nat,
    encMeta: EncMeta,
    deleted: bool,
    seqNo: nat)

  datatype StoredBlob = StoredBlob(content: CipherBlob, createdAt: nat)

  datatype Tables = Tables(docs: map<DocId, Record>, blobs: map<BlobId, StoredBlob>, lastSeq: nat)

  datatype PutBody = PutBody(blobId: BlobId, blobSize: nat, encMeta: EncMeta)

  datatype Reply =
    | Applied(rec: Record)
    | VersionMismatch(current: Option<Record>)
    | BlobNotFound
    | NotFound

  datatype BlobReply = Created | Identical | BlobMismatch | TooLarge | BadRequest | InternalError

  const DAY: nat := 86_400

  function Fetched(docs: map<DocId, Record>, id: DocId): Option<Record> {
    if id in docs then Some(docs[id]) else None
  }

  /** `PUT /v1/docs/{id}` with `If-Match: ifMatch`. A create that loses the race still consumes a
      sequence number, because `nextval` is evaluated before the conflict is found. */
  function Put(t: Tables, id: DocId, ifMatch: nat, body: PutBody): (Tables, Reply) {
    if body.blobId !in t.blobs then
      (t, BlobNotFound)
    else if ifMatch == 0 && id in t.docs then
      (t.(lastSeq := t.lastSeq + 1), VersionMismatch(Fetched(t.docs, id)))
    else if ifMatch == 0 || (id in t.docs && t.docs[id].version == ifMatch) then
      var rec := Record(ifMatch + 1, Some(body.blobId), body.blobSize, body.encMeta, false, t.lastSeq + 1);
      (t.(docs := t.docs[id := rec], lastSeq := t.lastSeq + 1), Applied(rec))
    else
      (t, VersionMismatch(Fetched(t.docs, id)))
  }

  /** `DELETE /v1/docs/{id}`: a tombstone under a bumped version that keeps the old metadata. */
  function Delete(t: Tables, id: DocId, ifMatch: nat): (Tables, Reply) {
    if id in t.docs && t.docs[id].version == ifMatch then
      var rec := Record(ifMatch + 1, None, 0, t.docs[id].encMeta, true, t.lastSeq + 1);
      (t.(docs := t.docs[id := rec], lastSeq := t.lastSeq + 1), Applied(rec))
    else if id in t.docs then
      (t, VersionMismatch(Fetched(t.docs, id)))
    else
      (t, NotFound)
  }

  /** `PUT /v1/blobs/{id}`: the first upload wins, the same bytes again are accepted. */
  function PutBlob(t: Tables, b: BlobId, content: CipherBlob, now: nat): (Tables, BlobReply) {
    if b !in t.blobs then
      (t.(blobs := t.blobs[b := StoredBlob(content, now)]), Created)
    else if t.blobs[b].content == content then
      (t, Identical)
    else
      (t, BlobMismatch)
  }

  predicate Referenced(docs: map<DocId, Record>, b: BlobId) {
    exists id :: id in docs && !docs[id].deleted && docs[id].blobId == Some(b)
  }

  /** A blob the sweep may delete at time `now`. */
  predicate Sweepable(t: Tables, b: BlobId, now: nat) {
    b in t.blobs && t.blobs[b].createdAt + DAY < now && !Referenced(t.docs, b)
  }

  /** One GC sweep. */
  function Sweep(t: Tables, now: nat): Tables {
    t.(blobs := map b | b in t.blobs && !Sweepable(t, b, now) :: t.blobs[b])
  }

  // ------------------------------------------------------------------ integrity ------------

  /** Every live document points at a stored blob and no tombstone points anywhere. */
  ghost predicate References(t: Tables) {
    forall id :: id in t.docs ==>
      if t.docs[id].deleted then t.docs[id].blobId == None
      else t.docs[id].blobId.Some? && t.docs[id].blobId.value in t.blobs
  }

  /** The foreign key `document.blob_id REFERENCES blob(id)`. */
  ghost predicate ForeignKey(t: Tables) {
    forall id :: id in t.docs && t.docs[id].blobId.Some? ==> t.docs[id].blobId.value in t.blobs
  }

  ghost predicate VersionsPositive(t: Tables) {
    forall id :: id in t.docs ==> 1 <= t.docs[id].version
  }

  datatype Request =
    | PutDoc(id: DocId, ifMatch: nat, body: PutBody)
    | DeleteDoc(id: DocId, ifMatch: nat)
    | UploadBlob(blob: BlobId, content: CipherBlob, now: nat)
    | GcSweep(now: nat)

  function Serve(t: Tables, r: Request): Tables {
    match r
    case PutDoc(id, ifMatch, body) => Put(t, id, ifMatch, body).0
    case DeleteDoc(id, ifMatch) => Delete(t, id, ifMatch).0
    case UploadBlob(b, content, now) => PutBlob(t, b, content, now).0
    case GcSweep(now) => Sweep(t, now)
  }

  function ServeAll(t: Tables, rs: seq<Request>): Tables {
    if rs == [] then t else Serve(ServeAll(t, rs[..|rs| - 1]), rs[|rs| - 1])
  }

  const EMPTY: Tables := Tables(map[], map[], 0)

  /** Whatever requests arrive, from whomever: live documents keep their blob row, tombstones
      have none, and so no sweep ever deletes a row the foreign key still needs. */
  lemma {:induction false} ReferencesAlwaysHold(rs: seq<Request>)
    ensures References(ServeAll(EMPTY, rs)) && ForeignKey(ServeAll(EMPTY, rs))
    ensures VersionsPositive(ServeAll(EMPTY, rs))
  {
    if rs != [] {
      ReferencesAlwaysHold(rs[..|rs| - 1]);
      var t := ServeAll(EMPTY, rs[..|rs| - 1]);
      if rs[|rs| - 1].GcSweep? {
        SweepIsExact(t, rs[|rs| - 1].now);
      }
    }
  }

  /** A sweep removes precisely the blobs uploaded more than a day ago that no live document points at,
      and changes nothing else. */
  lemma SweepIsExact(t: Tables, now: nat)
    requires References(t)
    ensures var u := Sweep(t, now);
      && u.docs == t.docs && u.lastSeq == t.lastSeq && References(u)
      && (forall b :: b in u.blobs ==> b in t.blobs && u.blobs[b] == t.blobs[b])
      && (forall b :: b in t.blobs ==>
            (b !in u.blobs <==>
               t.blobs[b].createdAt + 86_400 < now && forall id :: id in t.docs && !t.docs[id].deleted ==> t.docs[id].blobId != Some(b)))
  {
    var u := Sweep(t, now);
    forall id | id in u.docs && !u.docs[id].deleted ensures u.docs[id].blobId.value in u.blobs {
      assert Referenced(t.docs, t.docs[id].blobId.value);
    }
  }

  lemma SweepTakes(t: Tables, now: nat, gone: set<BlobId>)
    requires gone == set b | b in t.blobs && Sweepable(t, b, now)
    ensures Sweep(t, now) == t.(blobs := t.blobs - gone)
    ensures t.blobs.Keys - (t.blobs - gone).Keys == gone && gone <= t.blobs.Keys
    ensures VersionsPositive(t) ==> VersionsPositive(Sweep(t, now))
  {
    hide Sweepable;
    assert t.blobs - gone == Sweep(t, now).blobs;
  }

  lemma NoneTaken(blobs: map<BlobId, StoredBlob>, gone: set<BlobId>)
    requires gone == {}
    ensures blobs - gone == blobs && |blobs.Keys - blobs.Keys| == 0
  {
    assert blobs - gone == blobs;
    assert blobs.Keys - blobs.Keys == {};
  }

  /** The row of a blob is there all the time from `rs` on while `more` is served. */
  ghost predicate StaysStored(t: Tables, rs: seq<Request>, more: seq<Request>, b: BlobId) {
    forall n :: 0 <= n <= |more| ==> b in ServeAll(t, rs + more[..n]).blobs
  }

  /** Whatever requests arrive, the recorded content and date of a blob never change while its row exists. */
  lemma {:induction false} BlobsAreWriteOnce(t: Tables, rs: seq<Request>, more: seq<Request>, b: BlobId)
    requires StaysStored(t, rs, more, b)
    ensures b in ServeAll(t, rs).blobs && b in ServeAll(t, rs + more).blobs
    ensures ServeAll(t, rs + more).blobs[b] == ServeAll(t, rs).blobs[b]
    decreases |more|
  {
    assert rs + more[..0] == rs && more[..|more|] == more;
    assert b in ServeAll(t, rs + more[..0]).blobs;
    if more == [] {
      assert rs + more == rs;
    } else {
      var most := more[..|more| - 1];
      forall n | 0 <= n <= |most| ensures b in ServeAll(t, rs + most[..n]).blobs {
        assert most[..n] == more[..n];
      }
      BlobsAreWriteOnce(t, rs, most, b);
      assert (rs + more)[..|rs + more| - 1] == rs + most;
    }
  }

  // ------------------------------------------------------------------ the handlers ---------

  class DocServer {
    var docs: map<DocId, Record>
    var blobs: map<BlobId, StoredBlob>
    var lastSeq: nat
    // The object store holds one object a stored blob, and sometimes an object whose row is gone.
    var objects: set<BlobId>
    const maxBlobBytes: nat

    ghost predicate Valid()
      reads this
    {
      && References(Model())
      && VersionsPositive(Model())
      && blobs.Keys <= objects
    }

    function Model(): Tables
      reads this
    {
      Tables(docs, blobs, lastSeq)
    }

    constructor (maxBlobBytes: nat)
      ensures Valid() && Model() == EMPTY && this.maxBlobBytes == maxBlobBytes
    {
      docs, blobs, lastSeq, objects := map[], map[], 0, {};
      this.maxBlobBytes := maxBlobBytes;
    }

    method NextVal() returns (n: nat)
      modifies `lastSeq
      ensures n == lastSeq == old(lastSeq) + 1
    {
      lastSeq := lastSeq + 1;
      n := lastSeq;
    }

    method HandlePutDoc(id: DocId, ifMatch: nat, body: PutBody) returns (reply: Reply)
      requires Valid()
      modifies this
      ensures Valid() && objects == old(objects)
      ensures (Model(), reply) == Put(old(Model()), id, ifMatch, body)
      ensures blobs == old(blobs)
      ensures reply.Applied? <==> body.blobId in blobs && ifMatch == if id in old(docs) then old(docs)[id].version else 0
      ensures reply.BlobNotFound? <==> body.blobId !in blobs
      ensures reply.Applied? ==>
        && reply.rec == Record(ifMatch + 1, Some(body.blobId), body.blobSize, body.encMeta, false, lastSeq)
        && docs == old(docs)[id := reply.rec] && lastSeq == old(lastSeq) + 1
      ensures reply.VersionMismatch? ==> reply.current == if id in docs then Some(docs[id]) else None
      ensures !reply.Applied? ==>
        docs == old(docs) && lastSeq == old(lastSeq) + if ifMatch == 0 && body.blobId in blobs then 1 else 0
      ensures !reply.NotFound?
    {
      if body.blobId !in blobs {
        return BlobNotFound;
      }
      if ifMatch == 0 {
        var n := NextVal();
        if id in docs {
          return VersionMismatch(Some(docs[id]));
        }
        var rec := Record(1, Some(body.blobId), body.blobSize, body.encMeta, false, n);
        docs := docs[id := rec];
        return Applied(rec);
      }
      if id in docs && docs[id].version == ifMatch {
        var n := NextVal();
        var rec := Record(ifMatch + 1, Some(body.blobId), body.blobSize, body.encMeta, false, n);
        docs := docs[id := rec];
        return Applied(rec);
      }
      reply := VersionMismatch(Fetched(docs, id));
    }

    method HandleDeleteDoc(id: DocId, ifMatch: nat) returns (reply: Reply)
      requires Valid()
      modifies this
      ensures Valid() && objects == old(objects)
      ensures (Model(), reply) == Delete(old(Model()), id, ifMatch)
      ensures blobs == old(blobs)
      ensures reply.NotFound? <==> id !in old(docs)
      ensures reply.Applied? <==> id in old(docs) && old(docs)[id].version == ifMatch
      ensures reply.Applied? ==>
        && reply.rec == Record(ifMatch + 1, None, 0, old(docs)[id].encMeta, true, lastSeq)
        && docs == old(docs)[id := reply.rec] && lastSeq == old(lastSeq) + 1
      ensures reply.VersionMismatch? ==> reply.current == Some(docs[id])
      ensures !reply.Applied? ==> docs == old(docs) && lastSeq == old(lastSeq) && !reply.BlobNotFound?
    {
      if id in docs && docs[id].version == ifMatch {
        var n := NextVal();
        var rec := docs[id].(version := ifMatch + 1, blobId := None, blobSize := 0, deleted := true, seqNo := n);
        docs := docs[id := rec];
        return Applied(rec);
      }
      if id in docs {
        return VersionMismatch(Some(docs[id]));
      }
      reply := NotFound;
    }

    /** `PUT /v1/blobs/{id}`. `chunks` are the bytes of `content` as they arrive. The upload is staged, and
        published only for a new id. If `smooth`, the body arrives and neither store nor table fails. */
    method HandlePutBlob(b: BlobId, declared: Option<nat>, content: CipherBlob, chunks: seq<Bytes>, now: nat, smooth: bool)
      returns (reply: BlobReply)
      requires Valid() && |Concat(chunks)| == content.Size()
      modifies this
      ensures Valid()
      ensures reply in {Created, Identical, BlobMismatch} ==>
        declared == Some(content.Size()) && content.Size() <= maxBlobBytes && (Model(), reply) == PutBlob(old(Model()), b, content, now)
      ensures docs == old(docs) && lastSeq == old(lastSeq)
      ensures blobs == if reply == Created then old(blobs)[b := StoredBlob(content, now)] else old(blobs)
      ensures objects == old(objects) + if reply == Created || (reply == InternalError && b in objects) then {b} else {}
      ensures smooth && declared == None ==> reply == BadRequest
      ensures smooth && declared.Some? && (declared.value > maxBlobBytes || content.Size() > maxBlobBytes) ==> reply == TooLarge
      ensures smooth && declared.Some? && declared.value <= maxBlobBytes && content.Size() <= maxBlobBytes ==>
        if declared.value != content.Size() then reply == BadRequest
        else if b !in old(blobs) then reply == Created
        else if old(blobs)[b].content == content then reply == Identical
        else reply == BlobMismatch
    {
      if declared == None {
        return BadRequest;
      }
      if declared.value > maxBlobBytes {
        return TooLarge;
      }
      var staged := new Upload.Multipart(smooth);
      var outcome := Upload.StreamIntoUpload(chunks, staged, maxBlobBytes, smooth);
      if outcome.Err? {
        return match outcome.error
               case PayloadTooLarge => TooLarge
               case BadRequest => BadRequest
               case StoreFailed => InternalError;
      }
      if outcome.value.0 != declared.value {
        return BadRequest;
      }
      var fails: bool := *;
      if fails && !smooth {
        return InternalError;
      }
      if b in blobs {
        return if blobs[b].content == content then Identical else BlobMismatch;
      }
      objects := objects + {b};
      fails := *;
      // The object is published and its row is not written: the object is leaked.
      if fails && !smooth {
        return InternalError;
      }
      blobs := blobs[b := StoredBlob(content, now)];
      reply := Created;
    }

    /** One object after the other; one whose deletion fails is only leaked. */
    method DeleteObjects(candidates: set<BlobId>, smooth: bool)
      modifies `objects
      ensures old(objects) - candidates <= objects <= old(objects)
      ensures smooth ==> objects == old(objects) - candidates
    {
      var rest := candidates;
      while rest != {}
        invariant rest <= candidates
        invariant old(objects) - candidates <= objects <= old(objects)
        invariant smooth ==> objects == old(objects) - (candidates - rest)
      {
        var b :| b in rest;
        rest := rest - {b};
        var failed: bool := *;
        if smooth || !failed {
          objects := objects - {b};
        }
      }
    }

    /** The rows the sweep selects. */
    method SelectSweepable(now: nat) returns (candidates: set<BlobId>)
      requires Valid()
      ensures candidates <= blobs.Keys
      ensures forall b :: b in blobs ==>
        (b in candidates <==>
           blobs[b].createdAt + 86_400 < now && forall id :: id in docs && !docs[id].deleted ==> docs[id].blobId != Some(b))
      ensures Sweep(Model(), now) == Model().(blobs := blobs - candidates)
      ensures References(Sweep(Model(), now)) && VersionsPositive(Sweep(Model(), now))
    {
      hide References, Sweepable, Sweep, VersionsPositive;
      SweepIsExact(Model(), now);
      candidates := set b | b in blobs && Sweepable(Model(), b, now);
      SweepTakes(Model(), now, candidates);
    }

    /** The candidates are deleted from the table in one transaction, then their objects. */
    method DeleteBlobs(candidates: set<BlobId>, smooth: bool) returns (deleted: nat)
      requires candidates <= blobs.Keys && blobs.Keys <= objects
      modifies `blobs, `objects
      ensures blobs == old(blobs) - candidates && blobs.Keys <= objects
      ensures forall b :: b in old(blobs) ==> (b !in blobs <==> b in candidates)
      ensures forall b :: b in blobs ==> b in old(blobs) && blobs[b] == old(blobs)[b]
      ensures deleted == |old(blobs).Keys - blobs.Keys|
      ensures old(objects) - objects <= old(blobs).Keys - blobs.Keys && objects <= old(objects)
      ensures smooth ==> objects == old(objects) - (old(blobs).Keys - blobs.Keys)
    {
      ghost var before := blobs.Keys;
      blobs := blobs - candidates;
      assert before - blobs.Keys == candidates;
      DeleteObjects(candidates, smooth);
      deleted := |candidates|;
    }

    /** `sweep`: if `smooth`, no deletion of an object fails. */
    method HandleSweep(now: nat, smooth: bool) returns (deleted: nat)
      requires Valid()
      modifies this
      ensures Valid() && Model() == Sweep(old(Model()), now) && docs == old(docs) && lastSeq == old(lastSeq)
      ensures blobs.Keys <= old(blobs).Keys && forall b :: b in blobs ==> blobs[b] == old(blobs)[b]
      ensures forall b :: b in old(blobs) ==>
        (b !in blobs <==>
           old(blobs)[b].createdAt + 86_400 < now && forall id :: id in docs && !docs[id].deleted ==> docs[id].blobId != Some(b))
      ensures deleted == |old(blobs).Keys - blobs.Keys|
      ensures old(objects) - objects <= old(blobs).Keys - blobs.Keys && objects <= old(objects)
      ensures smooth ==> objects == old(objects) - (old(blobs).Keys - blobs.Keys)
    {
      hide References, Sweep, VersionsPositive;
      var candidates := SelectSweepable(now);
      if candidates == {} {
        NoneTaken(blobs, candidates);
        return 0;
      }
      deleted := DeleteBlobs(candidates, smooth);
    }
  }
}
