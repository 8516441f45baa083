/** The body of a blob upload on its way into the object store. */
module Upload {
  import opened Types
  import opened Pieces

  /** The buffer is handed on once it holds 8 MiB. */
  const PART_BUFFER_BYTES: nat := 8 * 1024 * 1024

  datatype UploadError = PayloadTooLarge | BadRequest | StoreFailed

  /** A multipart upload: the parts so far. */
  class Multipart {
    var parts: seq<Bytes>
    const reliable: bool

    constructor (reliable: bool)
      ensures parts == [] && this.reliable == reliable
    {
      parts := [];
      this.reliable := reliable;
    }

    method PutPart(part: Bytes) returns (ok: bool)
      modifies this
      ensures parts == (if ok then old(parts) + [part] else old(parts))
      ensures reliable ==> ok
    {
      ok := *;
      if reliable {
        ok := true;
      }
      if ok {
        parts := parts + [part];
      }
    }
  }

  /** Every part but the last is at least the buffer's size, and none is empty. */
  ghost predicate PartsFull(parts: seq<Bytes>, n: nat) {
    n <= |parts| && (forall i :: 0 <= i < n ==> |parts[i]| >= 8_388_608) && forall i :: 0 <= i < |parts| ==> parts[i] != []
  }

  /** `stream_into_upload`: the body arrives as `chunks`, any of which may fail to. What is accepted is
      stored and hashed whole and in order; what is too large is refused before more than the limit has
      been stored. */
  method StreamIntoUpload(chunks: seq<Bytes>, upload: Multipart, maxBytes: nat, intact: bool)
    returns (r: Result<(nat, Bytes), UploadError>)
    requires upload.parts == []
    modifies upload
    ensures r.Ok? ==> r.value == (|Concat(chunks)|, Concat(chunks)) && Concat(upload.parts) == Concat(chunks)
    ensures r.Ok? ==> PartsFull(upload.parts, if upload.parts == [] then 0 else |upload.parts| - 1)
    ensures r.Ok? ==> |Concat(chunks)| <= maxBytes
    ensures |Concat(upload.parts)| <= maxBytes
    ensures intact && upload.reliable ==> (r.Ok? <==> |Concat(chunks)| <= maxBytes) && (r.Err? ==> r.error == PayloadTooLarge)
  {
    hide Concat, PartsFull;
    var hashed: Bytes, total: nat, buffer: Bytes := [], 0, [];
    var i := 0;
    NothingYet(chunks);
    while i < |chunks|
      invariant 0 <= i <= |chunks| && hashed == Concat(chunks[..i]) && total == |hashed| <= maxBytes
      invariant Concat(upload.parts) + buffer == hashed && |buffer| < PART_BUFFER_BYTES
      invariant PartsFull(upload.parts, |upload.parts|)
    {
      var broken: bool := *;
      if broken && !intact {
        return Err(BadRequest);
      }
      var chunk := chunks[i];
      OneChunkMore(chunks, i);
      total := total + |chunk|;
      if total > maxBytes {
        ConcatPrefix(chunks, i + 1);
        return Err(PayloadTooLarge);
      }
      hashed := hashed + chunk;
      buffer := buffer + chunk;
      if |buffer| >= PART_BUFFER_BYTES {
        ghost var before := upload.parts;
        var ok := upload.PutPart(buffer);
        if !ok {
          return Err(StoreFailed);
        }
        OnePartMore(before, buffer);
        assert Concat(upload.parts) + [] == hashed;
        buffer := [];
      }
      i := i + 1;
    }
    assert chunks[..i] == chunks;
    LastPart(upload.parts);
    if buffer != [] {
      ghost var before := upload.parts;
      var ok := upload.PutPart(buffer);
      if !ok {
        return Err(StoreFailed);
      }
      OnePartMore(before, buffer);
    }
    assert buffer == [] ==> Concat(upload.parts) + buffer == Concat(upload.parts);
    r := Ok((total, hashed));
  }

  lemma NothingYet(chunks: seq<Bytes>)
    ensures Concat(chunks[..0]) == [] && Concat([]) + [] == [] && PartsFull([], 0)
  {
  }

  lemma OneChunkMore(chunks: seq<Bytes>, i: nat)
    requires i < |chunks|
    ensures Concat(chunks[..i + 1]) == Concat(chunks[..i]) + chunks[i]
  {
    assert chunks[..i + 1][..i] == chunks[..i];
  }

  lemma LastPart(parts: seq<Bytes>)
    requires PartsFull(parts, |parts|)
    ensures PartsFull(parts, if parts == [] then 0 else |parts| - 1)
  {
  }

  lemma OnePartMore(parts: seq<Bytes>, part: Bytes)
    ensures Concat(parts + [part]) == Concat(parts) + part
    ensures PartsFull(parts, |parts|) && part != [] ==> PartsFull(parts + [part], |parts|)
    ensures PartsFull(parts, |parts|) && |part| >= PART_BUFFER_BYTES ==> PartsFull(parts + [part], |parts| + 1)
  {
    assert (parts + [part])[..|parts|] == parts;
  }
}
