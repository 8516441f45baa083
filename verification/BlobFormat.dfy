/** The SCRG blob file as a value: header, full segments, last segment; and the ideal AEAD it rests on. */
module BlobFormat {
  import opened Types

  const MAGIC: Bytes := [0x53, 0x43, 0x52, 0x47]
  const VERSION: byte := 1
  const COUNTER_MAX: nat := 0xFFFF_FFFF
  const SEGMENT_LEN: nat := CHUNK_SIZE + TAG_LEN

  /** The nonce of one STREAM segment. */
  datatype Nonce = Nonce(prefix: Bytes, counter: nat, last: bool)

  /** The primitives, as arbitrary functions; `Ideal` says what is asked of them. */
  datatype Crypto = Crypto(
    wrapDek: (Bytes, Bytes, Bytes, nat) -> Bytes,
    unwrapDek: (Bytes, Bytes, Bytes) -> Option<Bytes>,
    seal: (Bytes, Nonce, Bytes, Bytes) -> Bytes,
    open: (Bytes, Nonce, Bytes, Bytes) -> Option<Bytes>)

  /** A tag is 16 bytes long and a wrapped key 73. */
  ghost predicate Lengths(c: Crypto) {
    && (forall key, n, aad, p :: |c.seal(key, n, aad, p)| == |p| + TAG_LEN)
    && (forall mk, doc, dek, r :: |c.wrapDek(mk, doc, dek, r)| == WRAPPED_KEY_LEN)
  }

  // ------------------------------------------------------------------ the file -------------

  /** `build_header`. */
  function Header(wrapped: Bytes, prefix: Bytes): Bytes {
    MAGIC + [VERSION] + wrapped + prefix
  }

  /** `build_aad`. */
  function Aad(header: Bytes, doc: Bytes): Bytes {
    header + doc
  }

  function WrappedIn(header: Bytes): Bytes
    requires |header| == HEADER_LEN
  {
    header[5..5 + WRAPPED_KEY_LEN]
  }

  function PrefixIn(header: Bytes): Bytes
    requires |header| == HEADER_LEN
  {
    header[5 + WRAPPED_KEY_LEN..]
  }

  /** What fixes a stream of segments: the key, the header, which holds the nonce prefix, and the
      document. */
  datatype StreamId = StreamId(dek: Bytes, header: Bytes, doc: Bytes)

  function SealAt(c: Crypto, id: StreamId, k: nat, last: bool, plain: Bytes): Bytes
    requires |id.header| == HEADER_LEN
  {
    c.seal(id.dek, Nonce(PrefixIn(id.header), k, last), Aad(id.header, id.doc), plain)
  }

  function Chunk(plain: Bytes, k: nat): Bytes
    requires (k + 1) * CHUNK_SIZE <= |plain|
  {
    plain[k * CHUNK_SIZE..(k + 1) * CHUNK_SIZE]
  }

  function LastChunk(plain: Bytes): Bytes {
    plain[|plain| / CHUNK_SIZE * CHUNK_SIZE..]
  }

  /** The first `m` segments, all full. */
  function Head(c: Crypto, id: StreamId, plain: Bytes, m: nat): Bytes
    requires |id.header| == HEADER_LEN && m * CHUNK_SIZE <= |plain|
  {
    if m == 0 then [] else Head(c, id, plain, m - 1) + SealAt(c, id, m - 1, false, Chunk(plain, m - 1))
  }

  /** The whole file: as many full segments as there are full chunks, then one that is marked last. */
  function SealedFile(c: Crypto, id: StreamId, plain: Bytes): Bytes
    requires |id.header| == HEADER_LEN
  {
    var m := |plain| / CHUNK_SIZE;
    id.header + Head(c, id, plain, m) + SealAt(c, id, m, true, LastChunk(plain))
  }

  // ------------------------------------------------------------------ idealisation ---------

  /** The ciphertext `x` is the segment of the blob that belongs at this place. */
  ghost predicate IsSegment(c: Crypto, id: StreamId, plain: Bytes, k: nat, last: bool, x: Bytes)
    requires |id.header| == HEADER_LEN
  {
    if last then k == |plain| / CHUNK_SIZE && x == SealAt(c, id, k, true, LastChunk(plain))
    else k < |plain| / CHUNK_SIZE && x == SealAt(c, id, k, false, Chunk(plain, k))
  }

  /** What opening gives: the chunk, if everything about the ciphertext is genuine, and nothing else. */
  ghost function Opened(c: Crypto, id: StreamId, plain: Bytes, n: Nonce, aad: Bytes, x: Bytes): Option<Bytes>
    requires |id.header| == HEADER_LEN
  {
    if aad == id.header + id.doc && n.prefix == PrefixIn(id.header) && IsSegment(c, id, plain, n.counter, n.last, x)
    then Some(if n.last then LastChunk(plain) else Chunk(plain, n.counter))
    else None
  }

  /** A data key seals one blob only, so under it that blob's segments open, each in its place, under
      its header and for its document, and nothing else does. */
  ghost predicate OpensOnly(c: Crypto, id: StreamId, plain: Bytes) {
    && |id.header| == HEADER_LEN
    && forall n, aad, x :: c.open(id.dek, n, aad, x) == Opened(c, id, plain, n, aad, x)
  }

  datatype Blob = Blob(header: Bytes, plain: Bytes)

  /** `blobs` are the blobs ever sealed for the document, by their data keys. Their wrapped keys unwrap
      for it and no others do; each key opens its own segments only. */
  ghost predicate Ideal(c: Crypto, mk: Bytes, doc: Bytes, blobs: map<Bytes, Blob>) {
    && Lengths(c)
    && (forall dek :: dek in blobs ==>
          && |blobs[dek].header| == HEADER_LEN && OpensOnly(c, StreamId(dek, blobs[dek].header, doc), blobs[dek].plain)
          && blobs[dek].header[..4] == MAGIC && blobs[dek].header[4] == VERSION
          && c.unwrapDek(mk, doc, WrappedIn(blobs[dek].header)) == Some(dek))
    && (forall w :: c.unwrapDek(mk, doc, w).Some? ==> Unwraps(c, mk, doc, w, blobs))
  }

  ghost predicate Unwraps(c: Crypto, mk: Bytes, doc: Bytes, w: Bytes, blobs: map<Bytes, Blob>)
    requires c.unwrapDek(mk, doc, w).Some?
  {
    var dek := c.unwrapDek(mk, doc, w).value;
    dek in blobs && |blobs[dek].header| == HEADER_LEN && WrappedIn(blobs[dek].header) == w
  }

  /** Headers in the format, and a wrapped key in one file only. */
  ghost predicate WrappedApart(blobs: map<Bytes, Blob>) {
    && (forall dek :: dek in blobs ==>
          |blobs[dek].header| == HEADER_LEN && blobs[dek].header[..4] == MAGIC && blobs[dek].header[4] == VERSION)
    && (forall a, b :: a in blobs && b in blobs && WrappedIn(blobs[a].header) == WrappedIn(blobs[b].header) ==> a == b)
  }

  /** These assumptions can be met for any files of a document whose wrapped keys differ, and for no others;
      and the wrapped keys can then be what wrapping gave. */
  lemma IdealIsPossible(mk: Bytes, doc: Bytes, blobs: map<Bytes, Blob>) returns (c: Crypto)
    ensures WrappedApart(blobs) ==> Ideal(c, mk, doc, blobs)
    ensures !WrappedApart(blobs) ==> forall any :: !Ideal(any, mk, doc, blobs)
    ensures WrappedApart(blobs) ==>
      forall dek :: dek in blobs ==> blobs[dek].header == Header(c.wrapDek(mk, doc, dek, 0), PrefixIn(blobs[dek].header))
  {
    hide Opened, OpensOnly;
    var zeros: Bytes := seq(WRAPPED_KEY_LEN, _ => 0);
    var tag: Bytes := seq(TAG_LEN, _ => 0);
    var seal := (_: Bytes, _: Nonce, _: Bytes, p: Bytes) => p + tag;
    var none := Crypto((_: Bytes, _: Bytes, _: Bytes, _: nat) => zeros, (_: Bytes, _: Bytes, _: Bytes) => None, seal,
                       (_: Bytes, _: Nonce, _: Bytes, _: Bytes) => None);
    c := none;
    if !WrappedApart(blobs) {
      forall any ensures !Ideal(any, mk, doc, blobs) {
        IdealKeysDiffer(any, mk, doc, blobs);
      }
      return;
    }
    c := none.(
      wrapDek := (_: Bytes, _: Bytes, dek: Bytes, _: nat) => if dek in blobs then WrappedIn(blobs[dek].header) else zeros,
      unwrapDek := (k: Bytes, d: Bytes, w: Bytes) => KeyOf(blobs, w),
      open := (dek: Bytes, n: Nonce, aad: Bytes, x: Bytes) =>
        if dek in blobs then Opened(none, StreamId(dek, blobs[dek].header, doc), blobs[dek].plain, n, aad, x) else None);
    forall dek | dek in blobs
      ensures c.unwrapDek(mk, doc, WrappedIn(blobs[dek].header)) == Some(dek)
      ensures OpensOnly(c, StreamId(dek, blobs[dek].header, doc), blobs[dek].plain)
      ensures blobs[dek].header == Header(c.wrapDek(mk, doc, dek, 0), PrefixIn(blobs[dek].header))
    {
      assert KeyOf(blobs, WrappedIn(blobs[dek].header)) == Some(dek);
      OpenedAlike(none, c, StreamId(dek, blobs[dek].header, doc), blobs[dek].plain);
    }
  }

  lemma OpenedAlike(c: Crypto, c': Crypto, id: StreamId, plain: Bytes)
    requires |id.header| == HEADER_LEN && c'.seal == c.seal
    requires forall n, aad, x :: c'.open(id.dek, n, aad, x) == Opened(c, id, plain, n, aad, x)
    ensures OpensOnly(c', id, plain)
  {
    forall n, aad, x ensures Opened(c', id, plain, n, aad, x) == Opened(c, id, plain, n, aad, x) {
    }
  }

  lemma IdealKeysDiffer(c: Crypto, mk: Bytes, doc: Bytes, blobs: map<Bytes, Blob>)
    ensures Ideal(c, mk, doc, blobs) ==> WrappedApart(blobs)
  {
    hide OpensOnly, Lengths;
  }

  /** The data key in a wrapped key. */
  ghost function KeyOf(blobs: map<Bytes, Blob>, w: Bytes): (r: Option<Bytes>)
    requires WrappedApart(blobs)
    ensures r.Some? ==> r.value in blobs && WrappedIn(blobs[r.value].header) == w
  {
    if exists dek :: dek in blobs && WrappedIn(blobs[dek].header) == w
    then
      var dek :| dek in blobs && WrappedIn(blobs[dek].header) == w;
      Some(dek)
    else None
  }

  // ------------------------------------------------------------------ shape ----------------

  lemma HeaderParts(wrapped: Bytes, prefix: Bytes)
    requires |wrapped| == WRAPPED_KEY_LEN && |prefix| == NONCE_PREFIX_LEN
    ensures var h := Header(wrapped, prefix);
      |h| == HEADER_LEN && h[..4] == MAGIC && h[4] == VERSION && WrappedIn(h) == wrapped && PrefixIn(h) == prefix
    ensures Header(wrapped, prefix) == [0x53, 0x43, 0x52, 0x47, 1] + wrapped + prefix && |Header(wrapped, prefix)| == 97
  {
  }

  lemma {:induction false} HeadLength(c: Crypto, id: StreamId, plain: Bytes, m: nat)
    requires Lengths(c) && |id.header| == HEADER_LEN && m * CHUNK_SIZE <= |plain|
    ensures |Head(c, id, plain, m)| == m * SEGMENT_LEN
  {
    if m > 0 {
      HeadLength(c, id, plain, m - 1);
    }
  }

  /** The length of a file depends on the length of its plaintext only. */
  lemma FileLength(c: Crypto, id: StreamId, plain: Bytes)
    requires Lengths(c) && |id.header| == HEADER_LEN
    ensures |SealedFile(c, id, plain)| == SealedLength(|plain|) == 97 + |plain| + 16 * (|plain| / 1_048_576 + 1)
  {
    HeadLength(c, id, plain, |plain| / CHUNK_SIZE);
  }

  /** Full segment `k` of a file is where the format says. */
  lemma {:induction false} SegmentAt(c: Crypto, id: StreamId, plain: Bytes, k: nat)
    requires Lengths(c) && |id.header| == HEADER_LEN && k < |plain| / CHUNK_SIZE
    ensures var at := HEADER_LEN + k * SEGMENT_LEN;
      && at + SEGMENT_LEN <= |SealedFile(c, id, plain)|
      && SealedFile(c, id, plain)[at..at + SEGMENT_LEN] == SealAt(c, id, k, false, Chunk(plain, k))
  {
    hide SealAt, Lengths;
    var m := |plain| / CHUNK_SIZE;
    SealLength(c, id, k, false, Chunk(plain, k));
    HeadAt(c, id, plain, m, k);
    HeadLength(c, id, plain, m);
    var f, h, at := SealedFile(c, id, plain), Head(c, id, plain, m), k * SEGMENT_LEN;
    assert f[HEADER_LEN..HEADER_LEN + |h|] == h;
    assert f[HEADER_LEN + at..HEADER_LEN + at + SEGMENT_LEN] == f[HEADER_LEN..HEADER_LEN + |h|][at..at + SEGMENT_LEN];
  }

  /** The same in numbers: under the key of the stream, the nonce prefix from the header, the number of the
      segment and the mark of the last one, and bound to header and document. */
  lemma SegmentsInFull(c: Crypto, id: StreamId, plain: Bytes, k: nat)
    requires Lengths(c) && |id.header| == 97 && k <= |plain| / 1_048_576
    ensures var file, m, at := SealedFile(c, id, plain), |plain| / 1_048_576, 97 + k * 1_048_592;
      && file[..97] == id.header && at <= |file|
      && (k < m ==>
            && at + 1_048_592 <= |file|
            && file[at..at + 1_048_592] ==
                 c.seal(id.dek, Nonce(id.header[78..], k, false), id.header + id.doc, plain[k * 1_048_576..(k + 1) * 1_048_576]))
      && (k == m ==> file[at..] == c.seal(id.dek, Nonce(id.header[78..], m, true), id.header + id.doc, plain[m * 1_048_576..]))
  {
    hide Lengths, Head;
    HeadLength(c, id, plain, |plain| / CHUNK_SIZE);
    if k < |plain| / CHUNK_SIZE {
      SegmentAt(c, id, plain, k);
    }
  }

  lemma SealLength(c: Crypto, id: StreamId, k: nat, last: bool, plain: Bytes)
    requires Lengths(c) && |id.header| == HEADER_LEN
    ensures |SealAt(c, id, k, last, plain)| == |plain| + TAG_LEN
  {
  }

  lemma {:induction false} HeadAt(c: Crypto, id: StreamId, plain: Bytes, m: nat, k: nat)
    requires Lengths(c) && |id.header| == HEADER_LEN && m * CHUNK_SIZE <= |plain| && k < m
    ensures var at := k * SEGMENT_LEN;
      && at + SEGMENT_LEN <= |Head(c, id, plain, m)|
      && Head(c, id, plain, m)[at..at + SEGMENT_LEN] == SealAt(c, id, k, false, Chunk(plain, k))
  {
    hide SealAt, Lengths;
    SealLength(c, id, m - 1, false, Chunk(plain, m - 1));
    HeadLength(c, id, plain, m - 1);
    if k < m - 1 {
      HeadAt(c, id, plain, m - 1, k);
      var at, h := k * SEGMENT_LEN, Head(c, id, plain, m - 1);
      assert Head(c, id, plain, m)[..|h|] == h;
      assert Head(c, id, plain, m)[at..at + SEGMENT_LEN] == Head(c, id, plain, m)[..|h|][at..at + SEGMENT_LEN];
    }
  }

  /** Appending to the plaintext does not change the segments already complete. */
  lemma {:induction false} HeadOfLonger(c: Crypto, id: StreamId, plain: Bytes, more: Bytes, m: nat)
    requires |id.header| == HEADER_LEN && m * CHUNK_SIZE <= |plain|
    ensures Head(c, id, plain + more, m) == Head(c, id, plain, m)
  {
    if m > 0 {
      HeadOfLonger(c, id, plain, more, m - 1);
      assert Chunk(plain + more, m - 1) == Chunk(plain, m - 1);
    }
  }
}
