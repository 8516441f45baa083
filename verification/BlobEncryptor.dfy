/** `blob::Encryptor`: plaintext in pieces of any size goes in, the segments of a blob file come out. */
module BlobEncryptor {
  import opened Types
  import opened Pieces
  import opened BlobFormat

  /** `Overflow` is the panic of a subtraction below zero, where overflow is checked. */
  datatype BlobError =
    Io | UnexpectedEof | Malformed | UnsupportedVersion | Authentication | CounterExhausted | Finished | Overflow

  /** The writer below. A write may fail after some of the bytes. */
  class Sink {
    var written: Bytes
    const reliable: bool

    constructor (reliable: bool)
      ensures written == [] && this.reliable == reliable
    {
      written := [];
      this.reliable := reliable;
    }

    method WriteAll(data: Bytes) returns (ok: bool)
      modifies this
      ensures ok ==> written == old(written) + data
      ensures !ok ==> old(written) <= written <= old(written) + data
      ensures reliable ==> ok
    {
      var n :| 0 <= n <= |data| && (reliable ==> n == |data|);
      written := written + data[..n];
      assert data[..|data|] == data;
      ok := n == |data|;
    }
  }

  class Encryptor {
    const c: Crypto
    const writer: Sink
    const aad: Bytes
    // The STREAM state: the data key, the nonce prefix, and the number of the next segment.
    const dek: Bytes
    const prefix: Bytes
    var position: Option<nat>
    var buf: Bytes
    ghost const id: StreamId
    // Everything written so far.
    ghost var plain: Bytes

    /** Between calls the file has every full segment of `plain`, and the buffer has what is left of it,
        which is less than one chunk. */
    ghost predicate Active()
      reads this, writer
    {
      && Bound() && position == Some(|plain| / CHUNK_SIZE)
      && buf == LastChunk(plain)
      && writer.written == id.header + Head(c, id, plain, |plain| / CHUNK_SIZE)
    }

    ghost predicate Bound() {
      |id.header| == HEADER_LEN && dek == id.dek && prefix == PrefixIn(id.header) && aad == Aad(id.header, id.doc)
    }

    /** The counter has run out: the buffer holds a chunk of plaintext that cannot be sealed. */
    ghost predicate Full()
      reads this
    {
      Bound() && position.Some? && position.value >= COUNTER_MAX && |buf| == CHUNK_SIZE
    }

    /** The writer has failed: the buffer holds a sealed segment that was not written, or not all of it. */
    ghost predicate Spilled()
      reads this
    {
      Bound() && position.Some? && |buf| == CHUNK_SIZE + TAG_LEN
    }

    /** In good order, or failed, or finished: whatever calls are made. */
    ghost predicate Valid()
      reads this, writer
    {
      Bound() && (position.None? || Active() || Full() || Spilled())
    }

    constructor FromParts(c: Crypto, writer: Sink, header: Bytes, dek: Bytes, doc: Bytes)
      requires |header| == HEADER_LEN && writer.written == header
      ensures Valid() && Active() && plain == [] && id == StreamId(dek, header, doc) && this.c == c && this.writer == writer
    {
      this.c, this.writer, this.dek := c, writer, dek;
      aad, prefix := Aad(header, doc), PrefixIn(header);
      position, buf := Some(0), [];
      id, plain := StreamId(dek, header, doc), [];
    }

    /** `Encryptor::new` with a fresh key `dek`, nonce prefix and wrapping nonce. */
    static method New(c: Crypto, writer: Sink, mk: Bytes, doc: Bytes, dek: Bytes, prefix: Bytes, nonce: nat)
      returns (r: Result<Encryptor, BlobError>)
      requires Lengths(c) && |prefix| == NONCE_PREFIX_LEN && writer.written == []
      modifies writer
      ensures r.Ok? ==> fresh(r.value) && r.value.Valid() && r.value.Active() && r.value.plain == []
      ensures r.Ok? ==> r.value.writer == writer && r.value.c == c
      ensures r.Ok? ==> r.value.id == StreamId(dek, Header(c.wrapDek(mk, doc, dek, nonce), prefix), doc)
      ensures r.Ok? ==> writer.written == [0x53, 0x43, 0x52, 0x47, 1] + c.wrapDek(mk, doc, dek, nonce) + prefix
      ensures r.Err? ==> r.error == Io
      ensures writer.reliable ==> r.Ok?
    {
      var wrapped := c.wrapDek(mk, doc, dek, nonce);
      var header := Header(wrapped, prefix);
      var ok := writer.WriteAll(header);
      if !ok {
        return Err(Io);
      }
      var e := new Encryptor.FromParts(c, writer, header, dek, doc);
      r := Ok(e);
    }

    /** `write_full_chunk`: the buffer is encrypted in place and handed on. */
    method WriteFullChunk() returns (r: Result<(), BlobError>)
      requires Bound() && position.Some? && Lengths(c)
      modifies this, writer
      ensures plain == old(plain) && position.Some?
      ensures r.Ok? ==> position == Some(old(position).value + 1) && buf == []
      ensures r.Ok? ==> writer.written == old(writer.written) + SealAt(c, id, old(position).value, false, old(buf))
      ensures r.Ok? ==>
        var segment := c.seal(id.dek, Nonce(id.header[78..], old(position).value, false), id.header + id.doc, old(buf));
        writer.written == old(writer.written) + segment
      ensures r.Ok? || r.error == Io || r.error == CounterExhausted
      ensures r == Err(CounterExhausted) <==> old(position).value >= 0xFFFF_FFFF
      ensures r == Err(CounterExhausted) ==> buf == old(buf) && position == old(position) && writer.written == old(writer.written)
      ensures r == Err(Io) ==> buf == SealAt(c, id, old(position).value, false, old(buf)) && |buf| == |old(buf)| + TAG_LEN
      ensures writer.reliable && old(position).value < COUNTER_MAX ==> r.Ok?
    {
      if position.value >= COUNTER_MAX {
        return Err(CounterExhausted);
      }
      ghost var chunk := buf;
      buf := c.seal(dek, Nonce(prefix, position.value, false), aad, buf);
      position := Some(position.value + 1);
      var ok := writer.WriteAll(buf);
      if !ok {
        return Err(Io);
      }
      buf := [];
      r := Ok(());
    }

    /** One turn of the loop in `write`: a piece that fits in the current chunk. */
    method TakeIn(piece: Bytes) returns (r: Result<(), BlobError>)
      requires Lengths(c) && |buf| + |piece| <= CHUNK_SIZE && (Active() || Full())
      modifies this, writer
      ensures old(Active()) && r.Ok? ==> Active() && plain == old(plain) + piece
      ensures old(Active()) && r.Err? ==> Failed(r.error) && |old(plain) + piece| >= CHUNK_SIZE
      ensures old(Active()) && writer.reliable && |old(plain) + piece| / CHUNK_SIZE <= COUNTER_MAX ==> r.Ok?
      ensures old(Full()) && !old(Active()) ==> r == Err(CounterExhausted) && Full() && Same(old(buf), old(position), old(writer.written))
    {
      hide SealAt, Head, Lengths;
      AppendPlain(c, id, plain, piece);
      buf := buf + piece;
      if |buf| == CHUNK_SIZE {
        var full := WriteFullChunk();
        if full.Err? {
          return Err(full.error);
        }
      }
      plain := plain + piece;
      r := Ok(());
    }

    ghost predicate Failed(error: BlobError)
      reads this
    {
      (error == CounterExhausted && Full()) || (error == Io && Spilled())
    }

    ghost predicate Same(buf0: Bytes, position0: Option<nat>, written0: Bytes)
      reads this, writer
    {
      buf == buf0 && position == position0 && writer.written == written0
    }

    /** `Write::write`. All of `data` is taken, in chunks. After a failure every further write of something
        fails, of an exhausted counter again, of a failed writer with an overflow. */
    method Write(data: Bytes) returns (r: Result<nat, BlobError>)
      requires Valid() && Lengths(c)
      modifies this, writer
      ensures Valid()
      ensures old(position).None? ==> r == Err(Finished) && Same(old(buf), old(position), old(writer.written))
      ensures old(position).Some? && data == [] ==> r == Ok(0) && Same(old(buf), old(position), old(writer.written))
      ensures old(Active()) && r.Ok? ==> r.value == |data| && Active() && plain == old(plain) + data
      ensures old(Active()) && r.Err? ==> Failed(r.error)
      ensures old(Active()) && writer.reliable && |old(plain) + data| / CHUNK_SIZE <= COUNTER_MAX ==> r.Ok?
      ensures !old(Active()) && old(position).Some? && data != [] ==>
        r == Err(if old(Full()) then CounterExhausted else Overflow) && Same(old(buf), old(position), old(writer.written))
    {
      hide Head, SealAt, Lengths, LastChunk, Aad, PrefixIn;
      if position.None? {
        return Err(Finished);
      }
      var rest := data;
      ghost var whole := plain + data;
      ghost var active := Active();
      while rest != []
        invariant if active then Active() && whole == plain + rest else rest == data && (Full() || Spilled())
        invariant rest == data ==> Same(old(buf), old(position), old(writer.written))
        decreases |rest|
      {
        LastChunkShort(plain);
        if |buf| > CHUNK_SIZE {
          return Err(Overflow);
        }
        var space := CHUNK_SIZE - |buf|;
        var take := if space <= |rest| then space else |rest|;
        assert plain + rest == plain + rest[..take] + rest[take..];
        if active {
          ShorterPlain(whole, plain + rest[..take]);
        }
        var taken := TakeIn(rest[..take]);
        if taken.Err? {
          return Err(taken.error);
        }
        rest := rest[take..];
      }
      r := Ok(|data|);
    }

    /** `finish`: the last segment is what is left, even if that is nothing. After a failed write it is what
        the failure left in the buffer, and nothing tells. */
    method Finish() returns (r: Result<(), BlobError>)
      requires Valid() && Lengths(c)
      modifies this, writer
      ensures Valid() && position == None && plain == old(plain)
      ensures old(position).None? ==> r == Err(Finished) && writer.written == old(writer.written)
      ensures r.Ok? ==> writer.written == old(writer.written) + SealAt(c, id, old(position).value, true, old(buf))
      ensures r.Ok? ==>
        var segment := c.seal(id.dek, Nonce(id.header[78..], old(position).value, true), id.header + id.doc, old(buf));
        writer.written == old(writer.written) + segment
      ensures r.Err? && old(position).Some? ==> r.error == Io
      ensures r.Ok? && old(Active()) ==> writer.written == SealedFile(c, id, plain)
      ensures r.Ok? && old(Active()) ==> |writer.written| == SealedLength(|plain|)
      ensures writer.reliable && old(position).Some? ==> r.Ok?
    {
      if position.None? {
        return Err(Finished);
      }
      var k := position.value;
      position := None;
      buf := c.seal(dek, Nonce(prefix, k, true), aad, buf);
      var ok := writer.WriteAll(buf);
      if !ok {
        return Err(Io);
      }
      FileLength(c, id, plain);
      r := Ok(());
    }
  }

  /** Taking in no more than the room left in the current chunk. */
  lemma AppendPlain(c: Crypto, id: StreamId, plain: Bytes, more: Bytes)
    requires |id.header| == HEADER_LEN && |LastChunk(plain)| + |more| <= CHUNK_SIZE
    ensures var m := |plain| / CHUNK_SIZE;
      var left := LastChunk(plain) + more;
      var longer := plain + more;
      if |left| < CHUNK_SIZE then
        |longer| / CHUNK_SIZE == m && LastChunk(longer) == left && Head(c, id, longer, m) == Head(c, id, plain, m)
      else
        && |longer| / CHUNK_SIZE == m + 1 && LastChunk(longer) == []
        && Head(c, id, longer, m + 1) == Head(c, id, plain, m) + SealAt(c, id, m, false, left)
  {
    var m := |plain| / CHUNK_SIZE;
    HeadOfLonger(c, id, plain, more, m);
    if |LastChunk(plain)| + |more| == CHUNK_SIZE {
      assert Chunk(plain + more, m) == LastChunk(plain) + more;
    }
  }

  lemma LastChunkShort(plain: Bytes)
    ensures |LastChunk(plain)| < CHUNK_SIZE
  {
  }

  lemma ShorterPlain(whole: Bytes, part: Bytes)
    requires |part| <= |whole|
    ensures |part| / CHUNK_SIZE <= |whole| / CHUNK_SIZE
  {
  }

  /** How the plaintext is cut into writes makes no difference to the file, and nothing but its length
      makes a difference to the length of the file. */
  method EncryptPieces(e: Encryptor, pieces: seq<Bytes>) returns (r: Result<(), BlobError>)
    requires e.Active() && e.plain == [] && Lengths(e.c)
    modifies e, e.writer
    ensures r.Ok? ==> |e.id.header| == HEADER_LEN && e.writer.written == SealedFile(e.c, e.id, Concat(pieces))
    ensures r.Ok? ==> |e.writer.written| == SealedLength(|Concat(pieces)|)
    ensures e.writer.reliable && |Concat(pieces)| / CHUNK_SIZE <= COUNTER_MAX ==> r.Ok?
  {
    var i := 0;
    while i < |pieces|
      invariant 0 <= i <= |pieces| && e.Valid() && e.Active() && e.plain == Concat(pieces[..i])
    {
      assert pieces[..i + 1][..i] == pieces[..i];
      ConcatPrefix(pieces, i + 1);
      var w := e.Write(pieces[i]);
      if w.Err? {
        return Err(w.error);
      }
      i := i + 1;
    }
    assert pieces[..i] == pieces;
    r := e.Finish();
  }
}
