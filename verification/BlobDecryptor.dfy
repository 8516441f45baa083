/** `blob::Decryptor`: a blob file read in pieces of any size, its plaintext given out in pieces of any
    size, whatever the file really is. */
module BlobDecryptor {
  import opened Types
  import opened Pieces
  import opened BlobFormat
  import opened BlobEncryptor

  const TMP_LEN: nat := 8192

  /** The reader below: it may return less than was asked for, and it may fail. */
  class Source {
    const data: Bytes
    const reliable: bool
    var pos: nat

    ghost predicate Valid()
      reads this
    {
      pos <= |data|
    }

    constructor (data: Bytes, reliable: bool)
      ensures Valid() && pos == 0 && this.data == data && this.reliable == reliable
    {
      this.data, this.reliable, pos := data, reliable, 0;
    }

    method Read(want: nat) returns (r: Result<Bytes, BlobError>)
      requires Valid()
      modifies this
      ensures Valid()
      ensures r.Ok? ==> old(pos) <= pos && |r.value| == pos - old(pos) <= want && r.value == data[old(pos)..pos]
      ensures r.Ok? && r.value == [] ==> want == 0 || pos == |data|
      ensures r.Err? ==> pos == old(pos) && r.error == Io
      ensures reliable ==> r.Ok?
    {
      var fails: bool := *;
      if fails && !reliable {
        return Err(Io);
      }
      var n :| 0 <= n <= want && n <= |data| - pos && (n == 0 ==> want == 0 || pos == |data|);
      r := Ok(data[pos..pos + n]);
      pos := pos + n;
    }

    /** `Read::read_exact`. */
    method ReadExact(want: nat) returns (r: Result<Bytes, BlobError>)
      requires Valid()
      modifies this
      ensures Valid() && old(pos) <= pos
      ensures r.Ok? ==> |r.value| == want && pos == old(pos) + want && r.value == data[old(pos)..pos]
      ensures r == Err(UnexpectedEof) ==> old(pos) + want > |data|
      ensures r.Ok? || r.error == UnexpectedEof || r.error == Io
      ensures reliable && r.Err? ==> r.error == UnexpectedEof
      ensures reliable && old(pos) + want <= |data| ==> r.Ok?
    {
      var got: Bytes := [];
      while |got| < want
        invariant Valid() && pos == old(pos) + |got| && |got| <= want && got == data[old(pos)..pos]
        decreases want - |got|
      {
        var piece := Read(want - |got|);
        if piece.Err? {
          return Err(piece.error);
        }
        if piece.value == [] {
          return Err(UnexpectedEof);
        }
        got := got + piece.value;
      }
      r := Ok(got);
    }
  }

  class Decryptor {
    const c: Crypto
    const reader: Source
    const aad: Bytes
    const dek: Bytes
    const prefix: Bytes
    // The number of the next segment; nothing once the last one has been tried.
    var position: Option<nat>
    var outBuf: Bytes
    var outPos: nat
    // A byte read beyond the segment that was decrypted last.
    var pending: Option<byte>
    var finished: bool
    // The blob whose data key the header carries, if the header is genuine or not.
    ghost const id: StreamId
    ghost const plain: Bytes
    // How many full segments have been opened, and all the bytes given out.
    ghost var count: nat
    ghost var released: Bytes

    /** Where the next segment starts in the file. */
    ghost function Mark(): int
      reads this, reader
    {
      reader.pos - if pending.Some? then 1 else 0
    }

    /** However the file was made, what has been decrypted is a prefix of the plaintext, and no more
        than one chunk of it and one byte of the file is held. */
    ghost predicate Valid()
      reads this, reader
    {
      && reader.Valid() && HEADER_LEN <= Mark()
      && (pending.Some? ==> reader.data[reader.pos - 1] == pending.value)
      && |id.header| == HEADER_LEN && Lengths(c) && OpensOnly(c, id, plain) && dek == id.dek
      && aad == Aad(reader.data[..HEADER_LEN], id.doc) && prefix == PrefixIn(reader.data[..HEADER_LEN])
      && outPos <= |outBuf| <= CHUNK_SIZE
      && count <= |plain| / CHUNK_SIZE
      && (finished ==> position == None)
      && (position.Some? ==> position.value == count)
      && released + outBuf[outPos..] == (if finished then plain else plain[..count * CHUNK_SIZE])
    }

    /** The file is the genuine one as far as `start`, where the segments opened so far end. */
    ghost predicate StepsTo(start: int)
      requires Valid() && HEADER_LEN <= start <= |reader.data|
      reads this, reader
    {
      && (count > 0 ==> reader.data[..HEADER_LEN] == id.header)
      && reader.data[HEADER_LEN..start] == Head(c, id, plain, count)
    }

    /** No call has failed so far: the file is genuine as far as it has been decrypted. */
    ghost predicate InStep()
      requires Valid()
      reads this, reader
    {
      if finished then Mark() == |reader.data| && Genuine() else position.Some? && StepsTo(Mark())
    }

    /** The file is the genuine one. */
    ghost predicate Genuine()
      requires |id.header| == HEADER_LEN
      reads this, reader
    {
      reader.data == SealedFile(c, id, plain)
    }

    constructor FromHeader(c: Crypto, reader: Source, header: Bytes, dek: Bytes, doc: Bytes, ghost blob: Blob)
      requires reader.Valid() && reader.pos == HEADER_LEN && header == reader.data[..HEADER_LEN]
      requires Lengths(c) && OpensOnly(c, StreamId(dek, blob.header, doc), blob.plain)
      ensures Valid() && InStep() && released == [] && id == StreamId(dek, blob.header, doc) && plain == blob.plain
      ensures this.reader == reader && this.c == c
    {
      this.c, this.reader, this.dek := c, reader, dek;
      aad, prefix := Aad(header, doc), PrefixIn(header);
      position, outBuf, outPos, pending, finished := Some(0), [], 0, None, false;
      id, plain := StreamId(dek, blob.header, doc), blob.plain;
      count, released := 0, [];
    }

    /** `Decryptor::new`. It takes a header only if its key was wrapped for this document. */
    static method New(c: Crypto, reader: Source, mk: Bytes, doc: Bytes, ghost blobs: map<Bytes, Blob>)
      returns (r: Result<Decryptor, BlobError>)
      requires reader.Valid() && reader.pos == 0 && Ideal(c, mk, doc, blobs)
      modifies reader
      ensures r.Ok? ==> fresh(r.value) && r.value.Valid() && r.value.InStep() && r.value.released == []
      ensures r.Ok? ==> r.value.reader == reader && r.value.c == c && r.value.id.doc == doc
      ensures r.Ok? ==> r.value.id.dek in blobs && blobs[r.value.id.dek] == Blob(r.value.id.header, r.value.plain)
      ensures reader.reliable ==> (r.Ok? <==> GoodHeader(c, mk, doc, reader.data))
      ensures reader.reliable && r.Ok? ==> c.unwrapDek(mk, doc, WrappedIn(reader.data[..HEADER_LEN])) == Some(r.value.id.dek)
      ensures r.Err? ==> r.error in {Io, UnexpectedEof, Malformed, UnsupportedVersion, Authentication}
      ensures reader.reliable ==>
        var d := reader.data;
        if |d| < 97 then r == Err(UnexpectedEof)
        else if d[..4] != [0x53, 0x43, 0x52, 0x47] then r == Err(Malformed)
        else if d[4] != 1 then r == Err(UnsupportedVersion)
        else if c.unwrapDek(mk, doc, d[5..78]).None? then r == Err(Authentication)
        else r.Ok? && Some(r.value.id.dek) == c.unwrapDek(mk, doc, d[5..78]) && reader.pos == 97
    {
      var header := reader.ReadExact(HEADER_LEN);
      if header.Err? {
        return Err(header.error);
      }
      var h := header.value;
      assert h[0..4] == reader.data[..4] && h[5..5 + WRAPPED_KEY_LEN] == reader.data[5..78];
      if h[0..4] != MAGIC {
        return Err(Malformed);
      }
      if h[4] != VERSION {
        return Err(UnsupportedVersion);
      }
      var dek := c.unwrapDek(mk, doc, h[5..5 + WRAPPED_KEY_LEN]);
      if dek.None? {
        return Err(Authentication);
      }
      var d := new Decryptor.FromHeader(c, reader, h, dek.value, doc, blobs[dek.value]);
      r := Ok(d);
    }

    /** The bytes of the next segment: up to a full one, or to the end of the file. */
    method Gather() returns (r: Result<Bytes, BlobError>)
      requires Valid() && !finished
      modifies `pending, reader
      ensures Valid() && pending == None && old(Mark()) <= Mark()
      ensures r.Ok? ==> |r.value| <= SEGMENT_LEN && Mark() == old(Mark()) + |r.value|
      ensures r.Ok? ==> r.value == reader.data[old(Mark())..Mark()]
      ensures r.Ok? && |r.value| < SEGMENT_LEN ==> Mark() == |reader.data|
      ensures r.Err? ==> r.error == Io
      ensures reader.reliable ==> r.Ok?
      ensures reader.pos <= old(reader.pos) + SEGMENT_LEN
    {
      hide Lengths, OpensOnly, Aad, PrefixIn;
      ghost var start := Mark();
      var ciphertext: Bytes := [];
      if pending.Some? {
        ciphertext := [pending.value];
        pending := None;
      }
      while |ciphertext| < SEGMENT_LEN
        invariant Valid() && pending == None && start <= reader.pos
        invariant |ciphertext| <= SEGMENT_LEN && ciphertext == reader.data[start..reader.pos]
        invariant reader.pos <= old(reader.pos) + |ciphertext|
        decreases SEGMENT_LEN - |ciphertext|
      {
        var want := if SEGMENT_LEN - |ciphertext| <= TMP_LEN then SEGMENT_LEN - |ciphertext| else TMP_LEN;
        var piece := reader.Read(want);
        if piece.Err? {
          return Err(piece.error);
        }
        if piece.value == [] {
          break;
        }
        ciphertext := ciphertext + piece.value;
      }
      r := Ok(ciphertext);
    }

    /** The one-byte probe behind a full segment. */
    method Probe() returns (r: Result<bool, BlobError>)
      requires Valid() && pending == None && !finished
      modifies `pending, reader
      ensures Valid() && Mark() == old(Mark())
      ensures r.Ok? ==> (r.value <==> Mark() == |reader.data|)
      ensures reader.pos <= old(reader.pos) + 1
      ensures r.Err? ==> r.error == Io
      ensures reader.reliable ==> r.Ok?
    {
      var one := reader.Read(1);
      if one.Err? {
        return Err(one.error);
      }
      if one.value != [] {
        pending := Some(one.value[0]);
      }
      r := Ok(one.value == []);
    }

    /** `fill_next_segment`. */
    method FillNextSegment() returns (r: Result<(), BlobError>)
      requires Valid() && !finished && outPos == |outBuf|
      modifies this, reader
      ensures Valid() && released == old(released)
      ensures r.Ok? ==> outPos == 0 && (outBuf == [] ==> finished)
      ensures r.Ok? && old(InStep()) ==> InStep()
      ensures reader.reliable && Genuine() && |plain| / CHUNK_SIZE <= COUNTER_MAX && old(InStep()) ==> r.Ok?
      ensures reader.pos <= old(reader.pos) + 1_048_593
      ensures reader.reliable ==>
        var start, end := old(Mark()), if |reader.data| - old(Mark()) < 1_048_592 then |reader.data| else old(Mark()) + 1_048_592;
        Answers(r, reader.data[start..end], end == |reader.data|, old(position)) && (r.Ok? ==> Mark() == end)
    {
      hide Lengths, OpensOnly, Aad, PrefixIn, SealedFile, Head, IsSegment, Answers;
      ghost var start := Mark();
      var gathered := Gather();
      if gathered.Err? {
        return Err(gathered.error);
      }
      var ciphertext := gathered.value;
      if Genuine() && old(InStep()) {
        NextIsGenuine(c, id, plain, reader.data, count, start, Mark());
      }
      var last := true;
      if |ciphertext| == SEGMENT_LEN {
        var probed := Probe();
        if probed.Err? {
          return Err(probed.error);
        }
        last := probed.value;
      }
      if |ciphertext| < TAG_LEN {
        TooShort(ciphertext, last, position);
        return Err(Malformed);
      }
      r := OpenSegment(ciphertext, last, start);
    }

    /** What becomes of the bytes `x` taken for a segment, the last one or not, at a position of the stream. */
    ghost predicate Answers(r: Result<(), BlobError>, x: Bytes, last: bool, at: Option<nat>)
      reads this, reader
      requires 97 <= |reader.data|
    {
      if |x| < 16 then r == Err(Malformed)
      else if at.None? then r == Err(Finished)
      else if !last && at.value >= 0xFFFF_FFFF then r == Err(CounterExhausted)
      else
        var chunk := c.open(dek, Nonce(reader.data[78..97], at.value, last), reader.data[..97] + id.doc, x);
        if chunk.None? then r == Err(Authentication)
        else r.Ok? && outBuf == chunk.value && outPos == 0 && finished == last
    }

    lemma BoundTo()
      requires Valid()
      ensures aad == reader.data[..97] + id.doc && prefix == reader.data[78..97]
    {
    }

    lemma TooShort(x: Bytes, last: bool, at: Option<nat>)
      requires |x| < 16 && 97 <= |reader.data|
      ensures Answers(Err(Malformed), x, last, at)
    {
    }

    /** Decrypts what `Gather` found, as the last segment or as another one. */
    method OpenSegment(ciphertext: Bytes, last: bool, ghost start: int) returns (r: Result<(), BlobError>)
      requires Valid() && !finished && outPos == |outBuf|
      requires HEADER_LEN <= start <= Mark() && ciphertext == reader.data[start..Mark()] && TAG_LEN <= |ciphertext|
      requires last <==> Mark() == |reader.data|
      modifies `position, `finished, `count, `outBuf, `outPos
      ensures Valid() && released == old(released)
      ensures r.Ok? ==> outPos == 0 && (outBuf == [] ==> finished)
      ensures r.Ok? && old(position.Some? && StepsTo(start)) ==> InStep()
      ensures Answers(r, ciphertext, last, old(position))
      ensures (&& IsSegment(c, id, plain, old(count), last, ciphertext) && (last || old(count) < COUNTER_MAX)
               && old(position.Some? && StepsTo(start)) && reader.data[..HEADER_LEN] == id.header)
              ==> r.Ok?
    {
      hide Lengths, OpensOnly, Aad, PrefixIn, SealedFile, Head, IsSegment, SealAt, Chunk, LastChunk, Opened;
      BoundTo();
      assert outBuf[outPos..] == [] && released == plain[..count * CHUNK_SIZE];
      if position.None? {
        return Err(Finished);
      }
      var k := position.value;
      if !last && k >= COUNTER_MAX {
        return Err(CounterExhausted);
      }
      if last {
        position := None;
      }
      if IsSegment(c, id, plain, k, last, ciphertext) {
        SegmentOpens(c, id, plain, k, last, ciphertext);
      }
      var chunk := c.open(dek, Nonce(prefix, k, last), aad, ciphertext);
      if chunk.None? {
        return Err(Authentication);
      }
      SegmentOpened(c, id, plain, reader.data[..HEADER_LEN], k, last, ciphertext);
      if old(StepsTo(start)) {
        StepExtends(c, id, plain, reader.data, k, start, Mark(), last);
      }
      if last {
        finished := true;
      } else {
        position := Some(k + 1);
        count := count + 1;
      }
      outBuf, outPos := chunk.value, 0;
      r := Ok(());
    }

    /** `Read::read` into the caller's buffer. */
    method Read(buf: array<byte>) returns (r: Result<nat, BlobError>)
      requires Valid()
      modifies this, reader, buf
      ensures Valid() && released <= plain
      ensures r.Ok? ==> r.value <= buf.Length && released == old(released) + buf[..r.value] && buf[r.value..] == old(buf[r.value..])
      ensures r.Err? ==> released == old(released) && buf[..] == old(buf[..])
      ensures r == Ok(0) && buf.Length > 0 ==> finished && released == plain
      ensures r.Ok? && old(InStep()) ==> InStep()
      ensures reader.reliable && Genuine() && |plain| / CHUNK_SIZE <= COUNTER_MAX && old(InStep()) ==> r.Ok?
      ensures old(outPos < |outBuf|) ==> r.Ok? && reader.pos == old(reader.pos) && outBuf == old(outBuf)
      ensures old(outPos >= |outBuf| && finished) ==> r == Ok(0)
      ensures r.Ok? && r.value < buf.Length ==> outPos == |outBuf|
      ensures reader.pos <= old(reader.pos) + 1_048_593
    {
      hide Lengths, OpensOnly, Aad, PrefixIn, SealedFile, Head, InStep, Answers;
      PrefixReleased();
      if outPos >= |outBuf| {
        if finished {
          return Ok(0);
        }
        var filled := FillNextSegment();
        if filled.Err? {
          return Err(filled.error);
        }
        if outBuf == [] {
          return Ok(0);
        }
      }
      r := GiveOut(buf);
      PrefixReleased();
    }

    /** As much of the current chunk as fits in the buffer. */
    method GiveOut(buf: array<byte>) returns (r: Result<nat, BlobError>)
      requires Valid() && (finished || outPos < |outBuf|)
      modifies `released, `outPos, buf
      ensures Valid() && (old(InStep()) ==> InStep())
      ensures r.Ok? && r.value <= buf.Length
      ensures released == old(released) + buf[..r.value] && buf[r.value..] == old(buf[r.value..])
      ensures r == Ok(0) && buf.Length > 0 ==> finished && outPos == |outBuf|
      ensures r.value < buf.Length ==> outPos == |outBuf|
    {
      hide Lengths, OpensOnly, Aad, PrefixIn, SealedFile, Head;
      var available := outBuf[outPos..];
      var n := if |available| <= buf.Length then |available| else buf.Length;
      CopyFromSlice(buf, available[..n]);
      Handed(released, outBuf, outPos, n);
      released := released + available[..n];
      outPos := outPos + n;
      r := Ok(n);
    }

    lemma PrefixReleased()
      requires Valid()
      ensures released <= plain && (finished && outPos == |outBuf| ==> released == plain)
    {
      var shown := released + outBuf[outPos..];
      assert released == shown[..|released|];
    }
  }

  /** `copy_from_slice` into the front of the buffer. */
  method CopyFromSlice(buf: array<byte>, data: Bytes)
    requires |data| <= buf.Length
    modifies buf
    ensures buf[..|data|] == data && buf[|data|..] == old(buf[|data|..])
  {
    forall i | 0 <= i < |data| {
      buf[i] := data[i];
    }
  }

  lemma Handed(released: Bytes, outBuf: Bytes, outPos: nat, n: nat)
    requires outPos + n <= |outBuf|
    ensures released + outBuf[outPos..][..n] + outBuf[outPos + n..] == released + outBuf[outPos..]
  {
    assert outBuf[outPos..] == outBuf[outPos..][..n] + outBuf[outPos + n..];
  }

  /** The caller's loop, with a buffer of any size: what it has when it stops is a prefix of the
      plaintext, and all of it exactly when the file is the genuine one. */
  method ReadToEnd(d: Decryptor, size: nat) returns (out: Bytes, r: Result<(), BlobError>)
    requires d.Valid() && d.InStep() && d.released == [] && size > 0
    modifies d, d.reader
    ensures d.Valid() && out <= d.plain
    ensures r.Ok? ==> out == d.plain && d.Genuine()
    ensures d.reader.reliable && d.Genuine() && |d.plain| / CHUNK_SIZE <= COUNTER_MAX ==> r.Ok?
  {
    hide Lengths, OpensOnly, Aad, PrefixIn, SealedFile, Head;
    out := [];
    var buf := new byte[size];
    var more := true;
    while more
      invariant d.Valid() && out == d.released <= d.plain
      invariant d.InStep()
      invariant !more ==> d.finished && out == d.plain
      decreases |d.plain| - |out|, more
    {
      var n := d.Read(buf);
      if n.Err? {
        return out, Err(n.error);
      }
      out := out + buf[..n.value];
      more := n.value > 0;
    }
    r := Ok(());
  }

  /** Any file at all, read as a blob of a document: it decrypts to the end exactly when it is one of
      the blobs that were sealed for that document, byte for byte, and until then nothing is given out
      but the beginning of such a blob's plaintext. */
  method DecryptFile(c: Crypto, mk: Bytes, doc: Bytes, file: Bytes, reliable: bool, size: nat, ghost blobs: map<Bytes, Blob>)
    returns (out: Bytes, r: Result<(), BlobError>, ghost dek: Bytes)
    requires Ideal(c, mk, doc, blobs) && size > 0
    ensures r.Ok? || out != [] ==> dek in blobs && out <= blobs[dek].plain
    ensures r.Ok? ==> out == blobs[dek].plain && IsBlob(c, doc, file, blobs, dek)
    ensures forall k :: reliable && IsBlob(c, doc, file, blobs, k) && |blobs[k].plain| / CHUNK_SIZE <= COUNTER_MAX ==>
              r.Ok? && out == blobs[k].plain
  {
    hide Lengths, OpensOnly, Aad, PrefixIn, SealedFile, Ideal;
    dek := [];
    var reader := new Source(file, reliable);
    forall k | IsBlob(c, doc, file, blobs, k)
      ensures GoodHeader(c, mk, doc, file) && c.unwrapDek(mk, doc, WrappedIn(file[..HEADER_LEN])) == Some(k)
    {
      GenuineHeader(c, mk, doc, file, blobs, k);
    }
    var d := Decryptor.New(c, reader, mk, doc, blobs);
    if d.Err? {
      return [], Err(d.error), dek;
    }
    dek := d.value.id.dek;
    out, r := ReadToEnd(d.value, size);
  }

  /** The file is the blob sealed with this data key. */
  ghost predicate IsBlob(c: Crypto, doc: Bytes, file: Bytes, blobs: map<Bytes, Blob>, dek: Bytes) {
    && dek in blobs && |blobs[dek].header| == HEADER_LEN
    && file == SealedFile(c, StreamId(dek, blobs[dek].header, doc), blobs[dek].plain)
  }

  lemma GenuineHeader(c: Crypto, mk: Bytes, doc: Bytes, file: Bytes, blobs: map<Bytes, Blob>, dek: Bytes)
    requires Ideal(c, mk, doc, blobs) && IsBlob(c, doc, file, blobs, dek)
    ensures GoodHeader(c, mk, doc, file) && c.unwrapDek(mk, doc, WrappedIn(file[..HEADER_LEN])) == Some(dek)
  {
    hide Head, SealAt, OpensOnly, Lengths;
    assert file[..HEADER_LEN] == blobs[dek].header;
    assert file[..4] == file[..HEADER_LEN][..4] && file[4] == file[..HEADER_LEN][4];
  }

  /** Encrypting in pieces and decrypting in pieces: the plaintext comes back, whatever its length and
      however short the reads and the buffer are. */
  method RoundTrip(c: Crypto, mk: Bytes, doc: Bytes, dek: Bytes, prefix: Bytes, nonce: nat, pieces: seq<Bytes>, size: nat)
    returns (out: Bytes)
    requires |prefix| == NONCE_PREFIX_LEN && size > 0 && |Concat(pieces)| / CHUNK_SIZE <= COUNTER_MAX
    requires Ideal(c, mk, doc, map[dek := Blob(Header(c.wrapDek(mk, doc, dek, nonce), prefix), Concat(pieces))])
    ensures out == Concat(pieces)
  {
    hide SealedFile, Concat, OpensOnly;
    ghost var blobs := map[dek := Blob(Header(c.wrapDek(mk, doc, dek, nonce), prefix), Concat(pieces))];
    var writer := new Sink(true);
    var e := Encryptor.New(c, writer, mk, doc, dek, prefix, nonce);
    var done := EncryptPieces(e.value, pieces);
    assert IsBlob(c, doc, writer.written, blobs, dek);
    var r;
    ghost var key;
    out, r, key := DecryptFile(c, mk, doc, writer.written, true, size, blobs);
  }

  /** A file that starts like a blob of this document. */
  predicate GoodHeader(c: Crypto, mk: Bytes, doc: Bytes, file: Bytes) {
    && HEADER_LEN <= |file| && file[..4] == MAGIC && file[4] == VERSION
    && c.unwrapDek(mk, doc, WrappedIn(file[..HEADER_LEN])).Some?
  }

  lemma SegmentOpens(c: Crypto, id: StreamId, plain: Bytes, k: nat, last: bool, x: Bytes)
    requires OpensOnly(c, id, plain) && |id.header| == HEADER_LEN && IsSegment(c, id, plain, k, last, x)
    ensures c.open(id.dek, Nonce(PrefixIn(id.header), k, last), Aad(id.header, id.doc), x).Some?
  {
  }

  /** Whatever opens is the segment that belongs there, and the header was the genuine one. */
  lemma SegmentOpened(c: Crypto, id: StreamId, plain: Bytes, header: Bytes, k: nat, last: bool, x: Bytes)
    requires Lengths(c) && OpensOnly(c, id, plain) && |header| == HEADER_LEN
    requires c.open(id.dek, Nonce(PrefixIn(header), k, last), Aad(header, id.doc), x).Some?
    ensures header == id.header && IsSegment(c, id, plain, k, last, x)
    ensures var chunk := c.open(id.dek, Nonce(PrefixIn(header), k, last), Aad(header, id.doc), x).value;
      if last then k == |plain| / CHUNK_SIZE && |chunk| < CHUNK_SIZE && plain[..k * CHUNK_SIZE] + chunk == plain
      else k < |plain| / CHUNK_SIZE && |chunk| == CHUNK_SIZE && plain[..k * CHUNK_SIZE] + chunk == plain[..(k + 1) * CHUNK_SIZE]
  {
    assert header == Aad(header, id.doc)[..HEADER_LEN];
    assert id.header == Aad(id.header, id.doc)[..HEADER_LEN];
    assert plain[..k * CHUNK_SIZE] + plain[k * CHUNK_SIZE..] == plain;
  }

  /** The file is genuine one segment further. */
  lemma StepExtends(c: Crypto, id: StreamId, plain: Bytes, data: Bytes, k: nat, start: int, end: int, last: bool)
    requires |id.header| == HEADER_LEN && k <= |plain| / CHUNK_SIZE && HEADER_LEN <= start <= end <= |data|
    requires data[HEADER_LEN..start] == Head(c, id, plain, k) && data[..HEADER_LEN] == id.header
    requires IsSegment(c, id, plain, k, last, data[start..end])
    ensures last && end == |data| ==> data == SealedFile(c, id, plain)
    ensures !last ==> data[HEADER_LEN..end] == Head(c, id, plain, k + 1)
  {
    assert data[HEADER_LEN..end] == data[HEADER_LEN..start] + data[start..end];
    if last && end == |data| {
      assert data == data[..HEADER_LEN] + data[HEADER_LEN..start] + data[start..end];
    }
  }

  /** What `Gather` finds next in the genuine file is the next genuine segment, and it is the last one
      exactly when the file ends there. */
  lemma NextIsGenuine(c: Crypto, id: StreamId, plain: Bytes, data: Bytes, k: nat, start: int, end: int)
    requires Lengths(c) && |id.header| == HEADER_LEN && data == SealedFile(c, id, plain)
    requires k <= |plain| / CHUNK_SIZE && HEADER_LEN <= start <= end <= |data| && end - start <= SEGMENT_LEN
    requires data[HEADER_LEN..start] == Head(c, id, plain, k)
    requires end - start < SEGMENT_LEN ==> end == |data|
    ensures data[..HEADER_LEN] == id.header && TAG_LEN <= end - start && (end < |data| ==> k < |plain| / CHUNK_SIZE)
    ensures IsSegment(c, id, plain, k, end == |data|, data[start..end])
  {
    hide Lengths, SealAt;
    var m := |plain| / CHUNK_SIZE;
    HeadLength(c, id, plain, k);
    HeadLength(c, id, plain, m);
    FileLength(c, id, plain);
    SealLength(c, id, m, true, LastChunk(plain));
    assert start == HEADER_LEN + k * SEGMENT_LEN;
    assert data[..HEADER_LEN] == id.header;
    if k < m {
      SegmentAt(c, id, plain, k);
    } else {
      assert data[start..] == SealAt(c, id, m, true, LastChunk(plain));
      assert data[start..end] == data[start..];
    }
  }
}
