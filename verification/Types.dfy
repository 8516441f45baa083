/** Values shared by the server and the devices, with ideal cryptography: a sealed value is the
    record of what was sealed and for whom, so opening it under anything else fails. */
module Types {

  datatype Option<+T> = None | Some(value: T)

  datatype Result<+T, +E> = Ok(value: T) | Err(error: E)

  type byte = b: nat | b < 256

  type Bytes = seq<byte>

  // Identifiers are drawn from one global supply of numbers; see System.supply.
  type DocId = nat
  type BlobId = nat
  type DevId = nat

  const CHUNK_SIZE: nat := 1_048_576
  const TAG_LEN: nat := 16
  const WRAPPED_KEY_LEN: nat := 73
  const NONCE_PREFIX_LEN: nat := 19
  const HEADER_LEN: nat := 4 + 1 + WRAPPED_KEY_LEN + NONCE_PREFIX_LEN

  /** Length of the blob file for `n` plaintext bytes: the header, the bytes, one tag a segment. */
  function SealedLength(n: nat): nat {
    HEADER_LEN + n + TAG_LEN * (n / CHUNK_SIZE + 1)
  }

  /** An encrypted blob: bound to one document, made unique by its random key and nonce prefix. */
  datatype CipherBlob = CipherBlob(doc: DocId, plain: Bytes, salt: nat) {
    function Size(): nat { SealedLength(|plain|) }

    /** `Decryptor::new` and the reads behind it succeed for the right document only. */
    function Decrypt(d: DocId): Option<Bytes> {
      if doc == d then Some(plain) else None
    }
  }

  /** An ideal BLAKE3 digest: equal digests come from equal ciphertexts. */
  datatype Digest = Digest(of: CipherBlob)

  datatype DocMeta = DocMeta(
    title: string,
    tags: seq<string>,
    note: string,
    mime: string,
    size: nat,
    contentHash: Digest,
    originalName: string,
    createdAt: nat,
    thumb: Option<string>)

  /** `EncMeta`: metadata sealed for one document and one version of it. */
  datatype EncMeta = Sealed(doc: DocId, version: nat, nonce: nat, plain: DocMeta)

  function Seal(doc: DocId, version: nat, nonce: nat, meta: DocMeta): EncMeta {
    Sealed(doc, version, nonce, meta)
  }

  function Open(doc: DocId, version: nat, enc: EncMeta): Option<DocMeta> {
    if enc.doc == doc && enc.version == version then Some(enc.plain) else None
  }
}
