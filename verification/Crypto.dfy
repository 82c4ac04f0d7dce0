/**
 * The cryptographic calls of crypto-core. The primitives themselves (XChaCha20-Poly1305, BLAKE2b, SHA-256,
 * Argon2id) and JSON are an argument: any functions at all. What crypto-core adds around them, the length
 * checks and the key derivation, is written out.
 */
module Crypto {
  import opened Wrappers
  import opened Bytes
  import opened Framing

  const NONCE_BYTES: nat := 24
  const TAG_BYTES: nat := 16
  const SALT_BYTES: nat := 16
  const MAX_PASSWORD_BYTES: nat := 4096

  /** The metadata object sealed beside the file; the last two fields are absent from older shares. */
  datatype ShareMeta = ShareMeta(fileName: string, mimeType: string, fileHash: Option<string>, chunkCount: Option<int>)

  datatype Primitives = Primitives(
    seal: (ByteString, ByteString, ByteString, ByteString) -> ByteString,          // key, nonce, aad, plaintext
    open: (ByteString, ByteString, ByteString, ByteString) -> Option<ByteString>,  // key, nonce, aad, ciphertext
    blake2b: ByteString -> ByteString,
    keyedBlake2b: (ByteString, ByteString) -> ByteString,                          // message, key
    argon2id: (string, ByteString, int, int) -> ByteString,                        // password, salt, ops, memory in bytes
    sha256: ByteString -> ByteString,
    writeMeta: ShareMeta -> ByteString,
    readMeta: ByteString -> Option<ShareMeta>)

  /** `encryptChunk`; None where it throws. */
  function EncryptChunk(p: Primitives, key: ByteString, nonce: ByteString, aad: ByteString, plaintext: ByteString)
    : (r: Option<ByteString>)
  {
    if |key| != KEY_BYTES || |nonce| != NONCE_BYTES then None else Some(p.seal(key, nonce, aad, plaintext))
  }

  /** `decryptChunk`; None where it throws. */
  function DecryptChunk(p: Primitives, key: ByteString, nonce: ByteString, aad: ByteString, ciphertext: ByteString)
    : (r: Option<ByteString>)
  {
    if |key| != KEY_BYTES || |nonce| != NONCE_BYTES || |ciphertext| < TAG_BYTES then None
    else p.open(key, nonce, aad, ciphertext)
  }

  /** The library's incremental hash: a state of any kind, begun, fed and finished. */
  datatype Hasher<!S> = Hasher(init: S, update: (S, ByteString) -> S, final: S -> ByteString)

  /** Its contract: feeding parts one by one finishes as the hash of their concatenation, for parts fed in one or two pieces. */
  ghost predicate Streams<S(!new)>(h: Hasher<S>, hash: ByteString -> ByteString)
  {
    && (forall m: ByteString :: h.final(h.update(h.init, m)) == hash(m))
    && (forall st: S, a: ByteString, b: ByteString :: h.update(h.update(st, a), b) == h.update(st, a + b))
    && h.update(h.init, []) == h.init
  }

  lemma StreamLaws<S(!new)>(h: Hasher<S>, hash: ByteString -> ByteString, a: ByteString, b: ByteString)
    requires Streams(h, hash)
    ensures h.final(h.update(h.init, a)) == hash(a)
    ensures h.update(h.update(h.init, a), b) == h.update(h.init, a + b)
    ensures h.update(h.init, []) == h.init
  {
  }

  lemma NothingToHash(chunks: seq<ByteString>)
    ensures Concat(chunks[..0]) == []
  {
  }

  /** `hashChunks`: init, one update for each chunk, final; the state never holds the file. */
  method HashChunks<S(!new)>(h: Hasher<S>, ghost hash: ByteString -> ByteString, chunks: seq<ByteString>) returns (r: ByteString)
    requires Streams(h, hash)
    ensures r == hash(Concat(chunks))
  {
    hide Streams, Concat;
    StreamLaws(h, hash, [], []);
    assert Concat(chunks[..0]) == [] by { NothingToHash(chunks); }
    var state := h.init;
    for i := 0 to |chunks|
      invariant state == h.update(h.init, Concat(chunks[..i]))
    {
      assert chunks[..i + 1] == chunks[..i] + [chunks[i]];
      ConcatSnoc(chunks[..i], chunks[i]);
      StreamLaws(h, hash, Concat(chunks[..i]), chunks[i]);
      state := h.update(state, chunks[i]);
    }
    assert chunks[..|chunks|] == chunks;
    StreamLaws(h, hash, Concat(chunks), []);
    r := h.final(state);
  }

  /** The UTF-8 bytes of "slothbox-aead-kdf-v1". */
  const AEAD_KDF_LABEL: ByteString := [
    115, 108, 111, 116, 104, 98, 111, 120, 45, 97, 101, 97, 100, 45, 107, 100, 102, 45, 118, 49
  ]

  /** `deriveKeyFromPassword`; None where it throws. */
  function DeriveKeyFromPassword(p: Primitives, password: string, salt: ByteString, opsLimit: int, memLimit: int)
    : (r: Option<ByteString>)
  {
    if |salt| != SALT_BYTES || password == "" || |password| > MAX_PASSWORD_BYTES || |Utf8(password)| > MAX_PASSWORD_BYTES
    then None
    else Some(p.argon2id(password, salt, opsLimit, memLimit))
  }

  /** `deriveAeadKey`; None where it throws. */
  function DeriveAeadKey(p: Primitives, fragmentKey: ByteString, passwordKey: Option<ByteString>): (r: Option<ByteString>)
  {
    if |fragmentKey| != KEY_BYTES then None
    else
      match passwordKey
      case None => Some(fragmentKey)
      case Some(k) =>
        if |k| != KEY_BYTES then None else Some(p.keyedBlake2b(AEAD_KDF_LABEL + ([0] + k), fragmentKey))
  }
}
