/**
 * `POST /api/shares` and `GET /api/shares/:shortId` of apps/api-gateway/src/routes/shares.ts: what a create body
 * must satisfy, the row it becomes, and the descriptor a receiver gets back.
 */
module GatewayCreate {
  import opened Wrappers
  import opened Bytes
  import opened Base64Url
  import opened Codecs
  import opened Slicing
  import opened Upload
  import opened Download

  const FILE_HASH_BYTES: nat := 32
  const NONCE_META_BYTES: nat := 24
  const PASSWORD_SALT_BYTES: nat := 16
  const MAX_CHUNK_SIZE_BYTES: nat := 10 * 1024 * 1024
  const MAX_META_CHARS: nat := 8192

  /** A base64url field of 1 to 64 characters that stands for exactly `n` bytes. */
  predicate IsField(text: string, n: nat)
  {
    1 <= |text| <= 64 && GatewayDecode(text).Some? && |GatewayDecode(text).value| == n
  }

  predicate PasswordAccepted(q: PasswordFields)
  {
    match q
    case NoPassword => true
    case Password(salt, opsLimit, memLimitKib) =>
      IsField(salt, PASSWORD_SALT_BYTES) && 1 <= opsLimit <= 10 && 8192 <= memLimitKib <= 1_048_576
  }

  /** `CreateShareSchema` with its cross-field checks, and the decoding of the metadata that follows it. */
  predicate CreateAccepted(q: CreateRequest, maxFile: nat)
  {
    && GatewayAcceptsTotals(q.fileSize, q.chunkCount, q.chunkSize, maxFile)
    && 0 < q.chunkSize <= MAX_CHUNK_SIZE_BYTES - AEAD_TAG_BYTES
    && IsField(q.fileHash, FILE_HASH_BYTES) && IsField(q.nonceMeta, NONCE_META_BYTES)
    && 1 <= |q.encryptedMeta| <= MAX_META_CHARS && GatewayDecode(q.encryptedMeta).Some?
    && PasswordAccepted(q.password)
  }

  datatype PasswordColumns = PasswordColumns(salt: ByteString, opsLimit: int, memLimitKib: int)

  /** The columns written by the INSERT that the descriptor reads back. */
  datatype Inserted = Inserted(
    encryptedMeta: ByteString, nonceMeta: ByteString, fileSize: nat, chunkCount: nat, chunkSize: nat,
    burnAfterRead: bool, password: Option<PasswordColumns>)

  function DecodedOr(text: string): (r: ByteString)
  {
    if GatewayDecode(text).Some? then GatewayDecode(text).value else []
  }

  function Insert(q: CreateRequest): (r: Inserted)
  {
    Inserted(
      DecodedOr(q.encryptedMeta), DecodedOr(q.nonceMeta), q.fileSize, q.chunkCount, q.chunkSize, q.burnAfterRead,
      match q.password
      case NoPassword => None
      case Password(salt, opsLimit, memLimitKib) => Some(PasswordColumns(DecodedOr(salt), opsLimit, memLimitKib)))
  }

  function Describe(row: Inserted): (d: Descriptor)
  {
    Descriptor(
      GatewayEncode(row.encryptedMeta), GatewayEncode(row.nonceMeta), row.chunkCount, row.fileSize, row.burnAfterRead,
      match row.password
      case None => NoPassword
      case Some(p) => Password(GatewayEncode(p.salt), p.opsLimit, p.memLimitKib))
  }

  /** An encoded byte string is a field of its own length. */
  lemma EncodedIsField(b: ByteString, n: nat)
    requires |b| == n && 1 <= n <= 48
    ensures IsField(UrlEncode(b), n) && DecodedOr(UrlEncode(b)) == b
  {
    RoundTrip(b);
    EncodedLength(b);
  }

  /** Only what an encoder can produce survives the column: decoded and encoded again, it is the same text. */
  lemma EncodedSurvivesTheColumn(b: ByteString)
    requires b != []
    ensures GatewayEncode(DecodedOr(UrlEncode(b))) == UrlEncode(b)
  {
    RoundTrip(b);
  }

  /**
   * Whatever a client sends, what is accepted is well formed where it is stored and where it is read back: totals
   * that cover the file within the caps, columns of their exact lengths, and a descriptor whose nonce, metadata and
   * salt the receiver can decode, to those same bytes.
   */
  lemma AcceptedIsWellFormed(q: CreateRequest, maxFile: nat)
    requires CreateAccepted(q, maxFile)
    ensures 0 < q.fileSize <= q.chunkCount * q.chunkSize <= maxFile && 0 < q.chunkCount <= 100_000
    ensures 0 < q.chunkSize && q.chunkSize + 16 <= 10 * 1024 * 1024
    ensures |DecodedOr(q.fileHash)| == 32 && |q.encryptedMeta| <= 8192
    ensures
      var row := Insert(q);
      var d := Describe(row);
      && |row.nonceMeta| == 24 && CryptoCoreDecode(d.nonceMeta) == Some(row.nonceMeta)
      && |row.encryptedMeta| == 3 * |q.encryptedMeta| / 4 && CryptoCoreDecode(d.encryptedMeta) == Some(row.encryptedMeta)
      && (q.password.NoPassword? <==> d.password.NoPassword?) && (q.password.NoPassword? <==> row.password == None)
      && (d.password.Password? ==>
            && |row.password.value.salt| == 16 && CryptoCoreDecode(d.password.salt) == Some(row.password.value.salt)
            && d.password.opsLimit == q.password.opsLimit && 1 <= d.password.opsLimit <= 10
            && d.password.memLimitKib == q.password.memLimitKib
            && 8 * 1024 * 1024 <= d.password.memLimitKib * 1024 <= 1024 * 1024 * 1024)
  {
    hide GatewayDecode, CryptoCoreDecode, UrlEncode;
    var row := Insert(q);
    RoundTrip(row.nonceMeta);
    RoundTrip(row.encryptedMeta);
    if q.password.Password? {
      RoundTrip(row.password.value.salt);
    }
    DecodedLength(q.encryptedMeta);
  }

  /** Three bytes for four characters; a single character, which the gateway takes, stands for none. */
  lemma DecodedLength(text: string)
    requires GatewayDecode(text).Some?
    ensures |GatewayDecode(text).value| == 3 * |text| / 4
  {
    DecodersOnUrlText(text);
  }
}
