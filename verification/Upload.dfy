/** The sender's pipeline: `uploadFile` of apps/web/src/lib/upload.ts. */
module Upload {
  import opened Wrappers
  import opened Bytes
  import opened Base64Url
  import opened Codecs
  import opened Framing
  import opened Crypto
  import opened Slicing

  const CHUNK_SIZE_BYTES: nat := 5 * 1024 * 1024

  /** The largest integer a browser represents exactly, above every possible `file.size`. */
  const MAX_SAFE_INTEGER: int := 0x1F_FFFF_FFFF_FFFF

  /** What the sender brings to one upload: the file, the options, and every random draw. */
  datatype Sender = Sender(
    file: ByteString,
    fileName: string,
    mimeType: string,
    fragmentKey: ByteString,
    password: string,              // "" when the share has none
    opsLimit: int,
    memLimitBytes: nat,
    salt: ByteString,
    nonceMeta: ByteString,
    nonces: nat -> ByteString)
  {
    /** The lengths the generators guarantee, and the file sizes a browser can hold. */
    ghost predicate WellFormed()
    {
      && |fragmentKey| == KEY_BYTES && |salt| == SALT_BYTES && |nonceMeta| == NONCE_BYTES
      && (forall i: nat :: |nonces(i)| == NONCE_BYTES)
      && |file| <= MAX_SAFE_INTEGER
    }

    function Chunks(): (n: nat)
    {
      ChunkCount(|file|, CHUNK_SIZE_BYTES)
    }

    /** `Math.round(passwordMemLimitBytes / 1024)`: halves round up. */
    function MemLimitKib(): (r: nat)
    {
      (memLimitBytes + 512) / 1024
    }

    function AeadKey(p: Primitives): (r: Option<ByteString>)
    {
      if password == "" then DeriveAeadKey(p, fragmentKey, None)
      else
        match DeriveKeyFromPassword(p, password, salt, opsLimit, memLimitBytes)
        case None => None
        case Some(k) => DeriveAeadKey(p, fragmentKey, Some(k))
    }

    function Meta(p: Primitives): (r: ShareMeta)
    {
      ShareMeta(
        fileName,
        if mimeType == "" then "application/octet-stream" else mimeType,
        Some(UrlEncode(p.blake2b(file))),
        Some(Chunks()))
    }
  }

  datatype PasswordFields = NoPassword | Password(salt: string, opsLimit: int, memLimitKib: int)

  datatype CreateRequest = CreateRequest(
    fileSize: nat, fileHash: string, encryptedMeta: string, nonceMeta: string,
    chunkCount: nat, chunkSize: nat, burnAfterRead: bool, password: PasswordFields)

  datatype CreateResponse = CreateResponse(shortId: string, uploadUrls: nat)

  datatype PutRequest = PutRequest(index: nat, ciphertext: ByteString, nonce: string, chunkTokenHash: string)

  datatype UploadError =
    FileEmpty | FileTooLarge | CryptoError | CreateFailed | WrongUrlCount | Cancelled | PutFailed

  datatype Progress = Progress(chunks: nat, chunksTotal: nat, bytes: nat, bytesTotal: int)

  /** The sealed metadata blob; None where sealing throws. */
  function SealedMeta(p: Primitives, s: Sender, key: ByteString): (r: Option<ByteString>)
  {
    match BuildChunkAad(META_ID, 0)
    case None => None
    case Some(aad) => EncryptChunk(p, key, s.nonceMeta, aad, p.writeMeta(s.Meta(p)))
  }

  /** The body of `POST /api/shares`. */
  function CreateBody(p: Primitives, s: Sender, burn: bool, sealedMeta: ByteString): (r: CreateRequest)
  {
    CreateRequest(
      |s.file|, UrlEncode(p.blake2b(s.file)), UrlEncode(sealedMeta), UrlEncode(s.nonceMeta),
      s.Chunks(), CHUNK_SIZE_BYTES, burn,
      if s.password == "" then NoPassword else Password(UrlEncode(s.salt), s.opsLimit, s.MemLimitKib()))
  }

  /** The PUT of chunk `i`; None where sealing or the token derivation throws. */
  function ChunkPut(p: Primitives, s: Sender, key: ByteString, shortId: string, i: nat): (r: Option<PutRequest>)
  {
    match BuildChunkAad(shortId, i)
    case None => None
    case Some(aad) =>
      match (EncryptChunk(p, key, s.nonces(i), aad, Slice(s.file, CHUNK_SIZE_BYTES, i)),
             DeriveChunkToken(p.sha256, s.fragmentKey, shortId, i))
      case (Some(ciphertext), Some(token)) =>
        Some(PutRequest(i, ciphertext, UrlEncode(s.nonces(i)), UrlEncode(p.sha256(token))))
      case _ => None
  }

  /** What is sent when nothing fails: the PUTs of the first `k` chunks, in order. */
  function ChunkPuts(p: Primitives, s: Sender, key: ByteString, shortId: string, k: nat): (r: Option<seq<PutRequest>>)
    ensures r.Some? ==> |r.value| == k
    ensures r.Some? ==> forall i :: 0 <= i < k ==> ChunkPut(p, s, key, shortId, i) == Some(r.value[i])
  {
    if k == 0 then Some([])
    else
      match (ChunkPuts(p, s, key, shortId, k - 1), ChunkPut(p, s, key, shortId, k - 1))
      case (Some(puts), Some(put)) => Some(puts + [put])
      case _ => None
  }

  function CiphertextBytes(puts: seq<PutRequest>): (r: nat)
  {
    if puts == [] then 0 else CiphertextBytes(puts[..|puts| - 1]) + |puts[|puts| - 1].ciphertext|
  }

  ghost predicate SealAddsTheTag(p: Primitives)
  {
    forall k, n, a, m :: |p.seal(k, n, a, m)| == |m| + TAG_BYTES
  }

  /** The ciphertext bytes of the first `k` PUTs: the plaintext up to the k-th cut and a tag for each. */
  lemma {:induction false} UploadedBytes(p: Primitives, s: Sender, key: ByteString, shortId: string, k: nat)
    requires SealAddsTheTag(p) && ChunkPuts(p, s, key, shortId, k).Some?
    ensures CiphertextBytes(ChunkPuts(p, s, key, shortId, k).value) == Cut(|s.file|, CHUNK_SIZE_BYTES, k) + TAG_BYTES * k
  {
    hide ChunkPut, Cut, SealAddsTheTag;
    if k == 0 {
      assert Cut(|s.file|, CHUNK_SIZE_BYTES, 0) == 0 by { NothingCut(s); }
    } else {
      UploadedBytes(p, s, key, shortId, k - 1);
      var puts := ChunkPuts(p, s, key, shortId, k).value;
      assert puts[..k - 1] == ChunkPuts(p, s, key, shortId, k - 1).value;
      PutBytes(p, s, key, shortId, k - 1);
    }
  }

  lemma NothingCut(s: Sender)
    ensures Cut(|s.file|, CHUNK_SIZE_BYTES, 0) == 0
  {
  }

  lemma PutBytes(p: Primitives, s: Sender, key: ByteString, shortId: string, i: nat)
    requires SealAddsTheTag(p) && ChunkPut(p, s, key, shortId, i).Some?
    ensures |ChunkPut(p, s, key, shortId, i).value.ciphertext|
         == Cut(|s.file|, CHUNK_SIZE_BYTES, i + 1) - Cut(|s.file|, CHUNK_SIZE_BYTES, i) + TAG_BYTES
  {
    hide BuildChunkAad, DeriveChunkToken, UrlEncode;
    CutMonotone(|s.file|, CHUNK_SIZE_BYTES, i);
  }

  /** The events of the first PUTs: chunks, and ciphertext bytes up to their cut, of the same totals. */
  ghost predicate IsProgress(s: Sender, progress: seq<Progress>)
  {
    forall k :: 0 <= k < |progress| ==>
      progress[k] == Progress(k + 1, s.Chunks(), Cut(|s.file|, CHUNK_SIZE_BYTES, k + 1) + 16 * (k + 1), |s.file| + 16 * s.Chunks())
  }

  /** Each of these PUTs was made before any cancellation, and accepted. */
  ghost predicate AllTaken(sent: seq<PutRequest>, putAccepted: PutRequest -> bool, aborted: nat -> bool)
  {
    forall k :: 0 <= k < |sent| ==> putAccepted(sent[k]) && !aborted(k)
  }

  lemma NothingYet(s: Sender, putAccepted: PutRequest -> bool, aborted: nat -> bool)
    ensures IsProgress(s, []) && AllTaken([], putAccepted, aborted)
  {
  }

  lemma MoreProgress(s: Sender, progress: seq<Progress>, e: Progress)
    requires IsProgress(s, progress)
    requires
      var k := |progress|;
      e == Progress(k + 1, s.Chunks(), Cut(|s.file|, CHUNK_SIZE_BYTES, k + 1) + 16 * (k + 1), |s.file| + 16 * s.Chunks())
    ensures IsProgress(s, progress + [e])
  {
  }

  lemma MoreTaken(sent: seq<PutRequest>, put: PutRequest, putAccepted: PutRequest -> bool, aborted: nat -> bool)
    requires AllTaken(sent, putAccepted, aborted) && putAccepted(put) && !aborted(|sent|)
    ensures AllTaken(sent + [put], putAccepted, aborted)
  {
  }

  /** Nothing throws before the first PUT, and the gateway answers with as many urls as chunks: its short id. */
  ghost predicate Prepares(
      p: Primitives, s: Sender, maxFileSize: nat, burn: bool, gateway: CreateRequest -> Option<CreateResponse>, shortId: string)
  {
    && 0 < |s.file| <= maxFileSize
    && s.AeadKey(p).Some? && |s.AeadKey(p).value| == KEY_BYTES
    && SealedMeta(p, s, s.AeadKey(p).value).Some?
    && gateway(CreateBody(p, s, burn, SealedMeta(p, s, s.AeadKey(p).value).value)) == Some(CreateResponse(shortId, s.Chunks()))
  }

  /** Every chunk can be put, and every PUT is made before a cancellation and accepted. */
  ghost predicate SendsAll(p: Primitives, s: Sender, key: ByteString, shortId: string, putAccepted: PutRequest -> bool, aborted: nat -> bool)
  {
    && ChunkPuts(p, s, key, shortId, s.Chunks()).Some?
    && AllTaken(ChunkPuts(p, s, key, shortId, s.Chunks()).value, putAccepted, aborted)
  }

  /** The PUTs stop at chunk `i`: it cannot be put, comes after a cancellation, or is not accepted. */
  lemma StopsAt(
      p: Primitives, s: Sender, key: ByteString, shortId: string, putAccepted: PutRequest -> bool, aborted: nat -> bool, i: nat)
    requires i < s.Chunks()
    requires
      var put := ChunkPut(p, s, key, shortId, i);
      aborted(i) || put.None? || !putAccepted(put.value)
    ensures !SendsAll(p, s, key, shortId, putAccepted, aborted)
  {
    hide ChunkPut;
    if ChunkPut(p, s, key, shortId, i).None? {
      NoPutStops(p, s, key, shortId, i, s.Chunks());
    }
  }

  lemma NoPuts(p: Primitives, s: Sender, key: ByteString, shortId: string)
    ensures ChunkPuts(p, s, key, shortId, 0) == Some([]) && CiphertextBytes([]) == 0
  {
  }

  lemma NextPut(p: Primitives, s: Sender, key: ByteString, shortId: string, i: nat, sent: seq<PutRequest>, put: PutRequest)
    requires ChunkPuts(p, s, key, shortId, i) == Some(sent) && ChunkPut(p, s, key, shortId, i) == Some(put)
    ensures ChunkPuts(p, s, key, shortId, i + 1) == Some(sent + [put])
    ensures CiphertextBytes(sent + [put]) == CiphertextBytes(sent) + |put.ciphertext|
  {
    hide ChunkPut;
    assert (sent + [put])[..|sent|] == sent;
  }

  /** When every chunk was sent, the bytes are the whole file and its tags, and there was something to send. */
  lemma AllSent(
      p: Primitives, s: Sender, key: ByteString, shortId: string, putAccepted: PutRequest -> bool, aborted: nat -> bool,
      sent: seq<PutRequest>)
    requires SealAddsTheTag(p) && s.file != []
    requires ChunkPuts(p, s, key, shortId, s.Chunks()) == Some(sent) && AllTaken(sent, putAccepted, aborted)
    ensures SendsAll(p, s, key, shortId, putAccepted, aborted)
    ensures s.Chunks() > 0 && CiphertextBytes(sent) == |s.file| + s.Chunks() * 16
  {
    hide ChunkPut, AllTaken, CiphertextBytes, ChunkPuts;
    UploadedBytes(p, s, key, shortId, s.Chunks());
    CutMonotone(|s.file|, CHUNK_SIZE_BYTES, s.Chunks());
    ChunkCountIsLeast(|s.file|, CHUNK_SIZE_BYTES, 0);
  }

  /**
   * `uploadFile`. The gateway and the ingest service are arguments; `sent` records every PUT made. It
   * succeeds exactly when nothing throws, the gateway answers with the right number of urls, and every PUT is made
   * before a cancellation and accepted; the PUTs are then exactly one per chunk, in order, and the progress ends at
   * `bytesTotal`.
   */
  method UploadFile(
      p: Primitives, s: Sender, maxFileSize: nat, burn: bool,
      gateway: CreateRequest -> Option<CreateResponse>,
      putAccepted: PutRequest -> bool, aborted: nat -> bool)
    returns (r: Result<string, UploadError>, sent: seq<PutRequest>, progress: seq<Progress>)
    requires SealAddsTheTag(p)
    ensures s.file == [] ==> r == Err(FileEmpty) && sent == []
    ensures |s.file| > maxFileSize ==> r.Err? && sent == []
    ensures forall shortId :: r == Ok(shortId) <==>
      && Prepares(p, s, maxFileSize, burn, gateway, shortId)
      && SendsAll(p, s, s.AeadKey(p).value, shortId, putAccepted, aborted)
    ensures r.Ok? ==> s.AeadKey(p).Some? && ChunkPuts(p, s, s.AeadKey(p).value, r.value, s.Chunks()) == Some(sent)
    ensures r.Ok? ==> |progress| == s.Chunks() && IsProgress(s, progress)
    ensures r.Ok? ==> |progress| > 0 && progress[|progress| - 1].bytes == progress[|progress| - 1].bytesTotal
    ensures r == Err(PutFailed) ==> sent != [] && !putAccepted(sent[|sent| - 1])
    ensures r == Err(Cancelled) ==> aborted(|sent|)
    ensures s.AeadKey(p).None? ==> r.Err? && sent == []
  {
    hide ChunkPut, SealedMeta, CreateBody, Sender.AeadKey, IsProgress, AllTaken, SendsAll, ChunkPuts, CiphertextBytes, Cut, ChunkCount;
    NothingYet(s, putAccepted, aborted);
    sent, progress := [], [];
    if s.file == [] {
      return Err(FileEmpty), sent, progress;
    }
    if |s.file| > maxFileSize {
      return Err(FileTooLarge), sent, progress;
    }
    var aeadKey := s.AeadKey(p);
    if aeadKey.None? || |aeadKey.value| != KEY_BYTES {
      return Err(CryptoError), sent, progress;
    }
    var key := aeadKey.value;
    var chunkCount := s.Chunks();
    var encryptedMeta := SealedMeta(p, s, key);
    if encryptedMeta.None? {
      return Err(CryptoError), sent, progress;
    }
    var descriptor := gateway(CreateBody(p, s, burn, encryptedMeta.value));
    if descriptor.None? {
      return Err(CreateFailed), sent, progress;
    }
    var shortId := descriptor.value.shortId;
    if descriptor.value.uploadUrls != chunkCount {
      return Err(WrongUrlCount), sent, progress;
    }
    assert forall id :: Prepares(p, s, maxFileSize, burn, gateway, id) <==> id == shortId;
    hide Prepares;
    NoPuts(p, s, key, shortId);
    var bytesTotal := |s.file| + chunkCount * 16;
    var bytesUploaded := 0;
    for i := 0 to chunkCount
      invariant ChunkPuts(p, s, key, shortId, i) == Some(sent)
      invariant bytesUploaded == CiphertextBytes(sent)
      invariant |progress| == i && IsProgress(s, progress)
      invariant i > 0 ==> progress[i - 1].bytes == bytesUploaded && progress[i - 1].bytesTotal == bytesTotal
      invariant |sent| == i && AllTaken(sent, putAccepted, aborted)
    {
      if aborted(i) {
        StopsAt(p, s, key, shortId, putAccepted, aborted, i);
        return Err(Cancelled), sent, progress;
      }
      var put := ChunkPut(p, s, key, shortId, i);
      if put.None? {
        StopsAt(p, s, key, shortId, putAccepted, aborted, i);
        return Err(CryptoError), sent, progress;
      }
      if !putAccepted(put.value) {
        StopsAt(p, s, key, shortId, putAccepted, aborted, i);
        return Err(PutFailed), sent + [put.value], progress;
      }
      NextPut(p, s, key, shortId, i, sent, put.value);
      MoreTaken(sent, put.value, putAccepted, aborted);
      sent := sent + [put.value];
      bytesUploaded := bytesUploaded + |put.value.ciphertext|;
      UploadedBytes(p, s, key, shortId, i + 1);
      MoreProgress(s, progress, Progress(i + 1, chunkCount, bytesUploaded, bytesTotal));
      progress := progress + [Progress(i + 1, chunkCount, bytesUploaded, bytesTotal)];
    }
    AllSent(p, s, key, shortId, putAccepted, aborted, sent);
    r := Ok(shortId);
  }

  /** A chunk that cannot be prepared stops every longer sequence of PUTs. */
  lemma {:induction false} NoPutStops(p: Primitives, s: Sender, key: ByteString, shortId: string, i: nat, k: nat)
    requires i < k && ChunkPut(p, s, key, shortId, i).None?
    ensures ChunkPuts(p, s, key, shortId, k).None?
  {
    hide ChunkPut;
    if k > i + 1 {
      NoPutStops(p, s, key, shortId, i, k - 1);
    }
  }

  // ---- What the sender sealed ----

  /** The messages sealed under the share's key: the metadata blob, and each chunk under its own index. */
  ghost predicate Sealed(
      p: Primitives, s: Sender, meta: ShareMeta, shortId: string,
      key: ByteString, nonce: ByteString, aad: ByteString, plaintext: ByteString, ciphertext: ByteString)
  {
    && s.AeadKey(p) == Some(key)
    && ciphertext == p.seal(key, nonce, aad, plaintext)
    && (|| (BuildChunkAad(META_ID, 0) == Some(aad) && nonce == s.nonceMeta && plaintext == p.writeMeta(meta))
        || exists i: nat :: i < s.Chunks() && SealedAsChunk(s, shortId, i, nonce, aad, plaintext))
  }

  ghost predicate SealedAsChunk(s: Sender, shortId: string, i: nat, nonce: ByteString, aad: ByteString, plaintext: ByteString)
  {
    BuildChunkAad(shortId, i) == Some(aad) && nonce == s.nonces(i) && plaintext == Slice(s.file, CHUNK_SIZE_BYTES, i)
  }

  lemma ChunkCountFitsTheIndex(s: Sender)
    requires s.WellFormed()
    ensures s.Chunks() < TWO_TO_THE_32
  {
  }

  /** What is sealed under the metadata's associated data is the metadata, under chunk `i`'s the i-th slice. */
  lemma SealedUnderItsAad(
      p: Primitives, s: Sender, meta: ShareMeta, shortId: string,
      key: ByteString, nonce: ByteString, aad: ByteString, plaintext: ByteString, ciphertext: ByteString, i: nat)
    requires s.WellFormed() && shortId != META_ID && i < TWO_TO_THE_32
    requires Sealed(p, s, meta, shortId, key, nonce, aad, plaintext, ciphertext)
    ensures BuildChunkAad(META_ID, 0) == Some(aad) ==> plaintext == p.writeMeta(meta)
    ensures BuildChunkAad(shortId, i) == Some(aad) ==> i < s.Chunks() && plaintext == Slice(s.file, CHUNK_SIZE_BYTES, i)
  {
    hide BuildChunkAad;
    ChunkCountFitsTheIndex(s);
    if BuildChunkAad(shortId, i) == Some(aad) {
      MetaAadIsApart(shortId, i);
    }
    if j: nat :| j < s.Chunks() && SealedAsChunk(s, shortId, j, nonce, aad, plaintext) {
      MetaAadIsApart(shortId, j);
      if BuildChunkAad(shortId, i) == Some(aad) {
        AadInjective(shortId, i, shortId, j);
      }
    }
  }
}
