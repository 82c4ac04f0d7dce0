/** The receiver's pipeline: `downloadFile` of apps/web/src/lib/download.ts, against a server that may answer anything. */
module Download {
  import opened Wrappers
  import opened Bytes
  import opened Base64Url
  import opened Codecs
  import opened Framing
  import opened Crypto
  import opened Slicing
  import opened Upload

  /** The stable error codes; Uncaught stands for exceptions that are not a DownloadError. */
  datatype ErrorCode =
    KeyInvalid | ShareNotFound | PasswordRequired | WrongPassword | Metadata | Decrypt | AlreadyUsed
    | Transport | Cancelled | Unknown | Uncaught

  datatype Descriptor = Descriptor(
    encryptedMeta: string, nonceMeta: string, chunkCount: int, fileSize: int, burnAfterRead: bool,
    password: PasswordFields)

  datatype Response = Unreachable | Http(status: int, nonceHeader: Option<string>, body: ByteString)

  /** Any gateway and ingest service: a descriptor or none, and an answer to every chunk request with its bearer header. */
  datatype Server = Server(descriptor: Option<Descriptor>, chunk: (nat, string) -> Response)

  datatype Delivered = Delivered(blob: ByteString, fileName: string, mimeType: string, burnAfterRead: bool)

  datatype Receiver = Receiver(fragmentKey: ByteString, shortId: string, password: string, aborted: nat -> bool)

  // ---- The steps of downloadFile ----

  /** Which key the descriptor's password fields lead the receiver to. */
  function ResolveKey(p: Primitives, r: Receiver, d: Descriptor): (k: Result<ByteString, ErrorCode>)
  {
    match d.password
    case NoPassword =>
      (match DeriveAeadKey(p, r.fragmentKey, None)
       case None => Err(Uncaught)
       case Some(key) => Ok(key))
    case Password(salt, opsLimit, memLimitKib) =>
      if r.password == "" then Err(PasswordRequired)
      else
        match CryptoCoreDecode(salt)
        case None => Err(Metadata)
        case Some(saltBytes) =>
          match DeriveKeyFromPassword(p, r.password, saltBytes, opsLimit, memLimitKib * 1024)
          case None => Err(Uncaught)
          case Some(passwordKey) =>
            match DeriveAeadKey(p, r.fragmentKey, Some(passwordKey))
            case None => Err(Uncaught)
            case Some(key) => Ok(key)
  }

  /** The AEAD opening inside `decryptShareMeta`; None where it throws. */
  function OpenMeta(p: Primitives, key: ByteString, d: Descriptor): (m: Option<ByteString>)
  {
    match (CryptoCoreDecode(d.encryptedMeta), CryptoCoreDecode(d.nonceMeta), BuildChunkAad(META_ID, 0))
    case (Some(ciphertext), Some(nonce), Some(aad)) =>
      if |nonce| != 24 then None else DecryptChunk(p, key, nonce, aad, ciphertext)
    case _ => None
  }

  /** `decryptShareMeta`. */
  function DecryptShareMeta(p: Primitives, key: ByteString, d: Descriptor): (m: Result<ShareMeta, ErrorCode>)
  {
    match OpenMeta(p, key, d)
    case None => Err(if d.password.Password? then WrongPassword else Metadata)
    case Some(bytes) =>
      match p.readMeta(bytes)
      case None => Err(Metadata)
      case Some(meta) => Ok(meta)
  }

  /** `fetchChunk` on an answer: ciphertext and nonce. */
  function FetchChunk(answer: Response): (c: Result<(ByteString, ByteString), ErrorCode>)
  {
    match answer
    case Unreachable => Err(Transport)
    case Http(status, header, body) =>
      if status == 410 then Err(AlreadyUsed)
      else if !(200 <= status <= 299) then Err(Transport)
      else if header.None? || header.value == "" then Err(Metadata)
      else
        match CryptoCoreDecode(header.value)
        case None => Err(Metadata)
        case Some(nonce) =>
          if |nonce| != 24 then Err(Metadata)
          else if |body| < 16 then Err(Decrypt)
          else Ok((body, nonce))
  }

  /** One turn of the chunk loop. */
  function OpenChunk(p: Primitives, r: Receiver, key: ByteString, server: Server, i: nat): (c: Result<ByteString, ErrorCode>)
    requires server.descriptor.Some?
  {
    if r.aborted(i) then Err(Unknown)
    else
      match (DeriveChunkToken(p.sha256, r.fragmentKey, r.shortId, i), BuildChunkAad(r.shortId, i))
      case (Some(token), Some(aad)) =>
        (match FetchChunk(server.chunk(i, BearerHeader(token)))
         case Err(e) => Err(e)
         case Ok(fetched) =>
           match DecryptChunk(p, key, fetched.1, aad, fetched.0)
           case None => Err(if server.descriptor.value.password.Password? && i == 0 then WrongPassword else Decrypt)
           case Some(plaintext) => Ok(plaintext))
      case _ => Err(Uncaught)
  }

  /** The plaintext of the first `k` chunks, or the first failure among them. */
  function OpenChunks(p: Primitives, r: Receiver, key: ByteString, server: Server, k: nat): (c: Result<seq<ByteString>, ErrorCode>)
    requires server.descriptor.Some?
    ensures c.Ok? ==> |c.value| == k
  {
    if k == 0 then Ok([])
    else
      match OpenChunks(p, r, key, server, k - 1)
      case Err(e) => Err(e)
      case Ok(chunks) =>
        match OpenChunk(p, r, key, server, k - 1)
        case Err(e) => Err(e)
        case Ok(plaintext) => Ok(chunks + [plaintext])
  }

  /** The whole-file gate: skipped when the sealed hash is absent or empty. */
  function HashGate(p: Primitives, meta: ShareMeta, blob: ByteString): (e: Option<ErrorCode>)
  {
    if meta.fileHash.None? || meta.fileHash.value == "" then None
    else
      match CryptoCoreDecode(meta.fileHash.value)
      case None => Some(Metadata)
      case Some(expected) => if p.blake2b(blob) != expected then Some(Decrypt) else None
  }

  /** `new Array(n)` throws a RangeError outside this range. */
  predicate IsArrayLength(n: int)
  {
    0 <= n < TWO_TO_THE_32
  }

  /** Everything `downloadFile` does after the metadata is open. */
  function DownloadChunks(p: Primitives, r: Receiver, key: ByteString, server: Server, meta: ShareMeta): (d: Result<Delivered, ErrorCode>)
    requires server.descriptor.Some?
  {
    var descriptor := server.descriptor.value;
    if meta.chunkCount.Some? && meta.chunkCount.value != descriptor.chunkCount then Err(Decrypt)
    else if !IsArrayLength(descriptor.chunkCount) then Err(Uncaught)
    else
      match OpenChunks(p, r, key, server, descriptor.chunkCount)
      case Err(e) => Err(e)
      case Ok(chunks) =>
        match HashGate(p, meta, Concat(chunks))
        case Some(e) => Err(e)
        case None => Ok(Delivered(Concat(chunks), meta.fileName, meta.mimeType, descriptor.burnAfterRead))
  }

  /** The outcome of `downloadFile`. */
  function Outcome(p: Primitives, r: Receiver, server: Server): (d: Result<Delivered, ErrorCode>)
  {
    if |r.fragmentKey| != 32 then Err(KeyInvalid)
    else if server.descriptor.None? then Err(ShareNotFound)
    else
      match ResolveKey(p, r, server.descriptor.value)
      case Err(e) => Err(e)
      case Ok(key) =>
        match DecryptShareMeta(p, key, server.descriptor.value)
        case Err(e) => Err(e)
        case Ok(meta) => DownloadChunks(p, r, key, server, meta)
  }

  /** `downloadFile`: its result, and a progress event (chunks, bytes) after every chunk. */
  method DownloadFile(p: Primitives, r: Receiver, server: Server)
    returns (d: Result<Delivered, ErrorCode>, progress: seq<(nat, nat)>)
    ensures d == Outcome(p, r, server)
    ensures d.Ok? ==> |progress| == server.descriptor.value.chunkCount
    ensures d.Ok? && progress != [] ==> progress[|progress| - 1] == (|progress|, |d.value.blob|)
    ensures forall k :: 0 <= k < |progress| ==> progress[k].0 == k + 1
  {
    hide ResolveKey, DecryptShareMeta, OpenChunk, HashGate;
    progress := [];
    if |r.fragmentKey| != 32 {
      return Err(KeyInvalid), progress;
    }
    if server.descriptor.None? {
      return Err(ShareNotFound), progress;
    }
    var descriptor := server.descriptor.value;
    var resolved := ResolveKey(p, r, descriptor);
    if resolved.Err? {
      return Err(resolved.error), progress;
    }
    var aeadKey := resolved.value;
    var sealedMeta := DecryptShareMeta(p, aeadKey, descriptor);
    if sealedMeta.Err? {
      return Err(sealedMeta.error), progress;
    }
    var meta := sealedMeta.value;
    if meta.chunkCount.Some? && meta.chunkCount.value != descriptor.chunkCount {
      return Err(Decrypt), progress;
    }
    var totalChunks := descriptor.chunkCount;
    if !IsArrayLength(totalChunks) {
      return Err(Uncaught), progress;
    }
    var plaintextChunks: seq<ByteString> := [];
    var bytesDownloaded := 0;
    for i := 0 to totalChunks
      invariant OpenChunks(p, r, aeadKey, server, i) == Ok(plaintextChunks)
      invariant bytesDownloaded == |Concat(plaintextChunks)|
      invariant |progress| == i && (i > 0 ==> progress[i - 1] == (i, bytesDownloaded))
      invariant forall k :: 0 <= k < i ==> progress[k].0 == k + 1
    {
      var plaintext := OpenChunk(p, r, aeadKey, server, i);
      if plaintext.Err? {
        StuckAt(p, r, aeadKey, server, i, totalChunks);
        return Err(plaintext.error), progress;
      }
      ConcatSnoc(plaintextChunks, plaintext.value);
      plaintextChunks := plaintextChunks + [plaintext.value];
      bytesDownloaded := bytesDownloaded + |plaintext.value|;
      progress := progress + [(i + 1, bytesDownloaded)];
    }
    var gate := HashGate(p, meta, Concat(plaintextChunks));
    if gate.Some? {
      return Err(gate.value), progress;
    }
    d := Ok(Delivered(Concat(plaintextChunks), meta.fileName, meta.mimeType, descriptor.burnAfterRead));
  }

  /** The first failing chunk decides the outcome of the whole loop. */
  lemma {:induction false} StuckAt(p: Primitives, r: Receiver, key: ByteString, server: Server, i: nat, k: nat)
    requires server.descriptor.Some? && i < k
    requires OpenChunks(p, r, key, server, i).Ok? && OpenChunk(p, r, key, server, i).Err?
    ensures OpenChunks(p, r, key, server, k) == Err(OpenChunk(p, r, key, server, i).error)
    decreases k
  {
    hide OpenChunk;
    if k > i + 1 {
      StuckAt(p, r, key, server, i, k - 1);
    }
  }

  // ---- Safety against every server ----

  /** This message opens under the key though the sender never sealed it. */
  ghost predicate Forged(
      p: Primitives, s: Sender, meta: ShareMeta, shortId: string,
      key: ByteString, nonce: ByteString, aad: ByteString, ciphertext: ByteString)
  {
    && p.open(key, nonce, aad, ciphertext).Some?
    && !Sealed(p, s, meta, shortId, key, nonce, aad, p.open(key, nonce, aad, ciphertext).value, ciphertext)
  }

  /** The metadata in the server's descriptor is forged under the key the receiver resolves. */
  ghost predicate MetaIsForged(p: Primitives, s: Sender, meta: ShareMeta, shortId: string, key: ByteString, d: Descriptor)
  {
    && CryptoCoreDecode(d.encryptedMeta).Some? && CryptoCoreDecode(d.nonceMeta).Some? && BuildChunkAad(META_ID, 0).Some?
    && Forged(p, s, meta, shortId, key, CryptoCoreDecode(d.nonceMeta).value, BuildChunkAad(META_ID, 0).value,
              CryptoCoreDecode(d.encryptedMeta).value)
  }

  /** What the server answers to the receiver's request for chunk `i`; None where the request cannot be made or its answer is refused. */
  function Fetched(p: Primitives, r: Receiver, server: Server, i: nat): (c: Option<(ByteString, ByteString)>)
  {
    match DeriveChunkToken(p.sha256, r.fragmentKey, r.shortId, i)
    case None => None
    case Some(token) =>
      match FetchChunk(server.chunk(i, BearerHeader(token)))
      case Err(_) => None
      case Ok(fetched) => Some(fetched)
  }

  /** That answer is forged under the key and the associated data of chunk `i`. */
  ghost predicate ChunkIsForged(p: Primitives, s: Sender, meta: ShareMeta, r: Receiver, key: ByteString, server: Server, i: nat)
  {
    && Fetched(p, r, server, i).Some? && BuildChunkAad(r.shortId, i).Some?
    && Forged(p, s, meta, r.shortId, key, Fetched(p, r, server, i).value.1, BuildChunkAad(r.shortId, i).value,
              Fetched(p, r, server, i).value.0)
  }

  /** One of the messages this server actually returns to this receiver is forged. */
  ghost predicate ForgedOnTheWire(p: Primitives, s: Sender, meta: ShareMeta, r: Receiver, server: Server)
  {
    && server.descriptor.Some? && ResolveKey(p, r, server.descriptor.value).Ok?
    && var key := ResolveKey(p, r, server.descriptor.value).value;
       || MetaIsForged(p, s, meta, r.shortId, key, server.descriptor.value)
       || exists i: nat :: i < server.descriptor.value.chunkCount && ChunkIsForged(p, s, meta, r, key, server, i)
  }

  /** What the sender may have sealed beside the file: any of the formats ever written, about this file. */
  ghost predicate Describes(p: Primitives, s: Sender, meta: ShareMeta)
  {
    && (meta.fileHash.Some? ==> meta.fileHash.value == UrlEncode(p.blake2b(s.file)) && p.blake2b(s.file) != [])
    && (meta.chunkCount.Some? ==> meta.chunkCount.value == s.Chunks())
    && p.readMeta(p.writeMeta(meta)) == Some(meta)
  }

  /** A chunk that opens is the sender's slice of that index, unless that very answer is forged. */
  lemma OpenedChunkIsTheSlice(
      p: Primitives, s: Sender, meta: ShareMeta, r: Receiver, key: ByteString, server: Server, i: nat)
    requires s.WellFormed() && r.shortId != META_ID && i < TWO_TO_THE_32 && server.descriptor.Some?
    requires OpenChunk(p, r, key, server, i).Ok? && !ChunkIsForged(p, s, meta, r, key, server, i)
    ensures i < s.Chunks() && OpenChunk(p, r, key, server, i).value == Slice(s.file, CHUNK_SIZE_BYTES, i)
  {
    hide BuildChunkAad, Slice, CryptoCoreDecode, DeriveChunkToken, BearerHeader;
    var aad := BuildChunkAad(r.shortId, i).value;
    var fetched := Fetched(p, r, server, i).value;
    var plaintext := OpenChunk(p, r, key, server, i).value;
    assert p.open(key, fetched.1, aad, fetched.0) == Some(plaintext);
    SealedUnderItsAad(p, s, meta, r.shortId, key, fetched.1, aad, plaintext, fetched.0, i);
  }

  lemma {:induction false} OpenedChunksAreSlices(
      p: Primitives, s: Sender, meta: ShareMeta, r: Receiver, key: ByteString, server: Server, k: nat)
    requires s.WellFormed() && r.shortId != META_ID && k <= TWO_TO_THE_32 && server.descriptor.Some?
    requires OpenChunks(p, r, key, server, k).Ok?
    requires forall i: nat :: i < k ==> !ChunkIsForged(p, s, meta, r, key, server, i)
    ensures k <= s.Chunks() && OpenChunks(p, r, key, server, k).value == Slices(s.file, CHUNK_SIZE_BYTES, k)
  {
    hide OpenChunk, Slice, ChunkIsForged;
    if k > 0 {
      OpenedChunksAreSlices(p, s, meta, r, key, server, k - 1);
      OpenedChunkIsTheSlice(p, s, meta, r, key, server, k - 1);
      assert Slices(s.file, CHUNK_SIZE_BYTES, k)
          == Slices(s.file, CHUNK_SIZE_BYTES, k - 1) + [Slice(s.file, CHUNK_SIZE_BYTES, k - 1)];
    }
  }

  /** Metadata that opens is the sender's, unless that very blob is forged. */
  lemma OpenedMetaIsTheSenders(p: Primitives, s: Sender, meta: ShareMeta, shortId: string, key: ByteString, d: Descriptor)
    requires s.WellFormed() && shortId != META_ID && Describes(p, s, meta)
    requires DecryptShareMeta(p, key, d).Ok? && !MetaIsForged(p, s, meta, shortId, key, d)
    ensures DecryptShareMeta(p, key, d).value == meta
  {
    hide BuildChunkAad, CryptoCoreDecode;
    var ciphertext := CryptoCoreDecode(d.encryptedMeta).value;
    var nonce := CryptoCoreDecode(d.nonceMeta).value;
    var aad := BuildChunkAad(META_ID, 0).value;
    var plaintext := OpenMeta(p, key, d).value;
    SealedUnderItsAad(p, s, meta, shortId, key, nonce, aad, plaintext, ciphertext, 0);
  }

  /** The blob is the file cut after some whole number of chunks. */
  ghost predicate ChunkAlignedPrefix(s: Sender, blob: ByteString)
  {
    exists k: nat :: k <= s.Chunks() && blob == s.file[..Cut(|s.file|, CHUNK_SIZE_BYTES, k)]
  }

  /**
   * The receiver's guarantee, whatever the server answers and whatever link key and password the receiver holds,
   * for any primitives at all: if `downloadFile` returns, then either one of the messages this server returned to
   * it is forged under the key it resolved, or the names are the sender's and the blob is the file. The sealed
   * chunk count alone suffices; the sealed hash alone suffices up to an explicit hash collision; with neither, the
   * blob is a chunk-aligned prefix of the file.
   */
  lemma DownloadIsExactOrForged(p: Primitives, s: Sender, meta: ShareMeta, r: Receiver, server: Server)
    requires s.WellFormed() && r.shortId != META_ID && Describes(p, s, meta)
    requires Outcome(p, r, server).Ok?
    ensures
      var d := Outcome(p, r, server).value;
      || ForgedOnTheWire(p, s, meta, r, server)
      || (&& d.fileName == meta.fileName && d.mimeType == meta.mimeType
          && (meta.chunkCount.Some? ==> d.blob == s.file)
          && (meta.fileHash.Some? ==> d.blob == s.file || Collision(p.blake2b, d.blob, s.file))
          && ChunkAlignedPrefix(s, d.blob))
  {
    hide ResolveKey, DecryptShareMeta, OpenChunks, MetaIsForged, ChunkIsForged, UrlEncode, CryptoCoreDecode;
    if !ForgedOnTheWire(p, s, meta, r, server) {
      var descriptor := server.descriptor.value;
      var key := ResolveKey(p, r, descriptor).value;
      OpenedMetaIsTheSenders(p, s, meta, r.shortId, key, descriptor);
      var k := descriptor.chunkCount;
      OpenedChunksAreSlices(p, s, meta, r, key, server, k);
      SlicesAreAPrefix(s.file, CHUNK_SIZE_BYTES, k);
      if meta.fileHash.Some? {
        RoundTrip(p.blake2b(s.file));
        EncodedLength(p.blake2b(s.file));
      }
    }
  }
}
