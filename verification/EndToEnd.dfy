/**
 * The honest round trip: an upload through the gateway's and the ingest service's checks, by any interleaving of its
 * PUTs, and a download of the rows and blobs that are then stored.
 */
module EndToEnd {
  import opened Wrappers
  import opened Bytes
  import opened Base64Url
  import opened Codecs
  import opened Framing
  import opened Crypto
  import opened Slicing
  import opened Upload
  import opened Download
  import opened GatewayCreate
  import opened ShareModel
  import ShareStore
  import opened ShareSystem
  import D = DownloadEndpoint
  import P = UploadProofs
  import C = UploadConditions
  import U = UploadEndpoint

  /** What is asked of the primitives: opening undoes sealing, outputs have their lengths, and metadata reads back. */
  ghost predicate Lawful(p: Primitives)
  {
    && (forall k, n, a, m :: p.open(k, n, a, p.seal(k, n, a, m)) == Some(m))
    && SealAddsTheTag(p)
    && (forall m :: |p.blake2b(m)| == 32) && (forall m :: |p.sha256(m)| == 32)
    && (forall m, k :: |p.keyedBlake2b(m, k)| == KEY_BYTES)
    && (forall w, s, o, l :: |p.argon2id(w, s, o, l)| == KEY_BYTES)
    && (forall m :: p.readMeta(p.writeMeta(m)) == Some(m))
  }

  // ---- Key agreement ----

  /** The receiver's memory limit in bytes, as it comes back from the KiB column. */
  function ReceiverMemLimit(s: Sender): (r: nat)
  {
    s.MemLimitKib() * 1024
  }

  /** The limit survives the trip through KiB exactly when it is a whole number of KiB. */
  lemma MemLimitSurvives(s: Sender)
    ensures ReceiverMemLimit(s) == s.memLimitBytes <==> s.memLimitBytes % 1024 == 0
  {
  }

  /** The receiver brings what the link and the sender gave it. */
  ghost predicate Invited(s: Sender, r: Receiver)
  {
    r.fragmentKey == s.fragmentKey && r.password == s.password && forall i: nat :: !r.aborted(i)
  }

  /** The password fields as the receiver sees them. */
  function SeenPassword(s: Sender): (q: PasswordFields)
  {
    if s.password == "" then NoPassword else Password(UrlEncode(s.salt), s.opsLimit, s.MemLimitKib())
  }

  /** The key both sides would reach if the memory limit were the receiver's. */
  function KeyAt(p: Primitives, s: Sender, memLimit: nat): (r: Option<ByteString>)
  {
    s.(memLimitBytes := memLimit).AeadKey(p)
  }

  /**
   * Key agreement: with the sender's fragment key and password, the receiver reaches the sender's AEAD key taken at
   * the receiver's memory limit; hence the same key without a password, and with one whenever the sender's limit
   * is a whole number of KiB.
   */
  lemma KeysAgree(p: Primitives, s: Sender, r: Receiver, d: Descriptor)
    requires Lawful(p) && s.WellFormed() && Invited(s, r) && d.password == SeenPassword(s)
    ensures s.AeadKey(p).Some? <==> ResolveKey(p, r, d).Ok?
    ensures s.AeadKey(p).Some? ==> |s.AeadKey(p).value| == KEY_BYTES && KeyAt(p, s, ReceiverMemLimit(s)) == Some(ResolveKey(p, r, d).value)
    ensures s.AeadKey(p).Some? && (s.password == "" || s.memLimitBytes % 1024 == 0) ==> ResolveKey(p, r, d) == Ok(s.AeadKey(p).value)
  {
    hide Utf8, UrlEncode, CryptoCoreDecode, Sender.MemLimitKib;
    MemLimitSurvives(s);
    if s.password != "" {
      RoundTrip(s.salt);
      PasswordKeyLength(p, s, s.memLimitBytes);
      PasswordKeyLength(p, s, ReceiverMemLimit(s));
    }
  }

  lemma PasswordKeyLength(p: Primitives, s: Sender, memLimit: int)
    requires Lawful(p) && s.WellFormed() && s.password != ""
    ensures DeriveKeyFromPassword(p, s.password, s.salt, s.opsLimit, memLimit).Some?
        <==> |s.password| <= MAX_PASSWORD_BYTES && |Utf8(s.password)| <= MAX_PASSWORD_BYTES
    ensures
      var k := DeriveKeyFromPassword(p, s.password, s.salt, s.opsLimit, memLimit);
      k.Some? ==> |k.value| == KEY_BYTES
  {
    hide Utf8;
  }

  // ---- Create, upload, and what is then stored ----

  /** A share the gateway can create: the totals fit, the metadata is short enough, the cost parameters are in range. */
  ghost predicate Creatable(p: Primitives, s: Sender, sealedMeta: ByteString, maxFile: nat)
  {
    && s.file != [] && |s.file| <= maxFile / CHUNK_SIZE_BYTES * CHUNK_SIZE_BYTES && s.Chunks() <= 100_000
    && |UrlEncode(sealedMeta)| <= MAX_META_CHARS
    && (s.password != "" ==> 1 <= s.opsLimit <= 10 && 8192 <= s.MemLimitKib() <= 1_048_576)
  }

  lemma CreateIsAccepted(p: Primitives, s: Sender, burn: bool, sealedMeta: ByteString, maxFile: nat)
    requires Lawful(p) && s.WellFormed() && Creatable(p, s, sealedMeta, maxFile) && sealedMeta != []
    ensures CreateAccepted(CreateBody(p, s, burn, sealedMeta), maxFile)
    ensures
      var d := Describe(Insert(CreateBody(p, s, burn, sealedMeta)));
      && d == Descriptor(UrlEncode(sealedMeta), UrlEncode(s.nonceMeta), s.Chunks(), |s.file|, burn, SeenPassword(s))
  {
    hide UrlEncode, IsField;
    AcceptedExactlyBelowWholeChunks(|s.file|, CHUNK_SIZE_BYTES, maxFile);
    EncodedIsField(p.blake2b(s.file), 32);
    EncodedIsField(s.nonceMeta, 24);
    EncodedIsField(s.salt, 16);
    RoundTrip(sealedMeta);
    EncodedSurvivesTheColumn(sealedMeta);
    EncodedSurvivesTheColumn(s.nonceMeta);
    EncodedSurvivesTheColumn(s.salt);
    EncodedIsNotEmpty(sealedMeta);
  }

  lemma EncodedIsNotEmpty(b: ByteString)
    requires b != []
    ensures |UrlEncode(b)| >= 1
  {
    EncodedLength(b);
  }

  /** The share a create request becomes: its row's counts, pending, nothing stored. */
  ghost predicate CreatedFrom(s: Sys, q: CreateRequest)
  {
    Created(s) && s.db.share.chunkCount == q.chunkCount && s.db.share.chunkSize == q.chunkSize
  }

  /**
   * What the gateway lets be created the ingest service can hold: a full chunk with its tag fits the body cap, and
   * however chunks are put and put again, the blobs of the share never exceed the file cap and one tag a chunk.
   */
  lemma CreatedShareIsBounded(q: CreateRequest, maxFile: nat, s0: Sys, run: seq<Step>)
    requires CreateAccepted(q, maxFile) && CreatedFrom(s0, q) && P.IsUploadRun(run)
    ensures q.chunkSize + U.AEAD_TAG_BYTES <= U.MAX_CHUNK_BYTES
    ensures
      var db := Exec(s0, run).db;
      && db.share.chunkCount == q.chunkCount && db.blobs.Keys <= Indexes(q.chunkCount)
      && P.StoredBytes(db.blobs, q.chunkCount) <= maxFile + U.AEAD_TAG_BYTES * q.chunkCount
  {
    hide Exec, P.IsUploadRun;
    P.StorageIsBounded(s0, run, maxFile);
    P.CreatedIsUploadInv(s0);
    P.UploadRunKeepsShape(s0, run);
  }

  /** The PUT of chunk `i` as the ingest handler sees it. */
  function AsRequest(q: PutRequest): (r: U.Request)
  {
    U.Request(q.index, Some(|q.ciphertext|), Some(q.nonce), Some(q.chunkTokenHash), q.ciphertext)
  }

  /** The share's row while it takes uploads. */
  ghost predicate Accepting(row: ShareRow, s: Sender, now: int)
  {
    row.chunkCount == s.Chunks() && row.chunkSize == CHUNK_SIZE_BYTES && row.CanAcceptUploads() && !row.IsExpired(now)
  }

  /** The ciphertext of chunk `i` has an acceptable size: a full chunk's exactly, the last chunk's at most. */
  lemma PutFits(p: Primitives, s: Sender, key: ByteString, shortId: string, i: nat)
    requires Lawful(p) && i < s.Chunks() && ChunkPut(p, s, key, shortId, i).Some?
    ensures
      var put := ChunkPut(p, s, key, shortId, i).value;
      && put.index == i && AEAD_TAG_BYTES < |put.ciphertext| <= CHUNK_SIZE_BYTES + AEAD_TAG_BYTES
      && (i + 1 < s.Chunks() ==> |put.ciphertext| == CHUNK_SIZE_BYTES + AEAD_TAG_BYTES)
  {
    hide Slice, UrlEncode, BuildChunkAad, DeriveChunkToken;
    SliceLengths(s.file, CHUNK_SIZE_BYTES, i);
  }

  /** Its headers decode to a nonce and a hash of the right lengths. */
  lemma PutHeadersDecode(p: Primitives, s: Sender, key: ByteString, shortId: string, i: nat)
    requires Lawful(p) && s.WellFormed() && ChunkPut(p, s, key, shortId, i).Some?
    ensures
      var put := ChunkPut(p, s, key, shortId, i).value;
      && put.nonce != "" && IngestDecode(put.nonce) == Some(s.nonces(i))
      && IngestDecode(put.chunkTokenHash).Some? && |IngestDecode(put.chunkTokenHash).value| == 32
  {
    hide Slice, UrlEncode, IngestDecode, BuildChunkAad, DeriveChunkToken;
    RoundTrip(s.nonces(i));
    EncodedIsNotEmpty(s.nonces(i));
    var token := DeriveChunkToken(p.sha256, s.fragmentKey, shortId, i).value;
    RoundTrip(p.sha256(token));
  }

  /** Every PUT the sender makes passes the ingest checks, whatever the state of the upload around it. */
  lemma PutIsAccepted(p: Primitives, s: Sender, key: ByteString, shortId: string, i: nat, row: ShareRow, now: int)
    requires Lawful(p) && s.WellFormed() && i < s.Chunks() && ChunkPut(p, s, key, shortId, i).Some? && Accepting(row, s, now)
    ensures U.Accepts(row, now, AsRequest(ChunkPut(p, s, key, shortId, i).value))
  {
    PutFits(p, s, key, shortId, i);
    PutHeadersDecode(p, s, key, shortId, i);
    hide ChunkPut, IngestDecode, Lawful, Sender.WellFormed, Sender.Chunks;
  }

  // ---- What is served ----

  /** What ingest answers from its rows and blobs: the serve gate, the index check, the chunk's checks, then nonce and blob. */
  function Answer(p: Primitives, db: Db, now: int, i: nat, header: string): (r: Response)
  {
    if !db.share.CanServeDownloads() || db.share.IsExpired(now) then Http(410, None, [])
    else if i >= db.share.chunkCount then Http(400, None, [])
    else
      match D.ChunkRefusal(db, db.share, Arriving(p, i, header))
      case Some(status) => Http(status, None, [])
      case None =>
        if i in db.blobs then Http(200, Some(IngestEncode(db.chunks[i].nonce)), db.blobs[i]) else Http(502, None, [])
  }

  /** The GET handler as the receiver's request starts it. */
  function Arriving(p: Primitives, i: nat, header: string): (g: D.Get)
  {
    D.Get(i, ExtractChunkTokenHash(p.sha256, Some(header)), D.ReadShare, false, false)
  }

  /** That is what the handler does undisturbed: it sends exactly the answers with a body, and stops with the status of the others. */
  lemma AnswerIsTheHandlers(p: Primitives, db: Db, now: int, i: nat, header: string)
    ensures
      var g1 := D.GetStep(db, now, Arriving(p, i, header), ShareStore.Applied).1;
      var g2 := D.GetStep(db, now, g1, ShareStore.Applied).1;
      var g3 := D.GetStep(db, now, g2, ShareStore.Applied).1;
      var answer := Answer(p, db, now, i, header);
      && (g3.sent <==> answer.status == 200)
      && (g3.sent ==> i in db.chunks && i in db.blobs && answer == Http(200, Some(IngestEncode(db.chunks[i].nonce)), db.blobs[i]))
      && (!g3.sent ==> g3.pc == D.Finished(answer.status))
  {
    hide ExtractChunkTokenHash, IngestEncode;
  }

  /** The rows after the first `k` chunks have been fetched and marked served, in order. */
  function MarkedUpTo(db: Db, now: int, k: nat): (r: Db)
  {
    if k == 0 then db else MarkChunkServed(MarkedUpTo(db, now, k - 1), k - 1, now).0
  }

  /** `GET /api/shares/:shortId`: a share that is gone is not found. */
  function Shown(body: CreateRequest, share: ShareRow, now: int): (d: Option<Descriptor>)
  {
    if share.Terminal() || share.IsExpired(now) then None else Some(Describe(Insert(body)))
  }

  /**
   * The gateway and the ingest service over what they have stored, as a receiver that asks for one chunk after the
   * other meets them: by the request for chunk `i` the chunks before it are marked.
   */
  function Serving(p: Primitives, body: CreateRequest, db: Db, now: int): (server: Server)
  {
    Server(Shown(body, db.share, now), (i: nat, header: string) => Answer(p, MarkedUpTo(db, now, i), now, i, header))
  }

  /** The marks before it change nothing of a chunk not served yet, nor of the share: the burn waits for the last. */
  lemma {:induction false} MarksLeaveTheRest(db: Db, now: int, k: nat, i: nat)
    requires k <= i && i in db.chunks && db.chunks[i].servedAt.None?
    ensures
      var marked := MarkedUpTo(db, now, k);
      && marked.share == db.share && marked.blobs == db.blobs && i in marked.chunks && marked.chunks[i] == db.chunks[i]
  {
    if k > 0 {
      MarksLeaveTheRest(db, now, k - 1, i);
      OneMarkLeaves(MarkedUpTo(db, now, k - 1), now, k - 1, i);
    }
  }

  lemma OneMarkLeaves(db: Db, now: int, j: int, i: int)
    requires j != i && i in db.chunks && db.chunks[i].servedAt.None?
    ensures
      var marked := MarkChunkServed(db, j, now).0;
      && marked.share == db.share && marked.blobs == db.blobs && i in marked.chunks && marked.chunks[i] == db.chunks[i]
  {
    if j in db.chunks {
      assert i in Unserved(StampServed(db, j, now));
    }
  }

  /** A server that answers each of the receiver's requests with the sender's chunk. */
  ghost predicate Delivers(p: Primitives, s: Sender, key: ByteString, r: Receiver, server: Server)
  {
    forall i: nat :: i < s.Chunks() ==> DeliversChunk(p, s, key, r, server, i)
  }

  ghost predicate DeliversChunk(p: Primitives, s: Sender, key: ByteString, r: Receiver, server: Server, i: nat)
  {
    && ChunkPut(p, s, key, r.shortId, i).Some?
    && DeriveChunkToken(p.sha256, r.fragmentKey, r.shortId, i).Some?
    && server.chunk(i, BearerHeader(DeriveChunkToken(p.sha256, r.fragmentKey, r.shortId, i).value))
         == Http(200, Some(UrlEncode(s.nonces(i))), ChunkPut(p, s, key, r.shortId, i).value.ciphertext)
  }

  /** The table of the sender's PUTs, by index. */
  function PutTable(puts: seq<PutRequest>): (table: int -> U.Request)
  {
    i => if 0 <= i < |puts| then AsRequest(puts[i]) else U.Request(i, None, None, None, [])
  }

  /** Only the sender uploads: every PUT of the run is one of these, sent once or again. */
  ghost predicate SendersPuts(run: seq<Step>, puts: seq<PutRequest>)
  {
    forall k :: 0 <= k < |run| && run[k].NewPut? ==> exists j :: 0 <= j < |puts| && run[k].req == AsRequest(puts[j])
  }

  /** A stored chunk of the sender is served to the receiver it invited. */
  lemma StoredChunkIsServed(p: Primitives, s: Sender, key: ByteString, r: Receiver, db: Db, now: int, i: nat)
    requires Lawful(p) && s.WellFormed() && Invited(s, r) && ChunkPut(p, s, key, r.shortId, i).Some?
    requires db.share.CanServeDownloads() && !db.share.IsExpired(now) && i < db.share.chunkCount
    requires i in db.chunks && db.chunks[i].servedAt.None? && C.IsPair(db, AsRequest(ChunkPut(p, s, key, r.shortId, i).value))
    ensures
      var token := DeriveChunkToken(p.sha256, r.fragmentKey, r.shortId, i);
      && token.Some?
      && Answer(p, db, now, i, BearerHeader(token.value))
           == Http(200, Some(UrlEncode(s.nonces(i))), ChunkPut(p, s, key, r.shortId, i).value.ciphertext)
  {
    PutHeadersDecode(p, s, key, r.shortId, i);
    hide UrlEncode, IngestDecode, BuildChunkAad, DeriveChunkToken, ExtractChunkTokenHash, BearerHeader, Slice;
    var token := DeriveChunkToken(p.sha256, s.fragmentKey, r.shortId, i).value;
    assert |token| == 32 by { TokenLength(p, s.fragmentKey, r.shortId, i); }
    BearerHeaderIsRead(p.sha256, token);
    RoundTrip(p.sha256(token));
  }

  lemma TokenLength(p: Primitives, fragmentKey: ByteString, shortId: string, i: nat)
    requires Lawful(p) && DeriveChunkToken(p.sha256, fragmentKey, shortId, i).Some?
    ensures |DeriveChunkToken(p.sha256, fragmentKey, shortId, i).value| == 32
  {
  }

  /** The run's PUTs are copies of the table's. */
  lemma SendersPutsAreCopies(p: Primitives, s: Sender, key: ByteString, shortId: string, puts: seq<PutRequest>, run: seq<Step>)
    requires ChunkPuts(p, s, key, shortId, s.Chunks()) == Some(puts) && SendersPuts(run, puts)
    ensures C.Copies(run, PutTable(puts)) && forall i :: PutTable(puts)(i).index == i
  {
    hide ChunkPuts;
    forall j | 0 <= j < |puts|
      ensures puts[j].index == j
    {
      assert ChunkPut(p, s, key, shortId, j) == Some(puts[j]);
      PutHasItsIndex(p, s, key, shortId, j);
    }
  }

  lemma PutHasItsIndex(p: Primitives, s: Sender, key: ByteString, shortId: string, i: nat)
    requires ChunkPut(p, s, key, shortId, i).Some?
    ensures ChunkPut(p, s, key, shortId, i).value.index == i
  {
    hide BuildChunkAad, DeriveChunkToken, UrlEncode, Slice;
  }

  /**
   * What any upload run of the sender's PUTs stores, it delivers: however they interleave and are repeated and
   * whatever fails, once the share is ready the services answer the receiver with exactly the sender's chunks.
   */
  lemma ReadyShareDelivers(
      p: Primitives, s: Sender, key: ByteString, r: Receiver, body: CreateRequest, puts: seq<PutRequest>,
      s0: Sys, run: seq<Step>, now: int)
    requires Lawful(p) && s.WellFormed() && Invited(s, r)
    requires ChunkPuts(p, s, key, r.shortId, s.Chunks()) == Some(puts)
    requires CreatedFrom(s0, body) && body.chunkCount == s.Chunks()
    requires P.IsUploadRun(run) && SendersPuts(run, puts)
    requires Exec(s0, run).db.share.state == Ready && now < s0.db.share.expiresAt
    ensures Delivers(p, s, key, r, Serving(p, body, Exec(s0, run).db, now))
  {
    hide Exec, ChunkPuts, ChunkPut, Lawful, C.IsPair, SendersPuts, Answer, MarkedUpTo;
    var db := Exec(s0, run).db;
    SendersPutsAreCopies(p, s, key, r.shortId, puts, run);
    C.CopiesArePaired(s0, run, PutTable(puts));
    P.CreatedIsUploadInv(s0);
    P.UploadRunKeeps(s0, run);
    P.UploadRunKeepsShape(s0, run);
    forall i: nat | i < s.Chunks()
      ensures DeliversChunk(p, s, key, r, Serving(p, body, db, now), i)
    {
      assert IsIndex(i, db.share.chunkCount);
      assert ChunkPut(p, s, key, r.shortId, i) == Some(puts[i]);
      assert C.IsPair(db, AsRequest(puts[i]));
      assert i in db.chunks;
      MarksLeaveTheRest(db, now, i, i);
      PairIsLocal(db, MarkedUpTo(db, now, i), AsRequest(puts[i]));
      StoredChunkIsServed(p, s, key, r, MarkedUpTo(db, now, i), now, i);
    }
  }

  lemma PairIsLocal(db: Db, db': Db, q: U.Request)
    requires C.IsPair(db, q) && db'.blobs == db.blobs && q.index in db'.chunks && db'.chunks[q.index] == db.chunks[q.index]
    ensures C.IsPair(db', q)
  {
  }

  // ---- Download ----

  lemma ChunkOpens(p: Primitives, s: Sender, r: Receiver, key: ByteString, server: Server, i: nat)
    requires Lawful(p) && s.WellFormed() && Invited(s, r) && |key| == KEY_BYTES && server.descriptor.Some?
    requires DeliversChunk(p, s, key, r, server, i)
    ensures OpenChunk(p, r, key, server, i) == Ok(Slice(s.file, CHUNK_SIZE_BYTES, i))
  {
    hide UrlEncode, CryptoCoreDecode, BuildChunkAad, DeriveChunkToken, BearerHeader, Slice;
    RoundTrip(s.nonces(i));
    EncodedIsNotEmpty(s.nonces(i));
  }

  lemma {:induction false} ChunksOpen(p: Primitives, s: Sender, r: Receiver, key: ByteString, server: Server, k: nat)
    requires Lawful(p) && s.WellFormed() && Invited(s, r) && |key| == KEY_BYTES && server.descriptor.Some?
    requires k <= s.Chunks() && Delivers(p, s, key, r, server)
    ensures OpenChunks(p, r, key, server, k) == Ok(Slices(s.file, CHUNK_SIZE_BYTES, k))
  {
    hide OpenChunk, DeliversChunk, Slice, Lawful, Sender.Chunks;
    if k > 0 {
      ChunksOpen(p, s, r, key, server, k - 1);
      ChunkOpens(p, s, r, key, server, k - 1);
      assert Slices(s.file, CHUNK_SIZE_BYTES, k)
          == Slices(s.file, CHUNK_SIZE_BYTES, k - 1) + [Slice(s.file, CHUNK_SIZE_BYTES, k - 1)];
    }
  }

  lemma MetaOpens(p: Primitives, s: Sender, key: ByteString, sealedMeta: ByteString, d: Descriptor)
    requires Lawful(p) && s.WellFormed() && |key| == KEY_BYTES && SealedMeta(p, s, key) == Some(sealedMeta)
    requires d.encryptedMeta == UrlEncode(sealedMeta) && d.nonceMeta == UrlEncode(s.nonceMeta)
    ensures DecryptShareMeta(p, key, d) == Ok(s.Meta(p))
  {
    hide UrlEncode, CryptoCoreDecode, BuildChunkAad;
    RoundTrip(sealedMeta);
    RoundTrip(s.nonceMeta);
    var aad := BuildChunkAad(META_ID, 0).value;
    hide Lawful;
    SealedOpens(p, key, s.nonceMeta, aad, p.writeMeta(s.Meta(p)));
    MetaReadsBack(p, s.Meta(p));
  }

  lemma SealedOpens(p: Primitives, key: ByteString, nonce: ByteString, aad: ByteString, plaintext: ByteString)
    requires Lawful(p) && |key| == KEY_BYTES && |nonce| == Crypto.NONCE_BYTES
    ensures DecryptChunk(p, key, nonce, aad, p.seal(key, nonce, aad, plaintext)) == Some(plaintext)
  {
  }

  lemma MetaReadsBack(p: Primitives, meta: ShareMeta)
    requires Lawful(p)
    ensures p.readMeta(p.writeMeta(meta)) == Some(meta)
  {
  }

  lemma HashGatePasses(p: Primitives, s: Sender)
    requires Lawful(p)
    ensures HashGate(p, s.Meta(p), s.file) == None
  {
    hide UrlEncode, CryptoCoreDecode;
    RoundTrip(p.blake2b(s.file));
  }

  /** A receiver whose server delivers the sender's chunks under the sender's descriptor gets exactly the file. */
  lemma DeliveredFileArrives(
      p: Primitives, s: Sender, r: Receiver, burn: bool, key: ByteString, sealedMeta: ByteString, server: Server)
    requires Lawful(p) && s.WellFormed() && Invited(s, r) && (s.password == "" || s.memLimitBytes % 1024 == 0)
    requires s.AeadKey(p) == Some(key) && SealedMeta(p, s, key) == Some(sealedMeta)
    requires server.descriptor
          == Some(Descriptor(UrlEncode(sealedMeta), UrlEncode(s.nonceMeta), s.Chunks(), |s.file|, burn, SeenPassword(s)))
    requires Delivers(p, s, key, r, server)
    ensures Download.Outcome(p, r, server) == Ok(Delivered(s.file, s.Meta(p).fileName, s.Meta(p).mimeType, burn))
  {
    hide Lawful, SealedMeta, ResolveKey, DecryptShareMeta, OpenChunks, HashGate, Delivers, UrlEncode, Sender.AeadKey;
    KeysAgree(p, s, r, server.descriptor.value);
    MetaOpens(p, s, key, sealedMeta, server.descriptor.value);
    ChunksOpen(p, s, r, key, server, s.Chunks());
    SlicesAreAPrefix(s.file, CHUNK_SIZE_BYTES, s.Chunks());
    HashGatePasses(p, s);
    ChunkCountIsAnArrayLength(s);
  }

  lemma ChunkCountIsAnArrayLength(s: Sender)
    requires s.WellFormed()
    ensures IsArrayLength(s.Chunks())
  {
    ChunkCountFitsTheIndex(s);
  }

  // ---- Every sender, every file ----

  /** A password `deriveKeyFromPassword` takes, or none. */
  predicate PasswordFits(s: Sender)
  {
    s.password == "" || (|s.password| <= MAX_PASSWORD_BYTES && |Utf8(s.password)| <= MAX_PASSWORD_BYTES)
  }

  function KeyOf(p: Primitives, s: Sender): (key: ByteString)
  {
    if s.AeadKey(p).Some? then s.AeadKey(p).value else []
  }

  function MetaOf(p: Primitives, s: Sender): (sealedMeta: ByteString)
  {
    if SealedMeta(p, s, KeyOf(p, s)).Some? then SealedMeta(p, s, KeyOf(p, s)).value else []
  }

  function PutsOf(p: Primitives, s: Sender, shortId: string): (puts: seq<PutRequest>)
  {
    if ChunkPuts(p, s, KeyOf(p, s), shortId, s.Chunks()).Some? then ChunkPuts(p, s, KeyOf(p, s), shortId, s.Chunks()).value else []
  }

  lemma {:induction false} EveryChunkCanBePut(p: Primitives, s: Sender, key: ByteString, shortId: string, k: nat)
    requires s.WellFormed() && |key| == KEY_BYTES && |Utf8(shortId)| <= MAX_ID_BYTES
    ensures ChunkPuts(p, s, key, shortId, k).Some?
  {
    hide Utf8, UrlEncode, Slice;
    if k > 0 {
      EveryChunkCanBePut(p, s, key, shortId, k - 1);
    }
  }

  /** No step of the sender's pipeline throws: it has a key, sealed metadata, and a PUT for every chunk. */
  lemma EverySenderSends(p: Primitives, s: Sender, shortId: string)
    requires Lawful(p) && s.WellFormed() && PasswordFits(s) && |Utf8(shortId)| <= MAX_ID_BYTES
    ensures s.AeadKey(p) == Some(KeyOf(p, s)) && |KeyOf(p, s)| == KEY_BYTES
    ensures SealedMeta(p, s, KeyOf(p, s)) == Some(MetaOf(p, s)) && MetaOf(p, s) != []
    ensures ChunkPuts(p, s, KeyOf(p, s), shortId, s.Chunks()) == Some(PutsOf(p, s, shortId))
  {
    hide Utf8, UrlEncode, ChunkPuts;
    if s.password != "" {
      PasswordKeyLength(p, s, s.memLimitBytes);
    }
    MetaIdFits();
    EveryChunkCanBePut(p, s, KeyOf(p, s), shortId, s.Chunks());
  }

  lemma MetaIdFits()
    ensures |Utf8(META_ID)| <= MAX_ID_BYTES
  {
    AsciiLength(META_ID);
  }

  /**
   * The honest round trip. Any non-empty file up to the largest whole number of chunks under the gateway's cap,
   * with or without a password: the gateway accepts the create request, the ingest service accepts every PUT, and
   * after any run of those PUTs, in any interleaving, repeated at will and with any call failing, that leaves the
   * share ready, `downloadFile` on the rows and blobs then stored returns exactly the file, its name and its type;
   * with a password, when the memory limit is a whole number of KiB.
   */
  lemma HonestRoundTrip(
      p: Primitives, s: Sender, r: Receiver, burn: bool, maxFile: nat, s0: Sys, run: seq<Step>, now: int)
    requires Lawful(p) && s.WellFormed() && Invited(s, r) && PasswordFits(s) && |Utf8(r.shortId)| <= MAX_ID_BYTES
    requires Creatable(p, s, MetaOf(p, s), maxFile) && (s.password == "" || s.memLimitBytes % 1024 == 0)
    ensures
      var body := CreateBody(p, s, burn, MetaOf(p, s));
      var puts := PutsOf(p, s, r.shortId);
      && CreateAccepted(body, maxFile) && |puts| == s.Chunks()
      && (forall i, row: ShareRow, t :: 0 <= i < |puts| && Accepting(row, s, t) ==> U.Accepts(row, t, AsRequest(puts[i])))
      && (CreatedFrom(s0, body) && P.IsUploadRun(run) && SendersPuts(run, puts)
          && Exec(s0, run).db.share.state == Ready && now < s0.db.share.expiresAt ==>
            Download.Outcome(p, r, Serving(p, body, Exec(s0, run).db, now))
              == Ok(Delivered(s.file, s.Meta(p).fileName, s.Meta(p).mimeType, burn)))
  {
    hide *;
    EverySenderSends(p, s, r.shortId);
    var key, sealedMeta, puts := KeyOf(p, s), MetaOf(p, s), PutsOf(p, s, r.shortId);
    var body := CreateBody(p, s, burn, sealedMeta);
    CreateIsAccepted(p, s, burn, sealedMeta, maxFile);
    forall i, row: ShareRow, t | 0 <= i < |puts| && Accepting(row, s, t)
      ensures U.Accepts(row, t, AsRequest(puts[i]))
    {
      PutIsAccepted(p, s, key, r.shortId, i, row, t);
    }
    if CreatedFrom(s0, body) && P.IsUploadRun(run) && SendersPuts(run, puts)
       && Exec(s0, run).db.share.state == Ready && now < s0.db.share.expiresAt {
      assert body.chunkCount == s.Chunks() by { BodyCountsChunks(p, s, burn, sealedMeta); }
      ReadyShareDelivers(p, s, key, r, body, puts, s0, run, now);
      var server := Serving(p, body, Exec(s0, run).db, now);
      assert server.descriptor == Some(Describe(Insert(body))) by {
        ReadyIsShown(s0, body, run, now);
        ServingShows(p, body, Exec(s0, run).db, now);
      }
      DeliveredFileArrives(p, s, r, burn, key, sealedMeta, server);
    }
  }

  /**
   * And it arrives: no hypothesis on the state. When no call fails and every PUT the sender made has been answered,
   * with a 201 for every chunk, the share is ready and the download is exactly the file.
   */
  lemma UploadedFileArrives(
      p: Primitives, s: Sender, r: Receiver, burn: bool, maxFile: nat, s0: Sys, run: seq<Step>, now: int)
    requires Lawful(p) && s.WellFormed() && Invited(s, r) && PasswordFits(s) && |Utf8(r.shortId)| <= MAX_ID_BYTES
    requires Creatable(p, s, MetaOf(p, s), maxFile) && (s.password == "" || s.memLimitBytes % 1024 == 0)
    requires CreatedFrom(s0, CreateBody(p, s, burn, MetaOf(p, s))) && now < s0.db.share.expiresAt
    requires P.IsUploadRun(run) && P.NothingFails(run) && SendersPuts(run, PutsOf(p, s, r.shortId))
    requires P.AllFinished(Exec(s0, run)) && C.AllStored(Exec(s0, run))
    ensures Download.Outcome(p, r, Serving(p, CreateBody(p, s, burn, MetaOf(p, s)), Exec(s0, run).db, now))
         == Ok(Delivered(s.file, s.Meta(p).fileName, s.Meta(p).mimeType, burn))
  {
    assert Created(s0) by { FromCreate(s0, CreateBody(p, s, burn, MetaOf(p, s))); }
    hide *;
    C.StoredUploadIsReady(s0, run);
    HonestRoundTrip(p, s, r, burn, maxFile, s0, run, now);
  }

  lemma FromCreate(s0: Sys, q: CreateRequest)
    requires CreatedFrom(s0, q)
    ensures Created(s0)
  {
  }

  lemma BodyCountsChunks(p: Primitives, s: Sender, burn: bool, sealedMeta: ByteString)
    ensures CreateBody(p, s, burn, sealedMeta).chunkCount == s.Chunks()
  {
  }

  lemma ServingShows(p: Primitives, body: CreateRequest, db: Db, now: int)
    ensures Serving(p, body, db, now).descriptor == Shown(body, db.share, now)
  {
  }

  lemma ReadyIsShown(s0: Sys, body: CreateRequest, run: seq<Step>, now: int)
    requires CreatedFrom(s0, body) && P.IsUploadRun(run) && Exec(s0, run).db.share.state == Ready && now < s0.db.share.expiresAt
    ensures Shown(body, Exec(s0, run).db.share, now) == Some(Describe(Insert(body)))
  {
    hide Exec, P.UploadInv, P.PromotionPending, P.IsUploadRun, Describe, Insert;
    P.CreatedIsUploadInv(s0);
    P.UploadRunKeepsShape(s0, run);
  }

  // ---- The safety theorem and the round trip speak of the same primitives ----

  /**
   * Honest services forge nothing: what they return is what the sender sealed. So on lawful primitives the safety
   * theorem's other alternative, the exact file, is what their receiver gets.
   */
  lemma HonestServicesForgeNothing(
      p: Primitives, s: Sender, r: Receiver, burn: bool, key: ByteString, sealedMeta: ByteString, server: Server)
    requires Lawful(p) && s.WellFormed() && Invited(s, r) && (s.password == "" || s.memLimitBytes % 1024 == 0)
    requires s.AeadKey(p) == Some(key) && SealedMeta(p, s, key) == Some(sealedMeta)
    requires server.descriptor
          == Some(Descriptor(UrlEncode(sealedMeta), UrlEncode(s.nonceMeta), s.Chunks(), |s.file|, burn, SeenPassword(s)))
    requires Delivers(p, s, key, r, server)
    ensures !ForgedOnTheWire(p, s, s.Meta(p), r, server) && Describes(p, s, s.Meta(p))
  {
    hide SealedMeta, ResolveKey, DeliversChunk, UrlEncode, Sender.AeadKey, MetaIsForged, ChunkIsForged, Lawful;
    var d := server.descriptor.value;
    KeysAgree(p, s, r, d);
    MetaIsGenuine(p, s, r.shortId, key, sealedMeta, d);
    forall i: nat | i < s.Chunks()
      ensures !ChunkIsForged(p, s, s.Meta(p), r, key, server, i)
    {
      ChunkIsGenuine(p, s, r, key, server, i);
    }
    MetaDescribes(p, s);
  }

  lemma MetaDescribes(p: Primitives, s: Sender)
    requires Lawful(p)
    ensures Describes(p, s, s.Meta(p))
  {
    hide UrlEncode;
    assert |p.blake2b(s.file)| == 32;
  }

  lemma MetaIsGenuine(p: Primitives, s: Sender, shortId: string, key: ByteString, sealedMeta: ByteString, d: Descriptor)
    requires Lawful(p) && s.AeadKey(p) == Some(key) && SealedMeta(p, s, key) == Some(sealedMeta)
    requires d.encryptedMeta == UrlEncode(sealedMeta) && d.nonceMeta == UrlEncode(s.nonceMeta)
    ensures !MetaIsForged(p, s, s.Meta(p), shortId, key, d)
  {
    hide UrlEncode, CryptoCoreDecode, BuildChunkAad, Sender.AeadKey, Sender.Meta;
    RoundTrip(sealedMeta);
    RoundTrip(s.nonceMeta);
  }

  lemma ChunkIsGenuine(p: Primitives, s: Sender, r: Receiver, key: ByteString, server: Server, i: nat)
    requires Lawful(p) && s.WellFormed() && s.AeadKey(p) == Some(key) && i < s.Chunks()
    requires DeliversChunk(p, s, key, r, server, i)
    ensures !ChunkIsForged(p, s, s.Meta(p), r, key, server, i)
  {
    hide UrlEncode, CryptoCoreDecode, BuildChunkAad, Sender.AeadKey, Sender.Meta, DeriveChunkToken, BearerHeader, Slice;
    RoundTrip(s.nonces(i));
    var aad := BuildChunkAad(r.shortId, i).value;
    assert SealedAsChunk(s, r.shortId, i, s.nonces(i), aad, Slice(s.file, CHUNK_SIZE_BYTES, i));
  }

  // ---- The next receiver ----

  /** The share was burnt, revoked or used up, or is past its date. */
  predicate IsGone(share: ShareRow, now: int)
  {
    share.state == Destroyed || share.state == Expired || share.expiresAt <= now
  }

  /** It is not ready yet, or its first chunk cannot be fetched a second time. */
  predicate IsClosed(share: ShareRow, first: Option<ChunkRow>)
  {
    || share.state == Pending || share.state == Uploading
    || (share.burnAfterRead && first.Some? && first.value.servedAt != None)
  }

  function FirstRow(db: Db): (row: Option<ChunkRow>)
  {
    if 0 in db.chunks then Some(db.chunks[0]) else None
  }

  lemma ClosedIs410(p: Primitives, db: Db, now: int, header: string)
    requires IsGone(db.share, now) || IsClosed(db.share, FirstRow(db))
    requires db.share.chunkCount > 0
    ensures Answer(p, db, now, 0, header) == Http(410, None, [])
  {
    hide ExtractChunkTokenHash, IngestEncode;
  }

  lemma FirstAnswerDecides(p: Primitives, r: Receiver, key: ByteString, server: Server, k: nat)
    requires server.descriptor.Some? && !r.aborted(0) && |r.fragmentKey| == KEY_BYTES && |Utf8(r.shortId)| <= MAX_ID_BYTES && k > 0
    requires forall header: string :: server.chunk(0, header) == Http(410, None, [])
    ensures OpenChunks(p, r, key, server, k) == Err(AlreadyUsed)
  {
    hide Utf8, BearerHeader;
    StuckAt(p, r, key, server, 0, k);
  }

  /**
   * A share is read once. The next invited receiver, with the right link and password, gets nothing: of a share that
   * is gone it is told that there is none, and of a burn share whose download was begun before, that it was used.
   */
  lemma NextReceiverGetsNothing(
      p: Primitives, s: Sender, r: Receiver, burn: bool, key: ByteString, sealedMeta: ByteString, db: Db, now: int)
    requires Lawful(p) && s.WellFormed() && Invited(s, r) && (s.password == "" || s.memLimitBytes % 1024 == 0)
    requires |Utf8(r.shortId)| <= MAX_ID_BYTES && s.file != [] && sealedMeta != []
    requires s.AeadKey(p) == Some(key) && SealedMeta(p, s, key) == Some(sealedMeta)
    requires db.share.chunkCount > 0
    requires IsGone(db.share, now) || IsClosed(db.share, FirstRow(db))
    ensures Download.Outcome(p, r, Serving(p, CreateBody(p, s, burn, sealedMeta), db, now))
         == Err(if IsGone(db.share, now) then ShareNotFound else AlreadyUsed)
  {
    hide *;
    var body := CreateBody(p, s, burn, sealedMeta);
    var server := Serving(p, body, db, now);
    ServingShows(p, body, db, now);
    ShownUnlessGone(body, db.share, now);
    if IsGone(db.share, now) {
      NothingIsShown(p, s, r, server);
    } else {
      DescribedAsSent(p, s, burn, sealedMeta);
      ServingIsClosed(p, body, db, now);
      RefusedFirstChunkIsTheOutcome(p, s, r, burn, key, sealedMeta, server);
    }
  }

  lemma ShownUnlessGone(body: CreateRequest, share: ShareRow, now: int)
    ensures Shown(body, share, now) == if IsGone(share, now) then None else Some(Describe(Insert(body)))
  {
    hide Describe, Insert;
  }

  lemma NothingIsShown(p: Primitives, s: Sender, r: Receiver, server: Server)
    requires s.WellFormed() && Invited(s, r) && server.descriptor == None
    ensures Download.Outcome(p, r, server) == Err(ShareNotFound)
  {
  }

  lemma ServingIsClosed(p: Primitives, body: CreateRequest, db: Db, now: int)
    requires IsGone(db.share, now) || IsClosed(db.share, FirstRow(db))
    requires db.share.chunkCount > 0
    ensures forall header: string :: Serving(p, body, db, now).chunk(0, header) == Http(410, None, [])
  {
    hide IsClosed, IsGone, Shown;
    assert MarkedUpTo(db, now, 0) == db;
    forall header: string
      ensures Serving(p, body, db, now).chunk(0, header) == Http(410, None, [])
    {
      ClosedIs410(p, db, now, header);
    }
  }

  /** Whatever else the server has: when it answers the first chunk with 410, also after showing the share, the receiver is told so. */
  lemma RefusedFirstChunkIsTheOutcome(
      p: Primitives, s: Sender, r: Receiver, burn: bool, key: ByteString, sealedMeta: ByteString, server: Server)
    requires Lawful(p) && s.WellFormed() && Invited(s, r) && (s.password == "" || s.memLimitBytes % 1024 == 0)
    requires |Utf8(r.shortId)| <= MAX_ID_BYTES && s.file != []
    requires s.AeadKey(p) == Some(key) && SealedMeta(p, s, key) == Some(sealedMeta)
    requires server.descriptor
          == Some(Descriptor(UrlEncode(sealedMeta), UrlEncode(s.nonceMeta), s.Chunks(), |s.file|, burn, SeenPassword(s)))
    requires forall header: string :: server.chunk(0, header) == Http(410, None, [])
    ensures Download.Outcome(p, r, server) == Err(AlreadyUsed)
  {
    hide Lawful, SealedMeta, ResolveKey, DecryptShareMeta, OpenChunks, HashGate, UrlEncode, Sender.AeadKey, Utf8;
    KeysAgree(p, s, r, server.descriptor.value);
    MetaOpens(p, s, key, sealedMeta, server.descriptor.value);
    ChunkCountIsAnArrayLength(s);
    ChunkCountIsLeast(|s.file|, CHUNK_SIZE_BYTES, 0);
    FirstAnswerDecides(p, r, key, server, s.Chunks());
  }

  lemma DescribedAsSent(p: Primitives, s: Sender, burn: bool, sealedMeta: ByteString)
    requires s.WellFormed() && sealedMeta != []
    ensures Describe(Insert(CreateBody(p, s, burn, sealedMeta)))
         == Descriptor(UrlEncode(sealedMeta), UrlEncode(s.nonceMeta), s.Chunks(), |s.file|, burn, SeenPassword(s))
  {
    hide UrlEncode, GatewayDecode;
    EncodedSurvivesTheColumn(sealedMeta);
    EncodedSurvivesTheColumn(s.nonceMeta);
    EncodedSurvivesTheColumn(s.salt);
  }
}
