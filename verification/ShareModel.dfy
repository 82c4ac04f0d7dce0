/**
 * The rows of one share and the atomic statements run against them: services/ingest/Models/Share.cs, the
 * queries of PostgresShareRepository.cs and of the reaper's db.go, and the SQL functions `increment_download`
 * and `mark_chunk_served` of db/migrations.
 */
module ShareModel {
  import opened Wrappers
  import opened Bytes

  datatype ShareState = Pending | Uploading | Ready | Downloaded | Expired | Destroyed

  datatype Reason = Burn | Expiry | Manual | MaxDownloads

  /** The columns of `shares` the lifecycle reads or writes. Times are instants on one database clock. */
  datatype ShareRow = ShareRow(
    state: ShareState,
    chunkCount: int,
    chunkSize: int,
    expiresAt: int,
    burnAfterRead: bool,
    maxDownloads: Option<int>,
    downloadCount: int,
    revokeTokenHash: Option<ByteString>,
    destroyedAt: Option<int>,
    destroyedReason: Option<Reason>)
  {
    predicate CanAcceptUploads()
    {
      state == Pending || state == Uploading
    }

    predicate CanServeDownloads()
    {
      state == Ready || state == Downloaded
    }

    predicate IsExpired(now: int)
    {
      now >= expiresAt
    }

    predicate Terminal()
    {
      state == Destroyed || state == Expired
    }
  }

  /** A row of `share_chunks`; its key is (share, chunk index) and its blob key follows from that key. */
  datatype ChunkRow = ChunkRow(
    nonce: ByteString,
    ciphertextSize: int,
    uploadedAt: Option<int>,
    servedAt: Option<int>,
    servedCount: int,
    downloadTokenHash: Option<ByteString>)

  /** Who appended a `share_destroyed` entry; the gateway's two entries carry no chunk count. */
  datatype Trigger = IngestLastChunk | GatewayDownloaded | SenderRevoke | Reaper

  datatype AuditEntry = ShareDestroyed(trigger: Trigger, reason: Reason, chunkCount: Option<int>) | ShareDownloaded

  /** Everything stored for one share: its row, its chunk rows, its blobs by index and its audit entries. */
  datatype Db = Db(share: ShareRow, chunks: map<int, ChunkRow>, blobs: map<int, ByteString>, audit: seq<AuditEntry>)

  // ---- Statements of the ingest repository ----

  function UpsertChunk(db: Db, i: int, nonce: ByteString, size: int, uploadedAt: int, tokenHash: Option<ByteString>): (r: Db)
  {
    db.(chunks := db.chunks[i := ChunkRow(nonce, size, Some(uploadedAt), None, 0, tokenHash)])
  }

  function PutBlob(db: Db, i: int, body: ByteString): (r: Db)
  {
    db.(blobs := db.blobs[i := body])
  }

  /** `UpdateShareStateAsync`: no guard on the state it overwrites. */
  function SetState(db: Db, state: ShareState): (r: Db)
  {
    db.(share := db.share.(state := state))
  }

  function UploadedIndexes(db: Db): (r: set<int>)
  {
    set i | i in db.chunks && db.chunks[i].uploadedAt.Some?
  }

  function CountUploadedChunks(db: Db): (n: nat)
  {
    |UploadedIndexes(db)|
  }

  function Unserved(db: Db): (r: set<int>)
  {
    set i | i in db.chunks && db.chunks[i].servedAt.None?
  }

  // ---- SQL functions ----

  datatype ServedResult = ServedResult(burnFired: bool, state: ShareState)

  function StampServed(db: Db, i: int, now: int): (r: Db)
    requires i in db.chunks
  {
    var row := db.chunks[i];
    db.(chunks := db.chunks[i := row.(
      servedAt := if row.servedAt.Some? then row.servedAt else Some(now),
      servedCount := row.servedCount + 1)])
  }

  /** `mark_chunk_served`, one transaction under the share's row lock. */
  function MarkChunkServed(db: Db, i: int, now: int): (r: (Db, ServedResult))
  {
    if i !in db.chunks then (db, ServedResult(false, db.share.state))
    else
      var stamped := StampServed(db, i, now);
      if db.share.burnAfterRead && db.share.state == Ready && Unserved(stamped) == {} then
        (stamped.(
           share := stamped.share.(
             state := Destroyed, destroyedAt := Some(now), destroyedReason := Some(Burn),
             downloadCount := stamped.share.downloadCount + 1),
           audit := stamped.audit + [ShareDestroyed(IngestLastChunk, Burn, Some(stamped.share.chunkCount))]),
         ServedResult(true, Destroyed))
      else (stamped, ServedResult(false, db.share.state))
  }

  /** `increment_download`; None where it raises 'share not available'. */
  function IncrementDownload(db: Db, now: int): (r: Option<Db>)
  {
    var s := db.share;
    if !s.CanServeDownloads() || s.IsExpired(now) then None
    else
      Some(db.(share := s.(
        downloadCount := s.downloadCount + 1,
        state :=
          if s.burnAfterRead then Destroyed
          else if s.maxDownloads.Some? && s.downloadCount + 1 >= s.maxDownloads.value then Expired
          else s.state,
        destroyedAt := if s.burnAfterRead then Some(now) else s.destroyedAt,
        destroyedReason := if s.burnAfterRead then Some(Burn) else s.destroyedReason)))
  }

  // ---- Statements of the gateway and the reaper ----

  /** The UPDATE of `/destroy`: filtered on the short id only. */
  function RevokeUpdate(db: Db, now: int): (r: Db)
  {
    db.(share := db.share.(state := Destroyed, destroyedAt := Some(now), destroyedReason := Some(Manual)))
  }

  function AppendAudit(db: Db, e: AuditEntry): (r: Db)
  {
    db.(audit := db.audit + [e])
  }

  /** `selectReapableSQL`, for one share. */
  predicate Reapable(db: Db, now: int)
  {
    var s := db.share;
    || ((s.state == Ready || s.state == Uploading || s.state == Pending)
        && (s.expiresAt < now || (s.maxDownloads.Some? && s.downloadCount >= s.maxDownloads.value)))
    || (s.state == Destroyed && s.destroyedAt.Some? && db.chunks != map[])
    || (s.state == Expired && db.chunks != map[])
  }

  /** `classifyReason`; its two last branches agree. */
  function ClassifyReason(s: ShareRow): (r: Reason)
  {
    if s.burnAfterRead && s.state == Destroyed && s.destroyedAt.Some? then Burn
    else if s.maxDownloads.Some? && s.downloadCount >= s.maxDownloads.value then MaxDownloads
    else Expiry
  }

  function RemoveBlob(db: Db, i: int): (r: Db)
  {
    db.(blobs := db.blobs - {i})
  }

  /** The committed transaction of `finalizeDestroy`. */
  function FinalizeDestroy(db: Db, now: int, chunkCount: int): (r: Db)
  {
    var reason := ClassifyReason(db.share);
    db.(
      chunks := map[],
      share := db.share.(
        state := Destroyed,
        destroyedAt := if db.share.destroyedAt.Some? then db.share.destroyedAt else Some(now),
        destroyedReason := Some(reason)),
      audit := db.audit + [ShareDestroyed(Reaper, reason, Some(chunkCount))])
  }

  // ---- Facts about the rows of a share ----

  predicate IsIndex(i: int, n: int)
  {
    0 <= i < n
  }

  /** The indexes of a share with `n` chunks. */
  function Indexes(n: int): (r: set<int>)
    ensures forall i :: i in r <==> IsIndex(i, n)
  {
    set i | 0 <= i < n && IsIndex(i, n)
  }

  lemma {:induction false} IndexCount(n: nat)
    ensures |Indexes(n)| == n
  {
    if n == 0 {
      assert Indexes(0) == {};
    } else {
      IndexCount(n - 1);
      assert Indexes(n) == Indexes(n - 1) + {n - 1};
    }
  }

  ghost predicate InRange(db: Db)
  {
    forall i :: i in db.chunks ==> IsIndex(i, db.share.chunkCount) && db.chunks[i].uploadedAt.Some?
  }

  /** Every index has its row. */
  ghost predicate Full(db: Db)
  {
    forall i :: IsIndex(i, db.share.chunkCount) ==> i in db.chunks
  }

  lemma SubsetOfSameSize<T>(a: set<T>, b: set<T>)
    requires a <= b && |a| >= |b|
    ensures a == b
  {
    assert |b - a| == |b| - |a|;
  }

  lemma SubsetSize<T>(a: set<T>, b: set<T>)
    requires a <= b
    ensures |a| <= |b|
  {
    assert |b - a| == |b| - |a|;
  }

  /**
   * The count test of the PUT handler is sound and complete: with the index check and the row key, as many
   * rows as chunks means exactly one row for each index.
   */
  lemma CountMeansFull(db: Db)
    requires InRange(db) && db.share.chunkCount >= 0
    ensures CountUploadedChunks(db) <= db.share.chunkCount
    ensures CountUploadedChunks(db) >= db.share.chunkCount <==> Full(db)
    ensures Full(db) ==> db.chunks.Keys == Indexes(db.share.chunkCount)
  {
    var n := db.share.chunkCount;
    var a, b := UploadedIndexes(db), Indexes(n);
    IndexCount(n);
    assert forall i :: i in db.chunks.Keys ==> i in db.chunks && i in a && i in b;
    assert a == db.chunks.Keys;
    SubsetSize(a, b);
    if |a| >= n {
      SubsetOfSameSize(a, b);
    }
    if Full(db) {
      assert b <= a;
      assert a == b;
    }
  }
}
