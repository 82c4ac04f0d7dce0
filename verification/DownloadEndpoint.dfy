/** `GET /chunk/{shortId}/{chunkIndex}`: services/ingest/Endpoints/DownloadEndpoint.cs. */
module DownloadEndpoint {
  import opened Wrappers
  import opened Bytes
  import opened ShareModel
  import opened ShareStore

  datatype Pc =
    | ReadShare
    | ReadChunk(seen: ShareRow)
    | Stream
    | Mark
    | Finished(status: int)

  /**
   * One handler: the hash `ExtractChunkTokenHash` took from its Authorization header, whether a byte of the
   * body has left, and whether its own mark reported the burn.
   */
  datatype Get = Get(index: int, tokenHash: Option<ByteString>, pc: Pc, sent: bool, burnFired: bool)
  {
    function To(pc: Pc): (g: Get)
    {
      this.(pc := pc)
    }
  }

  /** The checks on the chunk row: the status of the refusal, or None. */
  function ChunkRefusal(db: Db, seen: ShareRow, g: Get): (status: Option<int>)
  {
    if g.index !in db.chunks then Some(404)
    else
      var chunk := db.chunks[g.index];
      if chunk.servedAt.Some? && seen.burnAfterRead then Some(410)
      else if chunk.downloadTokenHash.None? then None
      else if g.tokenHash.None? then Some(401)
      else if g.tokenHash != chunk.downloadTokenHash then Some(403)
      else None
  }

  /** The next call of the handler. A byte can only leave if the blob is there to be read. */
  function GetStep(db: Db, now: int, g: Get, o: Outcome): (r: (Db, Get))
  {
    match g.pc
    case ReadShare =>
      (db, if !o.Applied? then g.To(Finished(500))
           else if !db.share.CanServeDownloads() || db.share.IsExpired(now) then g.To(Finished(410))
           else if g.index < 0 || g.index >= db.share.chunkCount then g.To(Finished(400))
           else g.To(ReadChunk(db.share)))
    case ReadChunk(seen) =>
      (db, if !o.Applied? then g.To(Finished(500))
           else match ChunkRefusal(db, seen, g)
                case Some(status) => g.To(Finished(status))
                case None => g.To(Stream))
    case Stream =>
      (db, if o.Lost? || g.index !in db.blobs then g.To(Finished(502)) else g.(pc := Mark, sent := true))
    case Mark =>
      var (marked, result) := MarkChunkServed(db, g.index, now);
      (Effect(o, db, marked), g.(pc := Finished(200), burnFired := o.Applied? && result.burnFired))
    case Finished(_) => (db, g)
  }

  /** `HandleAsync` run alone: its response, whether bytes left, and the rows it leaves. */
  method HandleAsync(store: Store, now: int, index: int, tokenHash: Option<ByteString>, outcomes: seq<Outcome>)
    returns (status: int, sent: bool, burnFired: bool)
    requires |outcomes| == 4
    modifies store
    ensures
      var g0 := Get(index, tokenHash, ReadShare, false, false);
      var (db1, g1) := GetStep(old(store.Snapshot()), now, g0, outcomes[0]);
      var (db2, g2) := GetStep(db1, now, g1, outcomes[1]);
      var (db3, g3) := GetStep(db2, now, g2, outcomes[2]);
      var (db4, g4) := GetStep(db3, now, g3, outcomes[3]);
      store.Snapshot() == db4 && g4 == Get(index, tokenHash, Finished(status), sent, burnFired)
  {
    sent, burnFired := false, false;
    if !outcomes[0].Applied? {
      return 500, sent, burnFired;
    }
    var share := store.share;
    if !share.CanServeDownloads() || share.IsExpired(now) {
      return 410, sent, burnFired;
    }
    if index < 0 || index >= share.chunkCount {
      return 400, sent, burnFired;
    }
    if !outcomes[1].Applied? {
      return 500, sent, burnFired;
    }
    if index !in store.chunks {
      return 404, sent, burnFired;
    }
    var chunk := store.chunks[index];
    if chunk.servedAt.Some? && share.burnAfterRead {
      return 410, sent, burnFired;
    }
    if chunk.downloadTokenHash.Some? {
      if tokenHash.None? {
        return 401, sent, burnFired;
      }
      if tokenHash.value != chunk.downloadTokenHash.value {
        return 403, sent, burnFired;
      }
    }
    if !outcomes[2].Lost? && index in store.blobs {
      sent := true;
    }
    if !sent {
      return 502, sent, burnFired;
    }
    var ok, marked := store.MarkChunkServedAsync(outcomes[3], index, now);
    burnFired := ok && marked.burnFired;
    status := 200;
  }
}
