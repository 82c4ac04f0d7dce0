/**
 * The database rows and the object store of one share as the services update them in place. Every call can
 * be applied, fail without effect, or take effect and still look failed to its caller.
 */
module ShareStore {
  import opened Wrappers
  import opened Bytes
  import opened ShareModel

  datatype Outcome = Applied | Lost | AppliedLost

  /** What a call leaves behind: `before` when it was lost, `after` otherwise. */
  function Effect(o: Outcome, before: Db, after: Db): (r: Db)
  {
    if o.Lost? then before else after
  }

  class Store {
    var share: ShareRow
    var chunks: map<int, ChunkRow>
    var blobs: map<int, ByteString>
    var audit: seq<AuditEntry>

    constructor (db: Db)
      ensures Snapshot() == db
    {
      share, chunks, blobs, audit := db.share, db.chunks, db.blobs, db.audit;
    }

    ghost function Snapshot(): (db: Db)
      reads this
    {
      Db(share, chunks, blobs, audit)
    }

    method PutAsync(o: Outcome, i: int, body: ByteString) returns (ok: bool)
      modifies this`blobs
      ensures Snapshot() == Effect(o, old(Snapshot()), PutBlob(old(Snapshot()), i, body)) && ok == o.Applied?
    {
      if !o.Lost? {
        blobs := blobs[i := body];
      }
      ok := o.Applied?;
    }

    method UpsertChunkAsync(o: Outcome, i: int, nonce: ByteString, size: int, uploadedAt: int, tokenHash: Option<ByteString>)
      returns (ok: bool)
      modifies this`chunks
      ensures Snapshot() == Effect(o, old(Snapshot()), UpsertChunk(old(Snapshot()), i, nonce, size, uploadedAt, tokenHash))
      ensures ok == o.Applied?
    {
      if !o.Lost? {
        if i in chunks {
          // ON CONFLICT DO UPDATE
          chunks := chunks[i := chunks[i].(
            nonce := nonce, ciphertextSize := size, uploadedAt := Some(uploadedAt),
            servedAt := None, servedCount := 0, downloadTokenHash := tokenHash)];
        } else {
          chunks := chunks[i := ChunkRow(nonce, size, Some(uploadedAt), None, 0, tokenHash)];
        }
      }
      ok := o.Applied?;
    }

    method UpdateShareStateAsync(o: Outcome, state: ShareState) returns (ok: bool)
      modifies this`share
      ensures Snapshot() == Effect(o, old(Snapshot()), SetState(old(Snapshot()), state)) && ok == o.Applied?
    {
      if !o.Lost? {
        share := share.(state := state);
      }
      ok := o.Applied?;
    }

    method CountUploadedChunksAsync() returns (n: nat)
      ensures n == CountUploadedChunks(Snapshot())
    {
      var uploaded := set i | i in chunks && chunks[i].uploadedAt.Some?;
      assert uploaded == UploadedIndexes(Snapshot());
      n := |uploaded|;
    }

    /** `mark_chunk_served`: stamp the chunk, then look for an unserved one, then flip the share. */
    method MarkChunkServedAsync(o: Outcome, i: int, now: int) returns (ok: bool, r: ServedResult)
      modifies this`share, this`chunks, this`audit
      ensures Snapshot() == Effect(o, old(Snapshot()), MarkChunkServed(old(Snapshot()), i, now).0) && ok == o.Applied?
      ensures r == MarkChunkServed(old(Snapshot()), i, now).1
    {
      ghost var start := Snapshot();
      var s := share;
      var row := chunks;
      var burnFired := false;
      if i in row {
        var c := row[i];
        row := row[i := c.(servedAt := if c.servedAt.Some? then c.servedAt else Some(now), servedCount := c.servedCount + 1)];
        if s.burnAfterRead && s.state == Ready {
          var unserved := set j | j in row && row[j].servedAt.None?;
          assert unserved == Unserved(StampServed(start, i, now));
          if |unserved| == 0 {
            s := s.(state := Destroyed, destroyedAt := Some(now), destroyedReason := Some(Burn), downloadCount := s.downloadCount + 1);
            burnFired := true;
          }
        }
      }
      r := ServedResult(burnFired, s.state);
      if !o.Lost? {
        // COMMIT
        share, chunks := s, row;
        if burnFired {
          audit := audit + [ShareDestroyed(IngestLastChunk, Burn, Some(s.chunkCount))];
        }
      }
      ok := o.Applied?;
    }

    /** `increment_download`: the updated row, or None where the call raises. */
    method IncrementDownloadRpc(o: Outcome, now: int) returns (ok: bool, row: Option<ShareRow>)
      modifies this`share
      ensures ok == o.Applied? && (row.Some? <==> IncrementDownload(old(Snapshot()), now).Some?)
      ensures row.None? ==> Snapshot() == old(Snapshot())
      ensures row.Some? ==>
        var after := IncrementDownload(old(Snapshot()), now).value;
        row.value == after.share && Snapshot() == Effect(o, old(Snapshot()), after)
    {
      ok := o.Applied?;
      if !(share.state == Ready || share.state == Downloaded) || now >= share.expiresAt {
        return ok, None;
      }
      var s := share.(downloadCount := share.downloadCount + 1);
      if s.burnAfterRead {
        s := s.(state := Destroyed, destroyedAt := Some(now), destroyedReason := Some(Burn));
      } else if s.maxDownloads.Some? && s.downloadCount >= s.maxDownloads.value {
        s := s.(state := Expired);
      }
      if !o.Lost? {
        share := s;
      }
      row := Some(s);
    }

    /** The UPDATE of `/destroy`. */
    method RevokeAsync(o: Outcome, now: int) returns (ok: bool)
      modifies this`share
      ensures Snapshot() == Effect(o, old(Snapshot()), RevokeUpdate(old(Snapshot()), now)) && ok == o.Applied?
    {
      if !o.Lost? {
        share := share.(state := Destroyed, destroyedAt := Some(now), destroyedReason := Some(Manual));
      }
      ok := o.Applied?;
    }

    /** `append_audit_entry`; the gateway does not wait for it. */
    method AppendAuditEntry(o: Outcome, e: AuditEntry)
      modifies this`audit
      ensures Snapshot() == Effect(o, old(Snapshot()), AppendAudit(old(Snapshot()), e))
    {
      if !o.Lost? {
        audit := audit + [e];
      }
    }

    /** `finalizeDestroy`: delete the chunk rows, flip the share, append the audit entry, commit. */
    method FinalizeDestroyTx(o: Outcome, now: int, chunkCount: int) returns (ok: bool)
      modifies this`share, this`chunks, this`audit
      ensures Snapshot() == Effect(o, old(Snapshot()), FinalizeDestroy(old(Snapshot()), now, chunkCount)) && ok == o.Applied?
    {
      var reason := ClassifyReason(share);
      var s := share;
      s := s.(
        state := Destroyed,
        destroyedAt := if s.destroyedAt.Some? then s.destroyedAt else Some(now),
        destroyedReason := Some(reason));
      var entry := ShareDestroyed(Reaper, reason, Some(chunkCount));
      if !o.Lost? {
        // COMMIT
        chunks, share, audit := map[], s, audit + [entry];
      }
      ok := o.Applied?;
    }
  }
}
