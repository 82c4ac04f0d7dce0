/**
 * Once no upload is in flight: no handler, no failure and no crash of the reaper moves a share backwards, or
 * parts a blob from its row.
 */
module LifecycleProofs {
  import opened Wrappers
  import opened Bytes
  import opened ShareModel
  import opened ShareStore
  import opened ShareSystem
  import opened UploadProofs
  import U = UploadEndpoint
  import D = DownloadEndpoint
  import G = GatewayShares

  // ---- Moving forward ----

  /** The order of the states after upload: servable, then expired or not, then destroyed. */
  predicate Forward(a: ShareState, b: ShareState)
  {
    a == b || b == Destroyed || ((a == Ready || a == Downloaded) && b == Expired)
  }

  /** What one call of a GET, `/downloaded` or `/destroy` handler does to the rows: states forward, marks kept, keys kept. */
  ghost predicate Advance(db: Db, db': Db)
  {
    && db'.share == db.share.(
         state := db'.share.state, downloadCount := db'.share.downloadCount,
         destroyedAt := db'.share.destroyedAt, destroyedReason := db'.share.destroyedReason)
    && Forward(db.share.state, db'.share.state)
    && db'.blobs == db.blobs
    && db'.chunks.Keys == db.chunks.Keys
    && (forall i :: i in db.chunks ==>
          db'.chunks[i].uploadedAt == db.chunks[i].uploadedAt && (db.chunks[i].servedAt.Some? ==> db'.chunks[i].servedAt.Some?))
  }

  lemma GetAdvances(db: Db, now: int, g: D.Get, o: Outcome)
    ensures Advance(db, D.GetStep(db, now, g, o).0)
  {
  }

  lemma AckAdvances(db: Db, now: int, a: G.Acknowledge, o: Outcome)
    ensures Advance(db, G.AcknowledgeStep(db, now, a, o).0)
  {
  }

  lemma RevokeAdvances(db: Db, now: int, r: G.Revoke, o: Outcome)
    ensures Advance(db, G.RevokeStep(db, now, r, o).0)
  {
  }

  // ---- No upload in flight ----

  /** No PUT has passed its checks without answering, and none can pass them any more. */
  ghost predicate NoUpload(s: Sys)
  {
    && (forall id :: id in s.puts ==> !s.puts[id].InFlight())
    && (!s.db.share.CanAcceptUploads() || s.db.share.IsExpired(s.now))
  }

  lemma PutIsRefused(db: Db, now: int, p: U.Put, o: Outcome)
    requires !p.InFlight() && (!db.share.CanAcceptUploads() || db.share.IsExpired(now))
    ensures U.PutStep(db, now, p, o).0 == db && !U.PutStep(db, now, p, o).1.InFlight()
  {
    hide U.Refusal;
    if p.pc.ReadShare? {
      assert U.Refusal(db.share, now, p.req) == Some(410) by {
        RefusedAtTheGate(db.share, now, p.req);
      }
    }
  }

  lemma RefusedAtTheGate(share: ShareRow, now: int, q: U.Request)
    requires !share.CanAcceptUploads() || share.IsExpired(now)
    ensures U.Refusal(share, now, q) == Some(410)
  {
  }

  // ---- Blobs and rows ----

  /** Blobs that no chunk row names. */
  function Orphans(db: Db): (r: set<int>)
  {
    db.blobs.Keys - db.chunks.Keys
  }

  /** The blobs of the rows are gone, except those of the keys still to be removed. */
  ghost predicate OnlyLeft(db: Db, keys: seq<int>)
  {
    forall i :: i in db.chunks && i in db.blobs ==> i in keys
  }

  /** No key still to be removed names a blob without a row. */
  ghost predicate NamesNoOrphan(db: Db, keys: seq<int>)
  {
    forall k :: k in keys ==> k !in Orphans(db)
  }

  /** The reaper's list of keys still fits the rows: what it will delete with the rows is what it removes from the store. */
  ghost predicate ListIsFresh(s: Sys)
  {
    match s.reaper
    case Idle => true
    case Candidate => true
    case Removing(keys, _) => OnlyLeft(s.db, keys) && NamesNoOrphan(s.db, keys)
    case Finalizing(_) => OnlyLeft(s.db, [])
  }

  /** No upload in flight, the reaper's list fresh, and exactly these blobs without a row. */
  ghost predicate Quiet(s: Sys, orphans: set<int>)
  {
    NoUpload(s) && ListIsFresh(s) && Orphans(s.db) == orphans
  }

  lemma AdvanceKeepsNoUpload(s: Sys, s': Sys)
    requires NoUpload(s) && Advance(s.db, s'.db) && s'.now == s.now && s'.puts == s.puts
    ensures NoUpload(s')
  {
  }

  lemma ReaperKeepsNoUpload(s: Sys, a: ReaperAction)
    requires NoUpload(s)
    ensures NoUpload(StepReaper(s, a))
  {
    hide ListsRows, Reapable, ClassifyReason;
  }

  lemma NoUploadStep(s: Sys, step: Step)
    requires NoUpload(s)
    ensures NoUpload(Next(s, step))
  {
    hide U.PutStep, D.GetStep, G.AcknowledgeStep, G.RevokeStep, StepReaper, Advance;
    match step
    case PutCall(id, o) =>
      if id in s.puts {
        PutIsRefused(s.db, s.now, s.puts[id], o);
      }
    case GetCall(id, o) =>
      if id in s.gets {
        GetAdvances(s.db, s.now, s.gets[id], o);
        AdvanceKeepsNoUpload(s, Next(s, step));
      }
    case AckCall(id, o) =>
      if id in s.acks {
        AckAdvances(s.db, s.now, s.acks[id], o);
        AdvanceKeepsNoUpload(s, Next(s, step));
      }
    case RevokeCall(id, o) =>
      if id in s.revokes {
        RevokeAdvances(s.db, s.now, s.revokes[id], o);
        AdvanceKeepsNoUpload(s, Next(s, step));
      }
    case Reap(a) => ReaperKeepsNoUpload(s, a);
    case _ =>
  }

  lemma {:induction false} NoUploadRun(s: Sys, run: seq<Step>)
    requires NoUpload(s)
    ensures NoUpload(Exec(s, run))
    decreases |run|
  {
    hide Next, NoUpload;
    if run != [] {
      NoUploadStep(s, run[0]);
      NoUploadRun(Next(s, run[0]), run[1..]);
    }
  }

  lemma AdvanceKeepsFresh(s: Sys, s': Sys)
    requires ListIsFresh(s) && Advance(s.db, s'.db) && s'.reaper == s.reaper
    ensures ListIsFresh(s') && Orphans(s'.db) == Orphans(s.db)
  {
    assert forall i :: i in s'.db.chunks ==> i in s'.db.chunks.Keys && i in s.db.chunks;
  }

  lemma FetchedKeysCoverTheRows(keys: seq<int>, db: Db)
    requires ListsRows(keys, db)
    ensures OnlyLeft(db, keys) && NamesNoOrphan(db, keys)
  {
    var listed := set k | k in keys;
    assert forall i :: i in db.chunks ==> i in db.chunks.Keys && i in listed;
    assert forall k :: k in keys ==> k in listed && k in db.chunks.Keys;
  }

  lemma RemovalKeepsOrphans(db: Db, keys: seq<int>)
    requires keys != [] && OnlyLeft(db, keys) && NamesNoOrphan(db, keys)
    ensures OnlyLeft(RemoveBlob(db, keys[0]), keys[1..]) && Orphans(RemoveBlob(db, keys[0])) == Orphans(db)
    ensures NamesNoOrphan(RemoveBlob(db, keys[0]), keys[1..])
    ensures OnlyLeft(RemoveBlob(db, keys[0]), keys) && NamesNoOrphan(RemoveBlob(db, keys[0]), keys)
  {
    assert forall k :: k in keys ==> k == keys[0] || k in keys[1..];
    assert keys[0] in keys;
    assert Orphans(RemoveBlob(db, keys[0])) == Orphans(db);
  }

  lemma FinalizeKeepsOrphans(db: Db, now: int, n: int)
    requires OnlyLeft(db, [])
    ensures Orphans(FinalizeDestroy(db, now, n)) == Orphans(db)
  {
    assert forall i :: i in db.blobs.Keys ==> i !in db.chunks;
  }

  lemma ReaperKeepsFresh(s: Sys, a: ReaperAction)
    requires ListIsFresh(s)
    ensures ListIsFresh(StepReaper(s, a)) && Orphans(StepReaper(s, a).db) == Orphans(s.db)
  {
    hide OnlyLeft, NamesNoOrphan, Orphans, FinalizeDestroy, RemoveBlob, ListsRows, Reapable;
    match (s.reaper, a)
    case (Candidate, FetchKeys(keys)) =>
      if ListsRows(keys, s.db) {
        FetchedKeysCoverTheRows(keys, s.db);
      }
    case (Removing(keys, n), RemoveNext(o)) =>
      if keys == [] {
        assert keys == [];
      } else {
        RemovalKeepsOrphans(s.db, keys);
      }
    case (Finalizing(n), Finalize(o)) => FinalizeKeepsOrphans(s.db, s.now, n);
    case _ =>
  }

  lemma RemovalIsLocal(db: Db, i: int)
    ensures RemoveBlob(db, i) == db.(blobs := RemoveBlob(db, i).blobs)
  {
  }

  lemma FreshStep(s: Sys, step: Step)
    requires NoUpload(s) && ListIsFresh(s)
    ensures ListIsFresh(Next(s, step)) && Orphans(Next(s, step).db) == Orphans(s.db)
  {
    hide U.PutStep, D.GetStep, G.AcknowledgeStep, G.RevokeStep, StepReaper, Advance, Orphans, OnlyLeft, NamesNoOrphan;
    match step
    case PutCall(id, o) =>
      if id in s.puts {
        PutIsRefused(s.db, s.now, s.puts[id], o);
      }
    case GetCall(id, o) =>
      if id in s.gets {
        GetAdvances(s.db, s.now, s.gets[id], o);
        AdvanceKeepsFresh(s, Next(s, step));
      }
    case AckCall(id, o) =>
      if id in s.acks {
        AckAdvances(s.db, s.now, s.acks[id], o);
        AdvanceKeepsFresh(s, Next(s, step));
      }
    case RevokeCall(id, o) =>
      if id in s.revokes {
        RevokeAdvances(s.db, s.now, s.revokes[id], o);
        AdvanceKeepsFresh(s, Next(s, step));
      }
    case Reap(a) => ReaperKeepsFresh(s, a);
    case _ =>
  }

  lemma QuietStep(s: Sys, step: Step, orphans: set<int>)
    requires Quiet(s, orphans)
    ensures Quiet(Next(s, step), orphans)
  {
    hide Next, NoUpload, ListIsFresh, Orphans;
    NoUploadStep(s, step);
    FreshStep(s, step);
  }

  lemma {:induction false} QuietRun(s: Sys, run: seq<Step>, orphans: set<int>)
    requires Quiet(s, orphans)
    ensures Quiet(Exec(s, run), orphans)
    decreases |run|
  {
    hide Next, Quiet;
    if run != [] {
      QuietStep(s, run[0], orphans);
      QuietRun(Next(s, run[0]), run[1..], orphans);
    }
  }

  /**
   * Crash safety of the reaper: with no upload in flight and its list fresh, as it is whenever it is not in the
   * middle of this share, whatever storage calls fail or half-succeed, whatever transactions roll back, wherever
   * it is cancelled or killed, and whoever else is at work, the blobs without a row stay exactly those there were.
   * So a share whose rows are gone has no blob left exactly when it had no orphan to begin with.
   */
  lemma ReaperNeverPartsBlobFromRow(s: Sys, run: seq<Step>)
    requires NoUpload(s) && ListIsFresh(s)
    ensures Orphans(Exec(s, run).db) == Orphans(s.db)
    ensures Exec(s, run).db.chunks == map[] ==> (Exec(s, run).db.blobs == map[] <==> Orphans(s.db) == {})
  {
    hide ListIsFresh;
    QuietRun(s, run, Orphans(s.db));
    var db := Exec(s, run).db;
    if db.chunks == map[] {
      assert Orphans(db) == db.blobs.Keys;
    }
  }

  // ---- Run-level order of the states ----

  lemma StepIsForward(s: Sys, step: Step)
    requires NoUpload(s)
    ensures Forward(s.db.share.state, Next(s, step).db.share.state)
  {
    hide U.PutStep, D.GetStep, G.AcknowledgeStep, G.RevokeStep;
    match step
    case PutCall(id, o) =>
      if id in s.puts {
        PutIsRefused(s.db, s.now, s.puts[id], o);
      }
    case GetCall(id, o) =>
      if id in s.gets {
        GetAdvances(s.db, s.now, s.gets[id], o);
      }
    case AckCall(id, o) =>
      if id in s.acks {
        AckAdvances(s.db, s.now, s.acks[id], o);
      }
    case RevokeCall(id, o) =>
      if id in s.revokes {
        RevokeAdvances(s.db, s.now, s.revokes[id], o);
      }
    case _ =>
  }

  /**
   * With no upload in flight, wherever the reaper is, every interleaving of every actor moves a share only
   * forward: `ready` to `expired` or not, then `destroyed`, which is final.
   */
  lemma {:induction false} LifecycleIsForward(s: Sys, run: seq<Step>)
    requires NoUpload(s)
    ensures Forward(s.db.share.state, Exec(s, run).db.share.state)
    ensures s.db.share.state == Destroyed ==> Exec(s, run).db.share.state == Destroyed
    decreases |run|
  {
    hide Next, NoUpload;
    if run != [] {
      NoUploadStep(s, run[0]);
      StepIsForward(s, run[0]);
      LifecycleIsForward(Next(s, run[0]), run[1..]);
    }
  }

  // ---- The date of destruction ----

  /** The step is the unguarded UPDATE of a `/destroy` handler that read the share before. */
  predicate RevokeWrites(s: Sys, step: Step)
  {
    step.RevokeCall? && step.id in s.revokes && s.revokes[step.id].pc == G.UpdateRow && !step.o.Lost?
  }

  /** A share is dated exactly when it is destroyed. */
  predicate Dated(db: Db)
  {
    db.share.state == Destroyed <==> db.share.destroyedAt.Some?
  }

  /**
   * Which steps can rewrite `destroyed_at`: on a dated share, a step keeps the date unless it is the UPDATE of
   * a `/destroy` handler, which has no guard on the state and writes the current time over it.
   */
  lemma DateChangesOnlyByRevoke(s: Sys, step: Step)
    requires NoUpload(s) && Dated(s.db) && s.db.share.state == Destroyed
    ensures Next(s, step).db.share.destroyedAt == s.db.share.destroyedAt
        <==> !(RevokeWrites(s, step) && s.db.share.destroyedAt != Some(s.now))
  {
    hide U.PutStep, D.GetStep, G.AcknowledgeStep, StepReaper;
    match step
    case PutCall(id, o) =>
      if id in s.puts {
        PutIsRefused(s.db, s.now, s.puts[id], o);
      }
    case GetCall(id, o) =>
      if id in s.gets {
        GetKeepsDate(s.db, s.now, s.gets[id], o);
      }
    case AckCall(id, o) =>
      if id in s.acks {
        AckKeepsDate(s.db, s.now, s.acks[id], o);
      }
    case Reap(a) => ReaperKeepsDate(s, a);
    case _ =>
  }

  lemma ReaperKeepsDate(s: Sys, a: ReaperAction)
    requires s.db.share.destroyedAt.Some?
    ensures StepReaper(s, a).db.share.destroyedAt == s.db.share.destroyedAt
  {
    hide ListsRows, Reapable, ClassifyReason;
  }

  lemma GetKeepsDate(db: Db, now: int, g: D.Get, o: Outcome)
    ensures db.share.state == Destroyed ==> D.GetStep(db, now, g, o).0.share == db.share
    ensures Dated(db) ==> Dated(D.GetStep(db, now, g, o).0)
  {
  }

  lemma AckKeepsDate(db: Db, now: int, a: G.Acknowledge, o: Outcome)
    ensures db.share.state == Destroyed ==> G.AcknowledgeStep(db, now, a, o).0.share == db.share
    ensures Dated(db) ==> Dated(G.AcknowledgeStep(db, now, a, o).0)
  {
  }

  lemma RevokeKeepsDated(db: Db, now: int, r: G.Revoke, o: Outcome)
    ensures Dated(db) ==> Dated(G.RevokeStep(db, now, r, o).0)
  {
  }

  lemma ReaperKeepsDated(s: Sys, a: ReaperAction)
    ensures Dated(s.db) ==> Dated(StepReaper(s, a).db)
  {
    hide ListsRows, Reapable, ClassifyReason;
  }

  lemma StepKeepsDated(s: Sys, step: Step)
    requires NoUpload(s) && Dated(s.db)
    ensures Dated(Next(s, step).db)
  {
    hide U.PutStep, D.GetStep, G.AcknowledgeStep, G.RevokeStep, StepReaper, Dated;
    match step
    case PutCall(id, o) =>
      if id in s.puts {
        PutIsRefused(s.db, s.now, s.puts[id], o);
      }
    case GetCall(id, o) =>
      if id in s.gets {
        GetKeepsDate(s.db, s.now, s.gets[id], o);
      }
    case AckCall(id, o) =>
      if id in s.acks {
        AckKeepsDate(s.db, s.now, s.acks[id], o);
      }
    case RevokeCall(id, o) =>
      if id in s.revokes {
        RevokeKeepsDated(s.db, s.now, s.revokes[id], o);
      }
    case Reap(a) => ReaperKeepsDated(s, a);
    case _ =>
  }

  /** No `/destroy` writes on a share destroyed since it read it, as when its read and its write are one step. */
  predicate NoStaleRevoke(s: Sys, run: seq<Step>)
    decreases |run|
  {
    run == [] || (!(RevokeWrites(s, run[0]) && s.db.share.state == Destroyed) && NoStaleRevoke(Next(s, run[0]), run[1..]))
  }

  /** Then `destroyed_at` is written once, at the moment of destruction, and never again. */
  lemma {:induction false} DestroyedAtIsWrittenOnce(s: Sys, run: seq<Step>)
    requires NoUpload(s) && Dated(s.db) && NoStaleRevoke(s, run)
    ensures Dated(Exec(s, run).db)
    ensures s.db.share.destroyedAt.Some? ==> Exec(s, run).db.share.destroyedAt == s.db.share.destroyedAt
    decreases |run|
  {
    hide Next, NoUpload, RevokeWrites;
    if run != [] {
      NoUploadStep(s, run[0]);
      StepKeepsDated(s, run[0]);
      StepIsForward(s, run[0]);
      if s.db.share.state == Destroyed {
        DateChangesOnlyByRevoke(s, run[0]);
      }
      DestroyedAtIsWrittenOnce(Next(s, run[0]), run[1..]);
    }
  }

  /** A `/destroy` that has checked its token writes over whatever it finds, dated when it writes. */
  lemma StaleRevokeMovesTheDate(s: Sys, id: int, d: nat)
    requires id in s.revokes && s.revokes[id].pc == G.UpdateRow
    ensures Exec(s, [Tick(d), RevokeCall(id, Applied)]).db == RevokeUpdate(s.db, s.now + d)
  {
    var run := [Tick(d), RevokeCall(id, Applied)];
    var s1 := Next(s, run[0]);
    var s2 := Next(s1, run[1]);
    assert run[1..][0] == run[1] && run[1..][1..] == [];
    assert Exec(s1, run[1..]) == s2;
  }

  // ---- A failed upsert leaves an orphan, and it stays ----

  /**
   * The orphan a failed upsert leaves is never collected, though the handler's comment expects the reaper to:
   * when the PUT stores its blob and the upsert fails, then once the share takes no more uploads the blob
   * survives every run, the reaper's included.
   */
  lemma LostUpsertIsNeverCollected(s0: Sys, q: U.Request, d: nat, run: seq<Step>)
    requires Created(s0) && U.Accepts(s0.db.share, s0.now, q)
    requires s0.now + d >= s0.db.share.expiresAt
    ensures
      var s := Exec(s0, [NewPut(1, q)] + Calls(1, [Applied, Applied, Lost]) + [Tick(d)]);
      AllFinished(s) && q.index in Exec(s, run).db.blobs && q.index !in Exec(s, run).db.chunks
  {
    hide U.Refusal, U.Nonce, U.Size, U.TokenHash, Next;
    var s1 := StartedAlone(s0, q);
    var o := [Applied, Applied, Lost];
    ExecAppend(s0, [NewPut(1, q)], Calls(1, o));
    SoloRunIsAMachineRun(s1, 1, o);
    ThirdCallLost(s1, q);
    var s2 := Exec(s0, [NewPut(1, q)] + Calls(1, o));
    ExecAppend(s0, [NewPut(1, q)] + Calls(1, o), [Tick(d)]);
    var s := Exec(s2, [Tick(d)]);
    TickOnly(s2, d);
    ReaperNeverPartsBlobFromRow(s, run);
    assert q.index in Orphans(s.db);
  }

  lemma TickOnly(s: Sys, d: nat)
    ensures Exec(s, [Tick(d)]) == s.(now := s.now + d)
  {
    assert [Tick(d)][1..] == [];
    assert Exec(Next(s, Tick(d)), []) == Next(s, Tick(d));
  }

  lemma ThirdCallLost(s: Sys, q: U.Request)
    requires 1 in s.puts && s.puts[1] == U.Put(q, U.ReadShare, false) && U.Accepts(s.db.share, s.now, q)
    ensures U.Run(s.db, s.now, s.puts[1], [Applied, Applied, Lost])
         == (PutBlob(s.db, q.index, q.body), U.Put(q, U.Finished(502), false))
  {
    hide U.Refusal, U.Nonce, U.Size, U.TokenHash;
    var o := [Applied, Applied, Lost];
    U.RunOnce(s.db, s.now, s.puts[1], o);
    var r1 := U.PutStep(s.db, s.now, s.puts[1], o[0]);
    U.RunOnce(r1.0, s.now, r1.1, o[1..]);
    var r2 := U.PutStep(r1.0, s.now, r1.1, o[1..][0]);
    U.RunOnce(r2.0, s.now, r2.1, o[1..][1..]);
  }

  // ---- Why the theorems wait for the uploads to finish ----

  /** A `/destroy` sent with the right token, run alone. */
  function RevokeRun(h: ByteString): (r: seq<Step>)
  {
    [NewRevoke(1, Some(h)), RevokeCall(1, Applied), RevokeCall(1, Applied)]
  }

  lemma RevokeDestroys(s: Sys, h: ByteString)
    requires 1 !in s.revokes && !s.db.share.Terminal() && s.db.share.revokeTokenHash == Some(h)
    ensures
      var s' := Exec(s, RevokeRun(h));
      s'.db == RevokeUpdate(s.db, s.now) && s'.puts == s.puts && s'.now == s.now
  {
    var run := RevokeRun(h);
    var s1 := Next(s, run[0]);
    var s2 := Next(s1, run[1]);
    var s3 := Next(s2, run[2]);
    assert run[1..][0] == run[1] && run[1..][1..][0] == run[2] && run[1..][1..][1..] == [];
    assert Exec(s2, run[1..][1..]) == s3;
  }

  /**
   * With a PUT still in flight `destroyed` is not final: a handler that read the share as pending, stopped
   * before its first write while the upload completed and the sender destroyed the share, writes `uploading`
   * and then `ready` over it, and the destroyed share is served again.
   */
  lemma StalePutReopens(s0: Sys, q: U.Request, h: ByteString)
    requires Created(s0) && s0.db.share.chunkCount == 1 && U.Accepts(s0.db.share, s0.now, q)
    requires s0.db.share.revokeTokenHash == Some(h)
    ensures
      var destroyed := Exec(Exec(s0, FirstPromotion(q)), RevokeRun(h));
      var reopened := Exec(destroyed, Calls(1, AllApplied(5)));
      && destroyed.db.share.state == Destroyed
      && reopened.db.share.state == Ready && reopened.db.share.CanServeDownloads() && reopened.db.share.destroyedAt.Some?
  {
    hide U.Refusal, U.Nonce, U.Size, U.TokenHash, Next, RevokeRun;
    ReadySlipsBack(s0, q);
    var first := Exec(s0, FirstPromotion(q));
    FirstPromotionLeaves(s0, q);
    RevokeDestroys(first, h);
    var destroyed := Exec(first, RevokeRun(h));
    SoloRunIsAMachineRun(destroyed, 1, AllApplied(5));
    StaleHandlerEndsReady(destroyed, q, s0.db.share);
  }
}
