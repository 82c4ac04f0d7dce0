/**
 * What a download does to its share: `increment_download` and `mark_chunk_served` (db/migrations) case by case, the
 * answers of `/downloaded`, and what they add up to over every run.
 */
module DownloadCounts {
  import opened Wrappers
  import opened Bytes
  import opened ShareModel
  import opened ShareStore
  import opened ShareSystem
  import opened UploadProofs
  import opened LifecycleProofs
  import opened BurnProofs
  import U = UploadEndpoint
  import D = DownloadEndpoint
  import G = GatewayShares

  // ---- One call ----

  /** The share can be downloaded at this moment. */
  predicate Available(share: ShareRow, now: int)
  {
    (share.state == Ready || share.state == Downloaded) && now < share.expiresAt
  }

  /** `share` after being burnt by a download at `now`. */
  predicate IsBurnt(share: ShareRow, now: int, share': ShareRow)
  {
    && share'.state == Destroyed && share'.destroyedAt == Some(now) && share'.destroyedReason == Some(Burn)
    && share'.downloadCount == share.downloadCount + 1
  }

  /** `share` after a download that is only counted: expired exactly when that was the last one, and not destroyed. */
  predicate IsCounted(share: ShareRow, share': ShareRow)
  {
    && share'.downloadCount == share.downloadCount + 1
    && share'.destroyedAt == share.destroyedAt && share'.destroyedReason == share.destroyedReason
    && (share.maxDownloads != None && share'.downloadCount >= share.maxDownloads.value ==> share'.state == Expired)
    && (share.maxDownloads == None || share'.downloadCount < share.maxDownloads.value ==> share'.state == share.state)
  }

  /** `increment_download` raises exactly on a share not available, burns a burn share and counts on any other. */
  lemma IncrementBurnsOrCounts(db: Db, now: int)
    ensures IncrementDownload(db, now) == None <==> !Available(db.share, now)
    ensures Available(db.share, now) ==>
      var db' := IncrementDownload(db, now).value;
      && (if db.share.burnAfterRead then IsBurnt(db.share, now, db'.share) else IsCounted(db.share, db'.share))
      && db'.chunks == db.chunks && db'.blobs == db.blobs && db'.audit == db.audit
  {
  }

  /** `row` after one more serving: the first stamp is kept, every serving counted, nothing else touched. */
  predicate IsStamped(row: ChunkRow, now: int, row': ChunkRow)
  {
    && row'.servedCount == row.servedCount + 1
    && row'.servedAt == (if row.servedAt == None then Some(now) else row.servedAt)
    && row'.nonce == row.nonce && row'.ciphertextSize == row.ciphertextSize
    && row'.uploadedAt == row.uploadedAt && row'.downloadTokenHash == row.downloadTokenHash
  }

  /** `mark_chunk_served` on a stored chunk: it burns a ready burn share with its last unserved chunk, and else only stamps. */
  lemma MarkBurnsOrStamps(db: Db, i: int, now: int)
    requires i in db.chunks
    ensures
      var (db', r) := MarkChunkServed(db, i, now);
      && db'.chunks.Keys == db.chunks.Keys && db'.blobs == db.blobs
      && IsStamped(db.chunks[i], now, db'.chunks[i])
      && (forall k :: k in db.chunks && k != i ==> db'.chunks[k] == db.chunks[k])
      && (r.burnFired <==>
            && db.share.burnAfterRead && db.share.state == Ready
            && forall k :: k in db.chunks && k != i ==> db.chunks[k].servedAt != None)
      && (r.burnFired ==>
            && IsBurnt(db.share, now, db'.share)
            && db'.audit == db.audit + [ShareDestroyed(IngestLastChunk, Burn, Some(db.share.chunkCount))])
      && (!r.burnFired ==> db'.share == db.share && db'.audit == db.audit)
      && r.state == db'.share.state
  {
    var stamped := StampServed(db, i, now);
    if forall k :: k in db.chunks && k != i ==> db.chunks[k].servedAt != None {
      assert Unserved(stamped) == {};
    } else {
      var k :| k in db.chunks && k != i && db.chunks[k].servedAt == None;
      assert k in Unserved(stamped);
    }
  }

  // ---- One undisturbed /downloaded ----

  /** The three calls of a `/downloaded`, all answered: the rows and the handler. */
  function Undisturbed(db: Db, now: int): (r: (Db, G.Acknowledge))
  {
    var (db1, a1) := G.AcknowledgeStep(db, now, G.Acknowledge(G.ReadState, false), Applied);
    var (db2, a2) := G.AcknowledgeStep(db1, now, a1, Applied);
    G.AcknowledgeStep(db2, now, a2, Applied)
  }

  /**
   * What an undisturbed `/downloaded` does: a share that is gone already is reported as it stands, one not available
   * as destroyed, both untouched; a burn share is burnt now, recorded and reported so; any other is counted, recorded
   * and reported with the state it is left in.
   */
  lemma DownloadedAnswers(db: Db, now: int)
    ensures
      var (db', a) := Undisturbed(db, now);
      if db.share.state == Destroyed || db.share.state == Expired then
        db' == db && a == G.Acknowledge(G.Answered(200, Some(db.share.state)), false)
      else if !Available(db.share, now) then
        db' == db && a == G.Acknowledge(G.Answered(200, Some(Destroyed)), false)
      else
        && a.pc == G.Answered(200, Some(db'.share.state))
        && a.sawBurn == db.share.burnAfterRead
        && db'.chunks == db.chunks && db'.blobs == db.blobs
        && (if db.share.burnAfterRead then IsBurnt(db.share, now, db'.share) else IsCounted(db.share, db'.share))
        && db'.audit == db.audit + [if db.share.burnAfterRead then ShareDestroyed(GatewayDownloaded, Burn, None) else ShareDownloaded]
  {
  }

  // ---- What never changes ----

  /** No step of anybody changes how a share was created. */
  lemma LimitsNeverChange(s: Sys, step: Step)
    ensures
      var (a, b) := (s.db.share, Next(s, step).db.share);
      b.burnAfterRead == a.burnAfterRead && b.maxDownloads == a.maxDownloads
  {
    hide U.PutStep, D.GetStep, G.AcknowledgeStep, G.RevokeStep, StepReaper, Advance;
    var db' := Next(s, step).db;
    match step
    case PutCall(id, o) => if id in s.puts { PutKeepsLimits(s.db, s.now, s.puts[id], o); }
    case GetCall(id, o) =>
      if id in s.gets {
        GetAdvances(s.db, s.now, s.gets[id], o);
        AdvanceKeepsLimits(s.db, db');
      }
    case AckCall(id, o) =>
      if id in s.acks {
        AckAdvances(s.db, s.now, s.acks[id], o);
        AdvanceKeepsLimits(s.db, db');
      }
    case RevokeCall(id, o) =>
      if id in s.revokes {
        RevokeAdvances(s.db, s.now, s.revokes[id], o);
        AdvanceKeepsLimits(s.db, db');
      }
    case Reap(a) => ReaperOnlyDestroys(s, a);
    case _ =>
  }

  lemma PutKeepsLimits(db: Db, now: int, p: U.Put, o: Outcome)
    ensures
      var db' := U.PutStep(db, now, p, o).0;
      db'.share.burnAfterRead == db.share.burnAfterRead && db'.share.maxDownloads == db.share.maxDownloads
  {
  }

  lemma AdvanceKeepsLimits(db: Db, db': Db)
    requires Advance(db, db')
    ensures db'.share.burnAfterRead == db.share.burnAfterRead && db'.share.maxDownloads == db.share.maxDownloads
  {
  }

  lemma ReaperOnlyDestroys(s: Sys, a: ReaperAction)
    ensures
      var s' := StepReaper(s, a);
      && s'.acks == s.acks && s'.db.share.downloadCount == s.db.share.downloadCount
      && s'.db.share.burnAfterRead == s.db.share.burnAfterRead && s'.db.share.maxDownloads == s.db.share.maxDownloads
      && (s'.db.share.state == s.db.share.state || s'.db.share.state == Destroyed)
  {
    hide ListsRows, Reapable, ClassifyReason;
  }

  // ---- Burn shares, over every run ----

  /** Whoever got past `increment_download` has seen the burn, and nobody is told the share is still there. */
  ghost predicate EveryDownloadBurns(acks: map<int, G.Acknowledge>)
  {
    forall id :: id in acks ==>
      && (acks[id].pc.RecordAudit? ==> acks[id].sawBurn && acks[id].pc.state == Destroyed)
      && (acks[id].pc.Answered? && acks[id].pc.reported != None ==> acks[id].pc.reported.value in {Destroyed, Expired})
  }

  lemma AcknowledgeSeesTheBurn(db: Db, now: int, a: G.Acknowledge, o: Outcome)
    requires db.share.burnAfterRead && EveryDownloadBurns(map[0 := a])
    ensures
      var (db', a') := G.AcknowledgeStep(db, now, a, o);
      && EveryDownloadBurns(map[0 := a'])
      && (a'.pc.RecordAudit? ==> IsBurnt(db.share, now, db'.share))
  {
    assert (map[0 := a])[0] == a;
  }

  lemma DownloadBurnsStep(s: Sys, step: Step)
    requires s.db.share.burnAfterRead && EveryDownloadBurns(s.acks)
    ensures Next(s, step).db.share.burnAfterRead && EveryDownloadBurns(Next(s, step).acks)
  {
    LimitsNeverChange(s, step);
    hide U.PutStep, D.GetStep, G.AcknowledgeStep, G.RevokeStep, StepReaper;
    match step
    case AckCall(id, o) =>
      if id in s.acks {
        var a := s.acks[id];
        AcknowledgeSeesTheBurn(s.db, s.now, a, o);
        assert (map[0 := G.AcknowledgeStep(s.db, s.now, a, o).1])[0] == Next(s, step).acks[id];
      }
    case Reap(a) => ReaperOnlyDestroys(s, a);
    case _ =>
  }

  /**
   * Every download of a burn share burns it, over every run of anybody: a `/downloaded` past its RPC has seen the
   * burn, and no caller is ever told that the share is still there.
   */
  lemma {:induction false} EveryDownloadOfABurnShareBurns(s: Sys, run: seq<Step>)
    requires s.db.share.burnAfterRead && EveryDownloadBurns(s.acks)
    ensures Exec(s, run).db.share.burnAfterRead && EveryDownloadBurns(Exec(s, run).acks)
    decreases |run|
  {
    hide Next, EveryDownloadBurns;
    if run != [] {
      DownloadBurnsStep(s, run[0]);
      EveryDownloadOfABurnShareBurns(Next(s, run[0]), run[1..]);
    }
  }

  // ---- Capped shares, over every run ----

  /** Told, or about to be, that the share is still there. */
  predicate IsTold(a: G.Acknowledge)
  {
    a.pc == G.RecordAudit(Ready) || a.pc == G.Answered(200, Some(Ready))
  }

  /** The callers told so. */
  function Told(acks: map<int, G.Acknowledge>): (r: set<int>)
  {
    set id | id in acks && IsTold(acks[id])
  }

  /** The callers on their way to record a download. */
  function Recording(acks: map<int, G.Acknowledge>): (r: set<int>)
  {
    set id | id in acks && acks[id].pc.RecordAudit?
  }

  function DownloadEntries(audit: seq<AuditEntry>): (n: nat)
  {
    if audit == [] then 0 else DownloadEntries(audit[..|audit| - 1]) + if audit[|audit| - 1].ShareDownloaded? then 1 else 0
  }

  /** The count is below the cap while the share is ready and never above it. */
  predicate WithinCap(share: ShareRow, max: int)
  {
    && !share.burnAfterRead && share.maxDownloads == Some(max)
    && 0 <= share.downloadCount <= max && (share.state == Ready ==> share.downloadCount < max)
    && share.state in {Ready, Expired, Destroyed}
  }

  /** Everybody told, and everybody who recorded or is about to, was counted. */
  ghost predicate AllCounted(s: Sys)
  {
    && |Told(s.acks)| <= s.db.share.downloadCount
    && DownloadEntries(s.db.audit) + |Recording(s.acks)| <= s.db.share.downloadCount
  }

  lemma AcknowledgeKeepsCap(db: Db, now: int, a: G.Acknowledge, o: Outcome, max: int)
    requires WithinCap(db.share, max) && !a.sawBurn
    ensures
      var (db', a') := G.AcknowledgeStep(db, now, a, o);
      && WithinCap(db'.share, max) && !a'.sawBurn
      && (a'.pc.RecordAudit? ==> a.pc.CallRpc? && db'.share.downloadCount == db.share.downloadCount + 1 && db'.audit == db.audit)
      && db'.share.downloadCount >= db.share.downloadCount
      && (IsTold(a') ==> IsTold(a) || a'.pc.RecordAudit?)
      && (a.pc.RecordAudit? ==> !a'.pc.RecordAudit? && (db'.audit == db.audit || db'.audit == db.audit + [ShareDownloaded]))
      && (!a.pc.RecordAudit? ==> db'.audit == db.audit)
  {
  }

  /** Putting one handler back changes each set by at most that handler. */
  lemma OneHandlerChanges(acks: map<int, G.Acknowledge>, id: int, a: G.Acknowledge)
    requires id in acks
    ensures
      var acks' := acks[id := a];
      && |Told(acks')| <= |Told(acks)| + 1
      && (!IsTold(a) || IsTold(acks[id]) ==> |Told(acks')| <= |Told(acks)|)
      && |Recording(acks')| + (if acks[id].pc.RecordAudit? then 1 else 0) == |Recording(acks)| + (if a.pc.RecordAudit? then 1 else 0)
  {
    var acks' := acks[id := a];
    assert Told(acks') - {id} == Told(acks) - {id};
    assert Recording(acks') - {id} == Recording(acks) - {id};
    WithoutOne(Told(acks), id);
    WithoutOne(Told(acks'), id);
    WithoutOne(Recording(acks), id);
    WithoutOne(Recording(acks'), id);
  }

  lemma WithoutOne(s: set<int>, x: int)
    ensures |s| == |s - {x}| + if x in s then 1 else 0
  {
    if x in s {
      assert s == (s - {x}) + {x};
    } else {
      assert s - {x} == s;
    }
  }

  lemma Recorded(audit: seq<AuditEntry>, e: AuditEntry)
    ensures DownloadEntries(audit + [e]) == DownloadEntries(audit) + if e.ShareDownloaded? then 1 else 0
  {
    assert (audit + [e])[..|audit|] == audit;
  }

  ghost predicate Capped(s: Sys, max: int)
  {
    && NoUpload(s) && WithinCap(s.db.share, max) && AllCounted(s)
    && forall id :: id in s.acks ==> !s.acks[id].sawBurn
  }

  lemma AckKeepsCapped(s: Sys, id: int, o: Outcome, max: int)
    requires Capped(s, max) && id in s.acks
    ensures
      var s' := StepAck(s, id, o);
      && WithinCap(s'.db.share, max) && AllCounted(s')
      && forall k :: k in s'.acks ==> !s'.acks[k].sawBurn
  {
    hide NoUpload, G.AcknowledgeStep, Told, Recording, DownloadEntries, WithinCap;
    var a := s.acks[id];
    var s' := StepAck(s, id, o);
    AcknowledgeKeepsCap(s.db, s.now, a, o, max);
    OneHandlerChanges(s.acks, id, s'.acks[id]);
    Recorded(s.db.audit, ShareDownloaded);
  }

  /** What the others do to a share that is not burn-after-read: not counted, not recorded, not made ready. */
  lemma OthersCountNothing(db: Db, now: int, o: Outcome, g: D.Get, v: G.Revoke, max: int)
    requires WithinCap(db.share, max)
    ensures WithinCap(D.GetStep(db, now, g, o).0.share, max) && WithinCap(G.RevokeStep(db, now, v, o).0.share, max)
    ensures D.GetStep(db, now, g, o).0.audit == db.audit
    ensures D.GetStep(db, now, g, o).0.share.downloadCount == db.share.downloadCount
    ensures G.RevokeStep(db, now, v, o).0.share.downloadCount == db.share.downloadCount
    ensures
      var audit := G.RevokeStep(db, now, v, o).0.audit;
      audit == db.audit || audit == db.audit + [ShareDestroyed(SenderRevoke, Manual, None)]
  {
    hide D.ChunkRefusal, Unserved;
  }

  lemma ReaperCountsNothing(s: Sys, a: ReaperAction, max: int)
    requires WithinCap(s.db.share, max)
    ensures
      var s' := StepReaper(s, a);
      && WithinCap(s'.db.share, max) && s'.acks == s.acks
      && s'.db.share.downloadCount == s.db.share.downloadCount
      && DownloadEntries(s'.db.audit) == DownloadEntries(s.db.audit)
  {
    hide ListsRows, Reapable, ClassifyReason, DownloadEntries;
    var n := if s.reaper.Finalizing? then s.reaper.chunkCount else 0;
    Recorded(s.db.audit, ShareDestroyed(Reaper, ClassifyReason(s.db.share), Some(n)));
  }

  lemma CappedStep(s: Sys, step: Step, max: int)
    requires Capped(s, max)
    ensures Capped(Next(s, step), max)
  {
    NoUploadStep(s, step);
    hide NoUpload, U.PutStep, D.GetStep, G.AcknowledgeStep, G.RevokeStep, StepReaper, WithinCap, DownloadEntries, Recording, Told;
    Recorded(s.db.audit, ShareDestroyed(SenderRevoke, Manual, None));
    match step
    case PutCall(id, o) => PutCountsNothing(s, id, o);
    case GetCall(id, o) => if id in s.gets { OthersCountNothing(s.db, s.now, o, s.gets[id], G.Revoke(None, G.ReadRow), max); }
    case AckCall(id, o) => if id in s.acks { AckKeepsCapped(s, id, o, max); }
    case RevokeCall(id, o) =>
      if id in s.revokes {
        OthersCountNothing(s.db, s.now, o, D.Get(0, None, D.ReadShare, false, false), s.revokes[id], max);
      }
    case NewAck(id) => if id !in s.acks { NewIsNotCounted(s.acks, id); }
    case Reap(a) => ReaperCountsNothing(s, a, max);
    case _ =>
  }

  lemma PutCountsNothing(s: Sys, id: int, o: Outcome)
    requires NoUpload(s)
    ensures StepPut(s, id, o).db == s.db
  {
    if id in s.puts {
      PutIsRefused(s.db, s.now, s.puts[id], o);
    }
  }

  lemma NewIsNotCounted(acks: map<int, G.Acknowledge>, id: int)
    requires id !in acks
    ensures
      var acks' := acks[id := G.Acknowledge(G.ReadState, false)];
      Told(acks') == Told(acks) && Recording(acks') == Recording(acks)
  {
  }

  lemma {:induction false} CappedRun(s: Sys, run: seq<Step>, max: int)
    requires Capped(s, max)
    ensures Capped(Exec(s, run), max)
    decreases |run|
  {
    hide Next, Capped;
    if run != [] {
      CappedStep(s, run[0], max);
      CappedRun(Next(s, run[0]), run[1..], max);
    }
  }

  /** An upload leaves a share uncounted. */
  lemma UploadedIsCapped(s: Sys, max: int)
    requires Uploaded(s) && !s.db.share.burnAfterRead && s.db.share.maxDownloads == Some(max) && max > 0
    ensures Capped(s, max)
  {
    var s0: Sys, u: seq<Step> :| Created(s0) && IsUploadRun(u) && s == Exec(s0, u) && AllFinished(s) && s.db.share.state == Ready;
    hide Exec, UploadInv, PromotionPending;
    CreatedIsUploadInv(s0);
    UploadRunKeepsShape(s0, u);
    UploadRunStartsNobody(s0, u);
    assert UploadInv(s) by { UploadRunKeeps(s0, u); }
    assert Told(s.acks) == {} && Recording(s.acks) == {};
    assert s.db.audit == [] by { NothingRecorded(s); }
  }

  lemma NothingRecorded(s: Sys)
    requires UploadInv(s)
    ensures s.db.audit == []
  {
  }

  lemma {:induction false} UploadRunStartsNobody(s: Sys, run: seq<Step>)
    requires IsUploadRun(run) && s.acks == map[]
    ensures Exec(s, run).acks == map[]
    decreases |run|
  {
    if run != [] {
      UploadRunStartsNobody(Next(s, run[0]), run[1..]);
    }
  }

  /**
   * A cap is kept, over every interleaving with any failure: a share created with a cap and without burn-after-read is
   * ready only below it and never above it; no more callers are told that it is still there, and no more downloads are
   * recorded, than were counted.
   */
  lemma CapIsKept(s0: Sys, run: seq<Step>, max: int)
    requires Uploaded(s0) && !s0.db.share.burnAfterRead && s0.db.share.maxDownloads == Some(max) && max > 0
    ensures
      var s := Exec(s0, run);
      && s.db.share.downloadCount <= max && (s.db.share.state == Ready ==> s.db.share.downloadCount < max)
      && |Told(s.acks)| <= s.db.share.downloadCount
      && DownloadEntries(s.db.audit) <= s.db.share.downloadCount
  {
    UploadedIsCapped(s0, max);
    hide Exec, Uploaded;
    CappedRun(s0, run, max);
  }
}
