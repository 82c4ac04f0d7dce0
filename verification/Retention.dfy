/**
 * What the owner of a share is promised about its end: which shares the sweep must take up, over every run, and what
 * reason is left on them.
 */
module Retention {
  import opened Wrappers
  import opened Bytes
  import opened ShareModel
  import opened ShareStore
  import opened ShareSystem
  import opened UploadProofs
  import opened LifecycleProofs
  import opened FinalityConditions
  import opened BurnProofs
  import U = UploadEndpoint
  import D = DownloadEndpoint
  import G = GatewayShares

  // ---- What is due ----

  /** The share was burnt, revoked or used up, or it is past its date or at its cap: nothing of it may stay. */
  predicate Due(db: Db, now: int)
  {
    || db.share.state == Destroyed || db.share.state == Expired
    || db.share.expiresAt < now
    || (db.share.maxDownloads.Some? && db.share.maxDownloads.value <= db.share.downloadCount)
  }

  /** Something is left of it: chunk rows, or a share that still looks alive. */
  predicate IsLeft(db: Db)
  {
    db.chunks.Keys != {} || !(db.share.state == Destroyed || db.share.state == Expired)
  }

  /** What every run keeps of the row: destroyed means dated, and nothing ever writes the state `downloaded`. */
  predicate WellKept(db: Db)
  {
    (db.share.state == Destroyed ==> db.share.destroyedAt != None) && db.share.state != Downloaded
  }

  /** The candidate query finds exactly what is due and left. */
  lemma CandidateExactly(db: Db, now: int)
    requires WellKept(db)
    ensures Reapable(db, now) <==> Due(db, now) && IsLeft(db)
  {
    assert db.chunks == map[] <==> db.chunks.Keys == {};
  }

  lemma DueStays(db: Db, now: int, later: int)
    requires Due(db, now) && now <= later
    ensures Due(db, later)
  {
  }

  // ---- Every run ----

  predicate NeverDownloaded(db: Db)
  {
    db.share.state != Downloaded
  }

  lemma CallsWriteNoDownloaded(db: Db, now: int, o: Outcome, p: U.Put, g: D.Get, a: G.Acknowledge, v: G.Revoke)
    requires NeverDownloaded(db)
    ensures NeverDownloaded(U.PutStep(db, now, p, o).0)
    ensures NeverDownloaded(D.GetStep(db, now, g, o).0)
    ensures NeverDownloaded(G.AcknowledgeStep(db, now, a, o).0)
    ensures NeverDownloaded(G.RevokeStep(db, now, v, o).0)
  {
    hide U.Refusal, U.Nonce, U.Size, U.TokenHash, U.IsWhole, D.ChunkRefusal, Unserved;
  }

  lemma StepWritesNoDownloaded(s: Sys, step: Step)
    requires NeverDownloaded(s.db)
    ensures NeverDownloaded(Next(s, step).db)
  {
    hide U.PutStep, D.GetStep, G.AcknowledgeStep, G.RevokeStep, ListsRows, Reapable, ClassifyReason;
    var p := if step.PutCall? && step.id in s.puts then s.puts[step.id] else U.Put(U.Request(0, None, None, None, []), U.MarkReady, false);
    var g := if step.GetCall? && step.id in s.gets then s.gets[step.id] else D.Get(0, None, D.ReadShare, false, false);
    var a := if step.AckCall? && step.id in s.acks then s.acks[step.id] else G.Acknowledge(G.ReadState, false);
    var v := if step.RevokeCall? && step.id in s.revokes then s.revokes[step.id] else G.Revoke(None, G.ReadRow);
    match step
    case PutCall(_, o) => CallsWriteNoDownloaded(s.db, s.now, o, p, g, a, v);
    case GetCall(_, o) => CallsWriteNoDownloaded(s.db, s.now, o, p, g, a, v);
    case AckCall(_, o) => CallsWriteNoDownloaded(s.db, s.now, o, p, g, a, v);
    case RevokeCall(_, o) => CallsWriteNoDownloaded(s.db, s.now, o, p, g, a, v);
    case _ =>
  }

  lemma {:induction false} RunWritesNoDownloaded(s: Sys, run: seq<Step>)
    requires NeverDownloaded(s.db)
    ensures NeverDownloaded(Exec(s, run).db)
    decreases |run|
  {
    hide Next, NeverDownloaded;
    if run != [] {
      StepWritesNoDownloaded(s, run[0]);
      RunWritesNoDownloaded(Next(s, run[0]), run[1..]);
    }
  }

  lemma EveryRunKeepsWell(s0: Sys, run: seq<Step>)
    requires Created(s0)
    ensures WellKept(Exec(s0, run).db)
  {
    hide Exec;
    RunKeepsDestroyedDated(s0, run);
    RunWritesNoDownloaded(s0, run);
  }

  /**
   * Nothing due escapes the sweep: in every state any run of anybody reaches from creation, a burnt, revoked, used-up
   * or outdated share of which rows are left is a candidate now and at every later time, and a live share inside both
   * its limits is none.
   */
  lemma DueIsSwept(s0: Sys, run: seq<Step>, later: int)
    requires Created(s0) && Exec(s0, run).now <= later
    ensures
      var s := Exec(s0, run);
      && (Due(s.db, s.now) && s.db.chunks != map[] ==> Reapable(s.db, s.now) && Reapable(s.db, later))
      && (Due(s.db, s.now) && !s.db.share.Terminal() ==> Reapable(s.db, s.now) && Reapable(s.db, later))
      && (!Due(s.db, later) ==> !Reapable(s.db, later))
  {
    hide Exec, Reapable, Due;
    var s := Exec(s0, run);
    EveryRunKeepsWell(s0, run);
    CandidateExactly(s.db, s.now);
    CandidateExactly(s.db, later);
    if Due(s.db, s.now) {
      DueStays(s.db, s.now, later);
    }
  }

  // ---- The reason that is left ----

  /** The reason on the row and in the entry of a finalised share: one of three, by what the share had come to. */
  lemma FinalReason(db: Db, now: int, n: int)
    requires WellKept(db)
    ensures
      var db' := FinalizeDestroy(db, now, n);
      var capReached := db.share.maxDownloads != None && db.share.maxDownloads.value <= db.share.downloadCount;
      && (db'.share.destroyedReason == Some(Burn) <==> db.share.burnAfterRead && db.share.state == Destroyed)
      && (db'.share.destroyedReason == Some(MaxDownloads) <==> !(db.share.burnAfterRead && db.share.state == Destroyed) && capReached)
      && (db'.share.destroyedReason == Some(Expiry) <==> !(db.share.burnAfterRead && db.share.state == Destroyed) && !capReached)
      && db'.share.destroyedReason != None
      && db'.audit == db.audit + [ShareDestroyed(ShareModel.Reaper, db'.share.destroyedReason.value, Some(n))]
  {
  }

  /** While rows are there, a destroyed share was burnt, being a burn share, or revoked. */
  predicate BurntOrRevoked(db: Db)
  {
    db.share.state == Destroyed && db.chunks != map[] ==>
      (db.share.destroyedReason == Some(Burn) && db.share.burnAfterRead) || db.share.destroyedReason == Some(Manual)
  }

  lemma CallsBurnOrRevoke(db: Db, now: int, o: Outcome, g: D.Get, a: G.Acknowledge, v: G.Revoke)
    requires BurntOrRevoked(db)
    ensures BurntOrRevoked(D.GetStep(db, now, g, o).0)
    ensures BurntOrRevoked(G.AcknowledgeStep(db, now, a, o).0)
    ensures BurntOrRevoked(G.RevokeStep(db, now, v, o).0)
  {
    hide D.ChunkRefusal, Unserved;
  }

  lemma ReaperBurnsOrRevokes(s: Sys, a: ReaperAction)
    requires BurntOrRevoked(s.db)
    ensures BurntOrRevoked(StepReaper(s, a).db)
  {
    hide ListsRows, Reapable, ClassifyReason;
  }

  lemma StepBurnsOrRevokes(s: Sys, step: Step)
    requires NoUpload(s) && BurntOrRevoked(s.db)
    ensures BurntOrRevoked(Next(s, step).db)
  {
    hide U.PutStep, D.GetStep, G.AcknowledgeStep, G.RevokeStep, StepReaper, BurntOrRevoked;
    var g := if step.GetCall? && step.id in s.gets then s.gets[step.id] else D.Get(0, None, D.ReadShare, false, false);
    var a := if step.AckCall? && step.id in s.acks then s.acks[step.id] else G.Acknowledge(G.ReadState, false);
    var v := if step.RevokeCall? && step.id in s.revokes then s.revokes[step.id] else G.Revoke(None, G.ReadRow);
    match step
    case PutCall(id, o) => if id in s.puts { PutIsRefused(s.db, s.now, s.puts[id], o); }
    case GetCall(_, o) => CallsBurnOrRevoke(s.db, s.now, o, g, a, v);
    case AckCall(_, o) => CallsBurnOrRevoke(s.db, s.now, o, g, a, v);
    case RevokeCall(_, o) => CallsBurnOrRevoke(s.db, s.now, o, g, a, v);
    case Reap(action) => ReaperBurnsOrRevokes(s, action);
    case _ =>
  }

  lemma {:induction false} RunBurnsOrRevokes(s: Sys, run: seq<Step>)
    requires NoUpload(s) && BurntOrRevoked(s.db)
    ensures BurntOrRevoked(Exec(s, run).db)
    decreases |run|
  {
    hide Next, NoUpload, BurntOrRevoked;
    if run != [] {
      StepBurnsOrRevokes(s, run[0]);
      NoUploadStep(s, run[0]);
      RunBurnsOrRevokes(Next(s, run[0]), run[1..]);
    }
  }

  lemma UploadedIsLive(s: Sys)
    requires Uploaded(s)
    ensures NoUpload(s) && s.db.share.state == Ready
  {
    assert Exec(s, []) == s;
    hide Exec;
    UploadedServes(s, []);
  }

  /**
   * The reaper keeps the reason on record exactly when that reason is a burn: over every run after an upload, what a
   * destroyed share with rows was destroyed for stays through its finalisation if and only if it was burnt. A
   * revocation is always overwritten.
   */
  lemma ReasonIsKeptExactlyForBurns(s0: Sys, run: seq<Step>, n: int)
    requires Uploaded(s0) && Exec(s0, run).db.share.state == Destroyed && Exec(s0, run).db.chunks != map[]
    ensures
      var s := Exec(s0, run);
      FinalizeDestroy(s.db, s.now, n).share.destroyedReason == s.db.share.destroyedReason <==> s.db.share.destroyedReason == Some(Burn)
  {
    UploadedIsLive(s0);
    RunBurnsOrRevokes(s0, run);
    RunIsDated(s0, run);
    hide Exec, Uploaded;
  }

  lemma RunIsDated(s0: Sys, run: seq<Step>)
    requires s0.db.share.state == Ready
    ensures DestroyedIsDated(Exec(s0, run).db)
  {
    hide Exec;
    RunKeepsDestroyedDated(s0, run);
  }
}
