/**
 * Who gets a chunk, and who may destroy a share: the two token gates, over every run and for every undisturbed
 * request.
 */
module AccessGates {
  import opened Wrappers
  import opened Bytes
  import opened Framing
  import opened ShareModel
  import opened ShareStore
  import opened ShareSystem
  import opened UploadProofs
  import opened LifecycleProofs
  import U = UploadEndpoint
  import D = DownloadEndpoint
  import G = GatewayShares

  // ---- What a row was uploaded with stays with it ----

  /** Rows may go; a row that stays keeps its nonce, its size and its commitment. */
  ghost predicate KeepsData(db: Db, db': Db)
  {
    forall i :: i in db'.chunks ==>
      && i in db.chunks && db'.chunks[i].nonce == db.chunks[i].nonce
      && db'.chunks[i].ciphertextSize == db.chunks[i].ciphertextSize
      && db'.chunks[i].downloadTokenHash == db.chunks[i].downloadTokenHash
  }

  lemma CallsKeepData(db: Db, now: int, o: Outcome, g: D.Get, a: G.Acknowledge, v: G.Revoke)
    ensures KeepsData(db, D.GetStep(db, now, g, o).0)
    ensures KeepsData(db, G.AcknowledgeStep(db, now, a, o).0)
    ensures KeepsData(db, G.RevokeStep(db, now, v, o).0)
  {
    hide D.GetStep, G.AcknowledgeStep, G.RevokeStep, KeepsData;
    GetKeepsData(db, now, g, o);
    SameRowsKeepData(db, G.AcknowledgeStep(db, now, a, o).0) by { AckKeepsChunks(db, now, a, o); }
    SameRowsKeepData(db, G.RevokeStep(db, now, v, o).0) by { RevokeKeepsChunks(db, now, v, o); }
  }

  lemma GetKeepsData(db: Db, now: int, g: D.Get, o: Outcome)
    ensures KeepsData(db, D.GetStep(db, now, g, o).0)
  {
    hide D.ChunkRefusal, Unserved;
  }

  lemma AckKeepsChunks(db: Db, now: int, a: G.Acknowledge, o: Outcome)
    ensures G.AcknowledgeStep(db, now, a, o).0.chunks == db.chunks
  {
  }

  lemma RevokeKeepsChunks(db: Db, now: int, v: G.Revoke, o: Outcome)
    ensures G.RevokeStep(db, now, v, o).0.chunks == db.chunks
  {
  }

  lemma SameRowsKeepData(db: Db, db': Db)
    requires db'.chunks == db.chunks
    ensures KeepsData(db, db')
  {
  }

  lemma ReaperKeepsData(s: Sys, a: ReaperAction)
    ensures KeepsData(s.db, StepReaper(s, a).db)
  {
    hide KeepsData;
    ReaperKeepsOrDropsRows(s, a);
    if StepReaper(s, a).db.chunks == s.db.chunks {
      SameRowsKeepData(s.db, StepReaper(s, a).db);
    } else {
      NoRowsKeepData(s.db, StepReaper(s, a).db);
    }
  }

  lemma NoRowsKeepData(db: Db, db': Db)
    requires db'.chunks == map[]
    ensures KeepsData(db, db')
  {
  }

  lemma ReaperKeepsOrDropsRows(s: Sys, a: ReaperAction)
    ensures StepReaper(s, a).db.chunks == s.db.chunks || StepReaper(s, a).db.chunks == map[]
    ensures StepReaper(s, a).puts == s.puts
  {
    hide ListsRows, Reapable, ClassifyReason;
  }

  /** With no upload in flight no step changes what a row was uploaded with. */
  lemma StepKeepsData(s: Sys, step: Step)
    requires NoUpload(s)
    ensures KeepsData(s.db, Next(s, step).db)
  {
    hide U.PutStep, D.GetStep, G.AcknowledgeStep, G.RevokeStep, StepReaper, KeepsData;
    SameRowsKeepData(s.db, s.db);
    var g := if step.GetCall? && step.id in s.gets then s.gets[step.id] else D.Get(0, None, D.ReadShare, false, false);
    var a := if step.AckCall? && step.id in s.acks then s.acks[step.id] else G.Acknowledge(G.ReadState, false);
    var v := if step.RevokeCall? && step.id in s.revokes then s.revokes[step.id] else G.Revoke(None, G.ReadRow);
    match step
    case PutCall(id, o) =>
      if id in s.puts {
        PutIsRefused(s.db, s.now, s.puts[id], o);
      }
    case GetCall(_, o) => CallsKeepData(s.db, s.now, o, g, a, v);
    case AckCall(_, o) => CallsKeepData(s.db, s.now, o, g, a, v);
    case RevokeCall(_, o) => CallsKeepData(s.db, s.now, o, g, a, v);
    case Reap(action) => ReaperKeepsData(s, action);
    case _ =>
  }

  // ---- Chunks, over every run ----

  /** The chunk was uploaded without a commitment, or the handler's token hashes to it. */
  predicate HasTheToken(db: Db, g: D.Get)
  {
    g.index in db.chunks && (db.chunks[g.index].downloadTokenHash.None? || db.chunks[g.index].downloadTokenHash == g.tokenHash)
  }

  /** Past its chunk read, with or without a byte sent. */
  predicate PastTheGate(g: D.Get)
  {
    g.pc.Stream? || g.pc.Mark? || g.sent
  }

  ghost predicate GateHolds(s: Sys, db0: Db)
  {
    KeepsData(db0, s.db) && forall id :: id in s.gets && PastTheGate(s.gets[id]) ==> HasTheToken(db0, s.gets[id])
  }

  /** One call of a GET: it comes past the gate only with the token of the row it reads. */
  lemma GetPassesWithItsToken(db: Db, now: int, g: D.Get, o: Outcome)
    ensures
      var g' := D.GetStep(db, now, g, o).1;
      && g'.index == g.index && g'.tokenHash == g.tokenHash
      && (PastTheGate(g') && !PastTheGate(g) ==> g.pc.ReadChunk? && HasTheToken(db, g))
  {
  }

  lemma KeepsDataTransitive(a: Db, b: Db, c: Db)
    requires KeepsData(a, b) && KeepsData(b, c)
    ensures KeepsData(a, c)
  {
  }

  lemma TokenOfTheFirstRow(db0: Db, db: Db, g: D.Get)
    requires KeepsData(db0, db) && HasTheToken(db, g)
    ensures HasTheToken(db0, g)
  {
  }

  lemma GateStep(s: Sys, step: Step, db0: Db)
    requires NoUpload(s) && GateHolds(s, db0)
    ensures GateHolds(Next(s, step), db0)
  {
    StepKeepsData(s, step);
    KeepsDataTransitive(db0, s.db, Next(s, step).db);
    hide U.PutStep, D.GetStep, G.AcknowledgeStep, G.RevokeStep, StepReaper, KeepsData, HasTheToken, PastTheGate;
    match step
    case GetCall(id, o) =>
      if id in s.gets {
        var g := s.gets[id];
        GetPassesWithItsToken(s.db, s.now, g, o);
        var g' := D.GetStep(s.db, s.now, g, o).1;
        if PastTheGate(g') && !PastTheGate(g) {
          TokenOfTheFirstRow(db0, s.db, g);
        }
        SameToken(db0, g, g');
      }
    case NewGet(id, index, hash) => NewIsBeforeTheGate(index, hash);
    case Reap(a) => ReaperKeepsGets(s, a);
    case _ =>
  }

  lemma SameToken(db: Db, g: D.Get, g': D.Get)
    requires g'.index == g.index && g'.tokenHash == g.tokenHash
    ensures HasTheToken(db, g) <==> HasTheToken(db, g')
  {
  }

  lemma NewIsBeforeTheGate(index: int, hash: Option<ByteString>)
    ensures !PastTheGate(D.Get(index, hash, D.ReadShare, false, false))
  {
  }

  lemma ReaperKeepsGets(s: Sys, a: ReaperAction)
    ensures StepReaper(s, a).gets == s.gets
  {
    hide ListsRows, Reapable, ClassifyReason;
  }

  lemma {:induction false} GateRun(s: Sys, run: seq<Step>, db0: Db)
    requires NoUpload(s) && GateHolds(s, db0)
    ensures GateHolds(Exec(s, run), db0)
    decreases |run|
  {
    hide Next, NoUpload, GateHolds;
    if run != [] {
      GateStep(s, run[0], db0);
      NoUploadStep(s, run[0]);
      GateRun(Next(s, run[0]), run[1..], db0);
    }
  }

  /**
   * The token gate, over every interleaving with any failure: once no upload is in flight, a chunk that was
   * uploaded with a commitment is sent to nobody whose token does not hash to it, and nothing is sent of a chunk
   * that has no row.
   */
  lemma OnlyTheTokenGetsTheChunk(s0: Sys, run: seq<Step>, id: int)
    requires NoUpload(s0) && forall k :: k in s0.gets ==> !PastTheGate(s0.gets[k])
    requires id in Exec(s0, run).gets && Exec(s0, run).gets[id].sent
    ensures
      var g := Exec(s0, run).gets[id];
      && g.index in s0.db.chunks
      && (s0.db.chunks[g.index].downloadTokenHash.Some? ==> g.tokenHash == s0.db.chunks[g.index].downloadTokenHash)
  {
    hide Exec, NoUpload;
    SameRowsKeepData(s0.db, s0.db);
    GateRun(s0, run, s0.db);
  }

  // ---- Chunks, one undisturbed request ----

  /** The first three calls of a GET, all answered: it has sent, or it has its status. */
  function Undisturbed(db: Db, now: int, index: int, tokenHash: Option<ByteString>): (g: D.Get)
  {
    var g1 := D.GetStep(db, now, D.Get(index, tokenHash, D.ReadShare, false, false), Applied).1;
    var g2 := D.GetStep(db, now, g1, Applied).1;
    D.GetStep(db, now, g2, Applied).1
  }

  /** Refused with this status and without a byte. */
  predicate IsRefused(g: D.Get, status: int)
  {
    g.pc == D.Finished(status) && !g.sent
  }

  /**
   * What an undisturbed GET is told, case by case in the order of the checks: 410 unless the share can be served and is not
   * past its date, 400 for a foreign index, 404 without a row, 410 for a served chunk of a burn share, 401 without a
   * well-formed token where the chunk has a commitment, 403 with another token, and otherwise the chunk.
   */
  lemma GetAnswers(db: Db, now: int, index: int, tokenHash: Option<ByteString>)
    ensures
      var g := Undisturbed(db, now, index, tokenHash);
      if !(db.share.state == Ready || db.share.state == Downloaded) || now >= db.share.expiresAt then IsRefused(g, 410)
      else if !(0 <= index < db.share.chunkCount) then IsRefused(g, 400)
      else if index !in db.chunks then IsRefused(g, 404)
      else if db.share.burnAfterRead && db.chunks[index].servedAt != None then IsRefused(g, 410)
      else if db.chunks[index].downloadTokenHash != None && tokenHash == None then IsRefused(g, 401)
      else if db.chunks[index].downloadTokenHash != None && tokenHash != db.chunks[index].downloadTokenHash then IsRefused(g, 403)
      else if index !in db.blobs then IsRefused(g, 502)
      else g.sent && g.pc.Mark?
  {
  }

  /** A chunk with this commitment that can be served now. */
  predicate Servable(db: Db, now: int, i: int, commitment: ByteString)
  {
    && (db.share.state == Ready || db.share.state == Downloaded) && now < db.share.expiresAt && 0 <= i < db.share.chunkCount
    && i in db.chunks && i in db.blobs && !(db.share.burnAfterRead && db.chunks[i].servedAt.Some?)
    && db.chunks[i].downloadTokenHash == Some(commitment)
  }

  /** The handler's gate is the gate the collision theorem speaks of. */
  lemma HandlerSendsExactlyWhenAdmitted(
      sha256: ByteString -> ByteString, db: Db, now: int, i: int, commitment: ByteString, header: Option<string>)
    requires Servable(db, now, i, commitment)
    ensures
      var g := Undisturbed(db, now, i, ExtractChunkTokenHash(sha256, header));
      && (g.sent <==> Admits(sha256, commitment, header))
      && (!g.sent ==> IsRefused(g, if ExtractChunkTokenHash(sha256, header).None? then 401 else 403))
  {
    hide ExtractChunkTokenHash;
  }

  /**
   * So a chunk stored under the commitment of (k, a, i) is sent for the token of that key, share and index, and for
   * the token of any other only along with a SHA-256 collision.
   */
  lemma HandlerServesOnlyItsChunk(
      sha256: ByteString -> ByteString, db: Db, now: int, n: int,
      k: ByteString, a: string, i: nat, l: ByteString, b: string, j: nat)
    requires DeriveChunkToken(sha256, k, a, i).Some? && DeriveChunkToken(sha256, l, b, j).Some?
    requires |DeriveChunkToken(sha256, l, b, j).value| == 32 && i < TWO_TO_THE_32 && j < TWO_TO_THE_32
    requires Servable(db, now, n, sha256(DeriveChunkToken(sha256, k, a, i).value))
    ensures
      var mine := DeriveChunkToken(sha256, k, a, i).value;
      var presented := DeriveChunkToken(sha256, l, b, j).value;
      var g := Undisturbed(db, now, n, ExtractChunkTokenHash(sha256, Some(BearerHeader(presented))));
      && (k == l && a == b && i == j ==> g.sent)
      && (g.sent && !(k == l && a == b && i == j) ==>
            || Collision(sha256, mine, presented)
            || Collision(sha256, TokenPreimage(k, a, i), TokenPreimage(l, b, j)))
  {
    hide *;
    var mine := DeriveChunkToken(sha256, k, a, i).value;
    var presented := DeriveChunkToken(sha256, l, b, j).value;
    HandlerSendsExactlyWhenAdmitted(sha256, db, now, n, sha256(mine), Some(BearerHeader(presented)));
    CommitmentAdmitsOnlyItsChunk(sha256, k, a, i, l, b, j);
  }

  // ---- /destroy, over every run ----

  /** This bearer hash does not revoke the share: it is missing, or not the stored one. */
  predicate IsWrong(share: ShareRow, tokenHash: Option<ByteString>)
  {
    tokenHash.None? || share.revokeTokenHash != tokenHash
  }

  /** The handler stands before its read or has answered. */
  predicate HasNotPassed(v: G.Revoke)
  {
    v.pc.ReadRow? || v.pc.Done?
  }

  ghost predicate RevokesHaveTheToken(s: Sys)
  {
    forall id :: id in s.revokes && !HasNotPassed(s.revokes[id]) ==> !IsWrong(s.db.share, s.revokes[id].tokenHash)
  }

  lemma RevokePassesWithTheToken(db: Db, now: int, v: G.Revoke, o: Outcome)
    ensures
      var v' := G.RevokeStep(db, now, v, o).1;
      v'.tokenHash == v.tokenHash && (!HasNotPassed(v') && HasNotPassed(v) ==> v.pc.ReadRow? && !IsWrong(db.share, v.tokenHash))
    ensures HasNotPassed(v) ==> G.RevokeStep(db, now, v, o).0 == db
  {
  }

  /** No step of anybody changes the share's stored revoke hash. */
  lemma TokenIsNeverChanged(s: Sys, step: Step)
    ensures Next(s, step).db.share.revokeTokenHash == s.db.share.revokeTokenHash
  {
    hide U.PutStep, D.GetStep, G.AcknowledgeStep, G.RevokeStep, StepReaper, Advance;
    match step
    case PutCall(id, o) => if id in s.puts { PutKeepsToken(s.db, s.now, s.puts[id], o); }
    case GetCall(id, o) =>
      if id in s.gets {
        GetAdvances(s.db, s.now, s.gets[id], o);
        AdvanceKeepsToken(s.db, Next(s, step).db);
      }
    case AckCall(id, o) =>
      if id in s.acks {
        AckAdvances(s.db, s.now, s.acks[id], o);
        AdvanceKeepsToken(s.db, Next(s, step).db);
      }
    case RevokeCall(id, o) =>
      if id in s.revokes {
        RevokeAdvances(s.db, s.now, s.revokes[id], o);
        AdvanceKeepsToken(s.db, Next(s, step).db);
      }
    case Reap(a) => ReaperKeepsToken(s, a);
    case _ =>
  }

  lemma PutKeepsToken(db: Db, now: int, p: U.Put, o: Outcome)
    ensures U.PutStep(db, now, p, o).0.share.revokeTokenHash == db.share.revokeTokenHash
  {
  }

  lemma AdvanceKeepsToken(db: Db, db': Db)
    requires Advance(db, db')
    ensures db'.share.revokeTokenHash == db.share.revokeTokenHash
  {
  }

  lemma ReaperKeepsToken(s: Sys, a: ReaperAction)
    ensures StepReaper(s, a).db.share.revokeTokenHash == s.db.share.revokeTokenHash && StepReaper(s, a).revokes == s.revokes
  {
    hide ListsRows, Reapable, ClassifyReason;
  }

  lemma RevokeGateStep(s: Sys, step: Step)
    requires RevokesHaveTheToken(s)
    ensures RevokesHaveTheToken(Next(s, step))
  {
    TokenIsNeverChanged(s, step);
    hide U.PutStep, D.GetStep, G.AcknowledgeStep, G.RevokeStep, StepReaper;
    match step
    case RevokeCall(id, o) =>
      if id in s.revokes {
        RevokePassesWithTheToken(s.db, s.now, s.revokes[id], o);
      }
    case Reap(a) => ReaperKeepsToken(s, a);
    case _ =>
  }

  /** Over every run of anybody: a `/destroy` that is past its checks has presented the share's own token. */
  lemma {:induction false} OnlyTheTokenRevokes(s: Sys, run: seq<Step>)
    requires RevokesHaveTheToken(s)
    ensures RevokesHaveTheToken(Exec(s, run))
    decreases |run|
  {
    hide Next, RevokesHaveTheToken;
    if run != [] {
      RevokeGateStep(s, run[0]);
      OnlyTheTokenRevokes(Next(s, run[0]), run[1..]);
    }
  }

  // ---- Wrong tokens change nothing ----

  /** The run without its `/destroy` steps. */
  function WithoutRevokes(run: seq<Step>): (r: seq<Step>)
  {
    if run == [] then []
    else if run[0].NewRevoke? || run[0].RevokeCall? then WithoutRevokes(run[1..])
    else [run[0]] + WithoutRevokes(run[1..])
  }

  /** Every `/destroy` started in the run carries a wrong hash. */
  ghost predicate OnlyWrong(run: seq<Step>, share: ShareRow)
  {
    forall k :: 0 <= k < |run| && run[k].NewRevoke? ==> IsWrong(share, run[k].tokenHash)
  }

  /** Every `/destroy` under way carries a wrong hash and has passed no check. */
  ghost predicate AllWrong(s: Sys)
  {
    forall id :: id in s.revokes ==> HasNotPassed(s.revokes[id]) && IsWrong(s.db.share, s.revokes[id].tokenHash)
  }

  /** The machine without its `/destroy` handlers. */
  function Bare(s: Sys): (r: Sys)
  {
    s.(revokes := map[])
  }

  /** Nobody else looks at the `/destroy` handlers. */
  lemma OthersIgnoreRevokes(s: Sys, step: Step)
    requires !step.NewRevoke? && !step.RevokeCall?
    ensures Bare(Next(s, step)) == Next(Bare(s), step) && Next(s, step).revokes == s.revokes
  {
    hide U.PutStep, D.GetStep, G.AcknowledgeStep, StepReaper;
    if step.Reap? {
      ReaperIgnoresRevokes(s, step.action);
    }
  }

  lemma ReaperIgnoresRevokes(s: Sys, a: ReaperAction)
    ensures Bare(StepReaper(s, a)) == StepReaper(Bare(s), a) && StepReaper(s, a).revokes == s.revokes
  {
    hide ListsRows, Reapable, FinalizeDestroy, RemoveBlob, Effect;
  }

  lemma WrongRevokesDoNothing(s: Sys, step: Step)
    requires AllWrong(s) && (step.NewRevoke? ==> IsWrong(s.db.share, step.tokenHash)) && (step.NewRevoke? || step.RevokeCall?)
    ensures Bare(Next(s, step)) == Bare(s) && AllWrong(Next(s, step))
  {
    hide G.RevokeStep;
    if step.RevokeCall? && step.id in s.revokes {
      RevokePassesWithTheToken(s.db, s.now, s.revokes[step.id], step.o);
    }
  }

  /**
   * A run in which every `/destroy` carries a wrong token, or none, is for everybody else the run without them: the
   * same rows, blobs, audit entries and answers.
   */
  lemma {:induction false} WrongTokensChangeNothing(s: Sys, run: seq<Step>)
    requires AllWrong(s) && OnlyWrong(run, s.db.share)
    ensures Bare(Exec(s, run)) == Exec(Bare(s), WithoutRevokes(run))
    decreases |run|
  {
    hide Next, AllWrong, IsWrong;
    if run != [] {
      var s' := Next(s, run[0]);
      TokenIsNeverChanged(s, run[0]);
      assert OnlyWrong(run[1..], s'.db.share) by { StillOnlyWrong(run, s.db.share, s'.db.share); }
      if run[0].NewRevoke? || run[0].RevokeCall? {
        WrongRevokesDoNothing(s, run[0]);
        WrongTokensChangeNothing(s', run[1..]);
      } else {
        OthersIgnoreRevokes(s, run[0]);
        assert AllWrong(s') by { SameRevokesStayWrong(s, s'); }
        WrongTokensChangeNothing(s', run[1..]);
        assert WithoutRevokes(run)[1..] == WithoutRevokes(run[1..]);
      }
    }
  }

  lemma StillOnlyWrong(run: seq<Step>, share: ShareRow, share': ShareRow)
    requires run != [] && OnlyWrong(run, share) && share'.revokeTokenHash == share.revokeTokenHash
    ensures OnlyWrong(run[1..], share')
  {
  }

  lemma SameRevokesStayWrong(s: Sys, s': Sys)
    requires AllWrong(s) && s'.revokes == s.revokes && s'.db.share.revokeTokenHash == s.db.share.revokeTokenHash
    ensures AllWrong(s')
  {
  }

  /** No entry and no reason tells of a revocation. */
  ghost predicate NotRevoked(db: Db)
  {
    && db.share.destroyedReason != Some(Manual)
    && forall e :: e in db.audit ==> !(e.ShareDestroyed? && (e.trigger == SenderRevoke || e.reason == Manual))
  }

  lemma CallsRevokeNothing(db: Db, now: int, o: Outcome, p: U.Put, g: D.Get, a: G.Acknowledge)
    requires NotRevoked(db)
    ensures NotRevoked(U.PutStep(db, now, p, o).0)
    ensures NotRevoked(D.GetStep(db, now, g, o).0)
    ensures NotRevoked(G.AcknowledgeStep(db, now, a, o).0)
  {
    hide U.Refusal, U.Nonce, U.Size, U.TokenHash, U.IsWhole, D.ChunkRefusal, Unserved;
  }

  lemma ReaperRevokesNothing(s: Sys, a: ReaperAction)
    requires NotRevoked(s.db)
    ensures NotRevoked(StepReaper(s, a).db)
  {
    hide ListsRows, Reapable;
  }

  lemma OthersRevokeNothing(s: Sys, step: Step)
    requires NotRevoked(s.db) && !step.NewRevoke? && !step.RevokeCall?
    ensures NotRevoked(Next(s, step).db)
  {
    hide U.PutStep, D.GetStep, G.AcknowledgeStep, StepReaper, NotRevoked;
    var p := if step.PutCall? && step.id in s.puts then s.puts[step.id] else U.Put(U.Request(0, None, None, None, []), U.MarkReady, false);
    var g := if step.GetCall? && step.id in s.gets then s.gets[step.id] else D.Get(0, None, D.ReadShare, false, false);
    var a := if step.AckCall? && step.id in s.acks then s.acks[step.id] else G.Acknowledge(G.ReadState, false);
    match step
    case PutCall(_, o) => CallsRevokeNothing(s.db, s.now, o, p, g, a);
    case GetCall(_, o) => CallsRevokeNothing(s.db, s.now, o, p, g, a);
    case AckCall(_, o) => CallsRevokeNothing(s.db, s.now, o, p, g, a);
    case Reap(action) => ReaperRevokesNothing(s, action);
    case _ =>
  }

  lemma {:induction false} RunRevokesNothing(s: Sys, run: seq<Step>)
    requires NotRevoked(s.db) && AllWrong(s) && OnlyWrong(run, s.db.share)
    ensures NotRevoked(Exec(s, run).db)
    decreases |run|
  {
    hide Next, AllWrong, IsWrong, NotRevoked;
    if run != [] {
      var s' := Next(s, run[0]);
      TokenIsNeverChanged(s, run[0]);
      assert OnlyWrong(run[1..], s'.db.share) by { StillOnlyWrong(run, s.db.share, s'.db.share); }
      if run[0].NewRevoke? || run[0].RevokeCall? {
        WrongRevokesDoNothing(s, run[0]);
        assert s'.db == Bare(s').db == Bare(s).db == s.db;
      } else {
        OthersIgnoreRevokes(s, run[0]);
        OthersRevokeNothing(s, run[0]);
        assert AllWrong(s') by { SameRevokesStayWrong(s, s'); }
      }
      RunRevokesNothing(s', run[1..]);
    }
  }

  /**
   * Nobody revokes a share without its token: from creation, whatever else happens, as long as every `/destroy`
   * carries another hash or none, no manual destruction is ever written or recorded, and the run is for everybody
   * else the run without those requests.
   */
  lemma NobodyRevokesWithoutTheToken(s0: Sys, run: seq<Step>)
    requires Created(s0) && OnlyWrong(run, s0.db.share)
    ensures NotRevoked(Exec(s0, run).db)
    ensures Bare(Exec(s0, run)) == Exec(s0, WithoutRevokes(run))
  {
    hide Exec, OnlyWrong;
    assert Bare(s0) == s0;
    RunRevokesNothing(s0, run);
    WrongTokensChangeNothing(s0, run);
  }

  // ---- /destroy, one undisturbed request ----

  /** The three calls of a `/destroy`, all answered: the rows and the handler. */
  function UndisturbedRevoke(db: Db, now: int, tokenHash: Option<ByteString>): (r: (Db, G.Revoke))
  {
    var (db1, v1) := G.RevokeStep(db, now, G.Revoke(tokenHash, G.ReadRow), Applied);
    var (db2, v2) := G.RevokeStep(db1, now, v1, Applied);
    G.RevokeStep(db2, now, v2, Applied)
  }

  /**
   * What an undisturbed `/destroy` does: 401 without a token; on a share that is gone already 200 and nothing; 410
   * where no hash is stored, 403 for another one, both leaving everything alone; and for the right token the share
   * is destroyed now, by hand, with its entry, and the answer is 200.
   */
  lemma RevokeAnswers(db: Db, now: int, tokenHash: Option<ByteString>)
    ensures
      var (db', v) := UndisturbedRevoke(db, now, tokenHash);
      if tokenHash == None then db' == db && v.pc == G.Done(401)
      else if db.share.state == Destroyed || db.share.state == Expired then db' == db && v.pc == G.Done(200)
      else if db.share.revokeTokenHash == None then db' == db && v.pc == G.Done(410)
      else if tokenHash != db.share.revokeTokenHash then db' == db && v.pc == G.Done(403)
      else
        && v.pc == G.Done(200)
        && db'.share.state == Destroyed && db'.share.destroyedAt == Some(now) && db'.share.destroyedReason == Some(Manual)
        && db'.audit == db.audit + [ShareDestroyed(SenderRevoke, Manual, None)]
        && db'.chunks == db.chunks && db'.blobs == db.blobs
  {
  }

  // ---- What is stored is well formed ----

  /** The request's nonce has 24 bytes and its commitment, if any, 32. */
  predicate WellFormedHeaders(q: U.Request)
  {
    |U.Nonce(q)| == 24 && (q.tokenHashHeader.Some? ==> U.TokenHash(q).Some? && |U.TokenHash(q).value| == 32)
      && (q.tokenHashHeader.None? ==> U.TokenHash(q).None?)
  }

  /**
   * The requests ingest takes: the share is still open and not past its date, the index is one of its chunks', the
   * length is a full chunk's or at most that for the last one, neither nothing nor over the cap, and the headers
   * decode to a nonce of 24 bytes and a commitment of 32 or none.
   */
  predicate IsTaken(share: ShareRow, now: int, q: U.Request)
  {
    && (share.state == Pending || share.state == Uploading) && now < share.expiresAt
    && 0 <= q.index < share.chunkCount
    && q.contentLength.Some? && 0 < q.contentLength.value <= 10 * 1024 * 1024
    && (if q.index == share.chunkCount - 1 then q.contentLength.value <= share.chunkSize + 16
        else q.contentLength.value == share.chunkSize + 16)
    && WellFormedHeaders(q)
  }

  lemma AcceptedExactly(share: ShareRow, now: int, q: U.Request)
    ensures U.Refusal(share, now, q) == None <==> IsTaken(share, now, q)
  {
    if q.nonceHeader == Some("") {
      assert U.Nonce(q) == [];
    }
  }

  /** The status of a request that is not taken: closed, too large, or malformed. */
  lemma RefusedWith(share: ShareRow, now: int, q: U.Request)
    requires !IsTaken(share, now, q)
    ensures
      var closed := !(share.state == Pending || share.state == Uploading) || share.expiresAt <= now;
      var tooLarge := 0 <= q.index < share.chunkCount && q.contentLength.Some? && q.contentLength.value > 10 * 1024 * 1024;
      U.Refusal(share, now, q) == Some(if closed then 410 else if tooLarge then 413 else 400)
  {
    hide WellFormedHeaders;
    AcceptedExactly(share, now, q);
  }

  /** The row a taken request leaves: its own data, uploaded now, not served yet. */
  predicate IsFreshRow(row: ChunkRow, now: int, q: U.Request)
  {
    && row.nonce == U.Nonce(q) && row.downloadTokenHash == U.TokenHash(q) && Some(row.ciphertextSize) == q.contentLength
    && row.uploadedAt == Some(now) && row.servedAt == None && row.servedCount == 0
  }

  lemma TakenIsOpen(share: ShareRow, now: int, q: U.Request)
    requires IsTaken(share, now, q)
    ensures IsIndex(q.index, share.chunkCount) && (share.state == Pending || share.state == Uploading) && q.contentLength.Some?
  {
  }

  /**
   * What an undisturbed PUT does: refused, it changes nothing; with a body of another length than declared, likewise;
   * taken, it answers 201 with blob and row stored under its index, whatever was there before, every other row and
   * blob as it was, and the share ready exactly when every index now has its row, and uploading otherwise.
   */
  lemma PutAnswers(db: Db, now: int, q: U.Request, outcomes: seq<Outcome>)
    requires InRange(db) && db.share.chunkCount >= 0
    requires |outcomes| == U.CALLS && forall k :: 0 <= k < U.CALLS ==> outcomes[k] == Applied
    ensures
      var (db', p) := U.Run(db, now, U.Put(q, U.ReadShare, false), outcomes);
      if !IsTaken(db.share, now, q) then db' == db && p.pc.Finished? && U.Refusal(db.share, now, q) == Some(p.pc.status)
      else if q.contentLength != Some(|q.body|) then db' == db && p.pc == U.Finished(400)
      else
        && p.pc == U.Finished(201) && !p.gaveUp
        && db'.blobs == db.blobs[q.index := q.body]
        && db'.chunks.Keys == db.chunks.Keys + {q.index} && IsFreshRow(db'.chunks[q.index], now, q)
        && (forall i :: i in db.chunks && i != q.index ==> db'.chunks[i] == db.chunks[i])
        && db'.audit == db.audit
        && db'.share == db.share.(state := if Full(db') then Ready else Uploading)
  {
    hide *;
    if IsTaken(db.share, now, q) && q.contentLength == Some(|q.body|) {
      StoredAlone(db, now, q, outcomes);
    } else {
      RefusedAlone(db, now, q, outcomes);
    }
  }

  lemma RefusedAlone(db: Db, now: int, q: U.Request, outcomes: seq<Outcome>)
    requires |outcomes| == U.CALLS && forall k :: 0 <= k < U.CALLS ==> outcomes[k] == Applied
    requires !IsTaken(db.share, now, q) || q.contentLength != Some(|q.body|)
    ensures
      var (db', p) := U.Run(db, now, U.Put(q, U.ReadShare, false), outcomes);
      && db' == db && p.pc.Finished?
      && (if IsTaken(db.share, now, q) then p.pc.status == 400 else U.Refusal(db.share, now, q) == Some(p.pc.status))
  {
    hide U.Run, U.Refusal, U.Nonce, U.TokenHash, IsTaken, CountUploadedChunks;
    AcceptedExactly(db.share, now, q);
    U.UnfoldRun(db, now, U.Put(q, U.ReadShare, false), outcomes);
    if IsTaken(db.share, now, q) {
      TakenIsOpen(db.share, now, q);
    }
  }

  lemma StoredAlone(db: Db, now: int, q: U.Request, outcomes: seq<Outcome>)
    requires InRange(db) && db.share.chunkCount >= 0
    requires |outcomes| == U.CALLS && forall k :: 0 <= k < U.CALLS ==> outcomes[k] == Applied
    requires IsTaken(db.share, now, q) && q.contentLength == Some(|q.body|)
    ensures
      var (db', p) := U.Run(db, now, U.Put(q, U.ReadShare, false), outcomes);
      && p.pc == U.Finished(201) && !p.gaveUp
      && db'.blobs == db.blobs[q.index := q.body]
      && db'.chunks.Keys == db.chunks.Keys + {q.index} && IsFreshRow(db'.chunks[q.index], now, q)
      && (forall i :: i in db.chunks && i != q.index ==> db'.chunks[i] == db.chunks[i])
      && db'.audit == db.audit
      && db'.share == db.share.(state := if Full(db') then Ready else Uploading)
  {
    hide U.Run, U.Refusal, U.Nonce, U.TokenHash, IsTaken, CountUploadedChunks;
    AcceptedExactly(db.share, now, q);
    TakenIsOpen(db.share, now, q);
    U.UnfoldRun(db, now, U.Put(q, U.ReadShare, false), outcomes);
    var upserted := UpsertChunk(PutBlob(db, q.index, q.body), q.index, U.Nonce(q), U.Size(q), now, U.TokenHash(q));
    CountMeansFull(upserted);
    CountMeansFull(SetState(upserted, Uploading));
  }

  predicate IsWellFormed(row: ChunkRow)
  {
    |row.nonce| == 24 && (row.downloadTokenHash.Some? ==> |row.downloadTokenHash.value| == 32)
  }

  lemma DataStaysWellFormed(db: Db, db': Db)
    requires KeepsData(db, db') && forall i :: i in db.chunks ==> IsWellFormed(db.chunks[i])
    ensures forall i :: i in db'.chunks ==> IsWellFormed(db'.chunks[i])
  {
  }

  /** Every row, and every handler about to write one, has well-formed headers behind it. */
  ghost predicate RowsAreWellFormed(s: Sys)
  {
    && (forall i :: i in s.db.chunks ==> IsWellFormed(s.db.chunks[i]))
    && (forall id :: id in s.puts && (s.puts[id].pc.StoreBlob? || s.puts[id].pc.UpsertRow?) ==> WellFormedHeaders(s.puts[id].req))
  }

  lemma PutKeepsWellFormed(db: Db, now: int, p: U.Put, o: Outcome)
    requires p.pc.StoreBlob? || p.pc.UpsertRow? ==> WellFormedHeaders(p.req)
    ensures
      var (db', p') := U.PutStep(db, now, p, o);
      && (p'.pc.StoreBlob? || p'.pc.UpsertRow? ==> WellFormedHeaders(p'.req))
      && (forall i :: i in db'.chunks ==>
            (i in db.chunks && db'.chunks[i] == db.chunks[i]) || IsWellFormed(db'.chunks[i]))
  {
    hide U.Refusal, U.Nonce, U.Size, U.TokenHash, U.IsWhole;
    if p.pc.ReadShare? && U.Refusal(db.share, now, p.req).None? {
      AcceptedExactly(db.share, now, p.req);
    }
  }

  lemma StepKeepsWellFormed(s: Sys, step: Step)
    requires RowsAreWellFormed(s)
    ensures RowsAreWellFormed(Next(s, step))
  {
    hide U.PutStep, D.GetStep, G.AcknowledgeStep, G.RevokeStep, StepReaper, WellFormedHeaders, IsWellFormed, KeepsData;
    var db, db' := s.db, Next(s, step).db;
    var g := if step.GetCall? && step.id in s.gets then s.gets[step.id] else D.Get(0, None, D.ReadShare, false, false);
    var a := if step.AckCall? && step.id in s.acks then s.acks[step.id] else G.Acknowledge(G.ReadState, false);
    var v := if step.RevokeCall? && step.id in s.revokes then s.revokes[step.id] else G.Revoke(None, G.ReadRow);
    match step
    case PutCall(id, o) => if id in s.puts { PutKeepsWellFormed(s.db, s.now, s.puts[id], o); }
    case GetCall(id, o) =>
      if id in s.gets {
        CallsKeepData(db, s.now, o, g, a, v);
        DataStaysWellFormed(db, db');
      }
    case AckCall(id, o) =>
      if id in s.acks {
        CallsKeepData(db, s.now, o, g, a, v);
        DataStaysWellFormed(db, db');
      }
    case RevokeCall(id, o) =>
      if id in s.revokes {
        CallsKeepData(db, s.now, o, g, a, v);
        DataStaysWellFormed(db, db');
      }
    case Reap(action) =>
      ReaperKeepsData(s, action);
      ReaperKeepsOrDropsRows(s, action);
      DataStaysWellFormed(db, db');
    case _ =>
  }

  /** In every state any run of anybody reaches, every row has a nonce of 24 bytes and a commitment of 32 or none. */
  lemma {:induction false} StoredRowsAreWellFormed(s: Sys, run: seq<Step>)
    requires RowsAreWellFormed(s)
    ensures RowsAreWellFormed(Exec(s, run))
    decreases |run|
  {
    hide Next, RowsAreWellFormed;
    if run != [] {
      StepKeepsWellFormed(s, run[0]);
      StoredRowsAreWellFormed(Next(s, run[0]), run[1..]);
    }
  }
}
