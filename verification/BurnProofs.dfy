/**
 * Burn after reading: a fully uploaded share, and from there every interleaving of everybody, with marks and
 * calls failing anywhere.
 */
module BurnProofs {
  import opened Wrappers
  import opened Bytes
  import opened ShareModel
  import opened ShareStore
  import opened ShareSystem
  import opened UploadProofs
  import opened LifecycleProofs
  import U = UploadEndpoint
  import D = DownloadEndpoint
  import G = GatewayShares

  // ---- The invariant ----

  /** The rows while and after a share is served: all of them until the reaper's transaction, then none. */
  ghost predicate ServedRows(db: Db)
  {
    && db.share.chunkCount > 0 && InRange(db) && Dated(db)
    && db.share.state in {Ready, Expired, Destroyed}
    && (if db.chunks == map[] then db.share.state == Destroyed else Full(db))
    && (db.share.state == Ready && db.share.burnAfterRead ==> Unserved(db) != {})
  }

  /** Stamped chunks have left, and so has whatever a handler says it sent. */
  ghost predicate StampsAreDeliveries(s: Sys)
  {
    && (forall i :: i in s.db.chunks && s.db.chunks[i].servedAt.Some? ==> i in s.left)
    && (forall id :: id in s.gets ==> (s.gets[id].pc.Mark? ==> s.gets[id].sent) && (s.gets[id].sent ==> s.gets[id].index in s.left))
  }

  predicate GetFired(s: Sys, id: int)
  {
    id in s.gets && s.gets[id].burnFired
  }

  predicate AckFired(s: Sys, id: int)
  {
    id in s.acks && s.acks[id].sawBurn
  }

  /** Whoever saw itself fire the burn is the only one, the share is destroyed, and a GET among them has seen every chunk leave. */
  ghost predicate OneFires(s: Sys)
  {
    && (forall id :: GetFired(s, id) ==> s.db.share.state == Destroyed && Indexes(s.db.share.chunkCount) <= s.left)
    && (forall id :: AckFired(s, id) ==> s.db.share.state == Destroyed)
    && (forall a, b :: GetFired(s, a) && GetFired(s, b) ==> a == b)
    && (forall a, b :: AckFired(s, a) && AckFired(s, b) ==> a == b)
    && (forall a, b :: GetFired(s, a) ==> !AckFired(s, b))
    && (forall id :: id in s.acks && s.acks[id].pc.ReadState? ==> !s.acks[id].sawBurn)
    && (forall id :: id in s.acks && s.acks[id].pc.CallRpc? ==> !s.acks[id].sawBurn)
    && (forall id :: id in s.gets && s.gets[id].burnFired ==> s.gets[id].pc.Finished?)
  }

  predicate IsBurnEntry(e: AuditEntry)
  {
    e.ShareDestroyed? && e.reason == Burn && (e.trigger == IngestLastChunk || e.trigger == GatewayDownloaded)
  }

  predicate IsReaperEntry(e: AuditEntry)
  {
    e.ShareDestroyed? && e.trigger == Reaper
  }

  function BurnEntries(audit: seq<AuditEntry>): (n: nat)
  {
    if audit == [] then 0
    else BurnEntries(audit[..|audit| - 1]) + if IsBurnEntry(audit[|audit| - 1]) then 1 else 0
  }

  function ReaperEntries(audit: seq<AuditEntry>): (n: nat)
  {
    if audit == [] then 0
    else ReaperEntries(audit[..|audit| - 1]) + if IsReaperEntry(audit[|audit| - 1]) then 1 else 0
  }

  lemma Appended(audit: seq<AuditEntry>, e: AuditEntry)
    ensures BurnEntries(audit + [e]) == BurnEntries(audit) + if IsBurnEntry(e) then 1 else 0
    ensures ReaperEntries(audit + [e]) == ReaperEntries(audit) + if IsReaperEntry(e) then 1 else 0
  {
    assert (audit + [e])[..|audit|] == audit;
  }

  /** A `/downloaded` handler is about to record the burn it saw. */
  predicate BurnUnrecorded(s: Sys, id: int)
  {
    id in s.acks && s.acks[id].pc.RecordAudit? && s.acks[id].sawBurn
  }

  /** At most one burn is recorded or about to be, and one reaper entry exactly when the rows are gone. */
  ghost predicate AuditOk(s: Sys)
  {
    && BurnEntries(s.db.audit) <= 1
    && (BurnEntries(s.db.audit) == 1 ==> s.db.share.state == Destroyed)
    && (forall id :: BurnUnrecorded(s, id) ==> BurnEntries(s.db.audit) == 0)
    && ReaperEntries(s.db.audit) == (if s.db.chunks == map[] then 1 else 0)
    && (!s.reaper.Idle? ==> s.db.chunks != map[])
  }

  ghost predicate Serving(s: Sys, orphans: set<int>)
  {
    Quiet(s, orphans) && ServedRows(s.db) && StampsAreDeliveries(s) && OneFires(s) && AuditOk(s)
  }

  /** A finished, fully promoted upload is the start of serving. */
  lemma UploadedIsServing(s: Sys)
    requires UploadInv(s) && AllFinished(s) && s.db.share.state == Ready
    ensures Serving(s, Orphans(s.db))
  {
    CountMeansFull(s.db);
    var db := s.db;
    assert IsIndex(0, db.share.chunkCount);
    assert 0 in db.chunks && db.chunks[0].servedAt.None?;
    assert 0 in Unserved(db);
  }

  // ---- GET steps ----

  lemma StampIsLocal(db: Db, i: int, now: int)
    requires i in db.chunks
    ensures StampServed(db, i, now).chunks.Keys == db.chunks.Keys
    ensures Unserved(StampServed(db, i, now)) == Unserved(db) - {i}
    ensures StampServed(db, i, now).share == db.share && StampServed(db, i, now).audit == db.audit
  {
  }

  /** `mark_chunk_served` keeps the rows as they should be, and fires only when the last unserved chunk is stamped. */
  lemma MarkKeeps(db: Db, i: int, now: int)
    requires ServedRows(db)
    ensures
      var (db', r) := MarkChunkServed(db, i, now);
      && ServedRows(db')
      && (r.burnFired <==> db.share.state == Ready && db'.share.state == Destroyed)
      && (r.burnFired ==> i in db.chunks && Unserved(db) <= {i})
      && (if r.burnFired then db'.audit == db.audit + [ShareDestroyed(IngestLastChunk, Burn, Some(db.share.chunkCount))]
          else db'.audit == db.audit && db'.share == db.share)
      && db'.chunks.Keys == db.chunks.Keys && db'.share.chunkCount == db.share.chunkCount
      && (forall j :: j in db'.chunks && db'.chunks[j].servedAt.Some? ==> j == i || db.chunks[j].servedAt.Some?)
  {
    if i in db.chunks {
      StampIsLocal(db, i, now);
      var db' := MarkChunkServed(db, i, now).0;
      assert forall j :: j in db'.chunks <==> j in db.chunks;
      assert Unserved(db') == Unserved(db) - {i};
    }
  }

  /** When the last unserved chunk is being stamped by a handler whose bytes left, every chunk has left. */
  lemma EveryChunkHasLeft(s: Sys, i: int)
    requires ServedRows(s.db) && StampsAreDeliveries(s) && s.db.share.state == Ready
    requires Unserved(s.db) <= {i} && i in s.left
    ensures Indexes(s.db.share.chunkCount) <= s.left
  {
    forall j | j in Indexes(s.db.share.chunkCount)
      ensures j in s.left
    {
      assert IsIndex(j, s.db.share.chunkCount);
      assert j in s.db.chunks;
      assert j in Unserved(s.db) || s.db.chunks[j].servedAt.Some?;
    }
  }

  /** The mark of this handler takes effect and is the one that destroys the share. */
  predicate GetBurns(db: Db, now: int, g: D.Get, o: Outcome)
  {
    g.pc.Mark? && !o.Lost? && MarkChunkServed(db, g.index, now).1.burnFired
  }

  /** What one call of a GET does, for the invariant. */
  lemma GetSummary(db: Db, now: int, g: D.Get, o: Outcome)
    requires ServedRows(db) && (g.burnFired ==> g.pc.Finished?) && (g.pc.Mark? ==> g.sent)
    ensures
      var (db', g') := D.GetStep(db, now, g, o);
      var burns := GetBurns(db, now, g, o);
      && ServedRows(db') && db'.chunks.Keys == db.chunks.Keys
      && (burns ==> db.share.state == Ready && db'.share.state == Destroyed && Unserved(db) <= {g.index})
      && (!burns ==> db'.share == db.share)
      && db'.share.chunkCount == db.share.chunkCount
      && db'.audit == (if burns then db.audit + [ShareDestroyed(IngestLastChunk, Burn, Some(db.share.chunkCount))] else db.audit)
      && (forall j :: j in db'.chunks && db'.chunks[j].servedAt.Some? ==> db.chunks[j].servedAt.Some? || (j == g.index && g.pc.Mark?))
      && g'.index == g.index && (g'.pc.Mark? ==> g'.sent) && (g.sent ==> g'.sent)
      && (g'.burnFired ==> g'.pc.Finished? && (g.burnFired || burns))
  {
    hide ServedRows, MarkChunkServed, D.ChunkRefusal;
    if g.pc.Mark? {
      MarkKeeps(db, g.index, now);
    }
  }

  lemma GetKeepsServing(s: Sys, id: int, o: Outcome, orphans: set<int>)
    requires Serving(s, orphans) && id in s.gets
    ensures
      var s' := StepGet(s, id, o);
      ServedRows(s'.db) && StampsAreDeliveries(s') && OneFires(s') && AuditOk(s')
  {
    hide Quiet, ServedRows, D.GetStep, BurnEntries, ReaperEntries, Unserved, GetBurns;
    var g := s.gets[id];
    var s' := StepGet(s, id, o);
    var burns := GetBurns(s.db, s.now, g, o);
    GetSummary(s.db, s.now, g, o);
    Appended(s.db.audit, ShareDestroyed(IngestLastChunk, Burn, Some(s.db.share.chunkCount)));
    if burns {
      assert g.pc.Mark? by { assert GetBurns(s.db, s.now, g, o); BurnsAtTheMark(s.db, s.now, g, o); }
      EveryChunkHasLeft(s, g.index);
    }
    SameRows(s.db, s'.db);
    assert forall k :: GetFired(s', k) ==> GetFired(s, k) || (k == id && burns);
    assert forall k :: AckFired(s', k) <==> AckFired(s, k);
    assert forall k :: BurnUnrecorded(s', k) ==> BurnUnrecorded(s, k) && AckFired(s, k);
  }

  lemma BurnsAtTheMark(db: Db, now: int, g: D.Get, o: Outcome)
    requires GetBurns(db, now, g, o)
    ensures g.pc.Mark?
  {
  }

  lemma SameRows(db: Db, db': Db)
    requires db.chunks.Keys == db'.chunks.Keys
    ensures db.chunks == map[] <==> db'.chunks == map[]
  {
    assert db.chunks == map[] <==> db.chunks.Keys == {};
    assert db'.chunks == map[] <==> db'.chunks.Keys == {};
  }

  // ---- /downloaded steps ----

  lemma IncrementKeeps(db: Db, now: int)
    requires ServedRows(db) && IncrementDownload(db, now).Some?
    ensures
      var db' := IncrementDownload(db, now).value;
      && ServedRows(db') && db'.chunks == db.chunks && db'.audit == db.audit
      && db.share.state == Ready && db'.share.chunkCount == db.share.chunkCount
  {
    assert Unserved(IncrementDownload(db, now).value) == Unserved(db);
  }

  lemma AppendKeepsRows(db: Db, e: AuditEntry)
    requires ServedRows(db)
    ensures ServedRows(AppendAudit(db, e))
  {
    assert Unserved(AppendAudit(db, e)) == Unserved(db);
  }

  /** The RPC of this handler takes effect and destroys the share. */
  predicate AckBurns(db: Db, now: int, a: G.Acknowledge, o: Outcome)
  {
    a.pc.CallRpc? && !o.Lost? && IncrementDownload(db, now).Some? && IncrementDownload(db, now).value.share.state == Destroyed
  }

  /** The entry a `/downloaded` handler appends. */
  function AckEntry(a: G.Acknowledge): (e: AuditEntry)
  {
    if a.sawBurn then ShareDestroyed(GatewayDownloaded, Burn, None) else ShareDownloaded
  }

  lemma AckSummary(db: Db, now: int, a: G.Acknowledge, o: Outcome)
    requires ServedRows(db) && (a.pc.ReadState? || a.pc.CallRpc? ==> !a.sawBurn)
    ensures
      var (db', a') := G.AcknowledgeStep(db, now, a, o);
      var burns := AckBurns(db, now, a, o);
      && ServedRows(db') && db'.chunks == db.chunks
      && (burns ==> db.share.state == Ready && db'.share.state == Destroyed)
      && (!burns && db.share.state == Destroyed ==> db'.share == db.share)
      && db'.share.chunkCount == db.share.chunkCount
      && db'.audit == (if a.pc.RecordAudit? && !o.Lost? then db.audit + [AckEntry(a)] else db.audit)
      && (a'.pc.ReadState? || a'.pc.CallRpc? ==> !a'.sawBurn)
      && (a'.sawBurn ==> a.sawBurn || burns)
      && (a'.pc.RecordAudit? ==> a.pc.CallRpc?)
  {
    hide ServedRows, IncrementDownload;
    match a.pc
    case CallRpc =>
      if IncrementDownload(db, now).Some? {
        IncrementKeeps(db, now);
        IncrementKeepsDestroyed(db, now);
      }
    case RecordAudit(_) => AppendKeepsRows(db, AckEntry(a));
    case _ =>
  }

  lemma IncrementKeepsDestroyed(db: Db, now: int)
    requires IncrementDownload(db, now).Some?
    ensures db.share.state != Destroyed
  {
  }

  lemma AckKeepsServing(s: Sys, id: int, o: Outcome, orphans: set<int>)
    requires Serving(s, orphans) && id in s.acks
    ensures
      var s' := StepAck(s, id, o);
      ServedRows(s'.db) && StampsAreDeliveries(s') && OneFires(s') && AuditOk(s')
  {
    hide Quiet, ServedRows, G.AcknowledgeStep, BurnEntries, ReaperEntries, Unserved, AckBurns;
    var a := s.acks[id];
    var s' := StepAck(s, id, o);
    var burns := AckBurns(s.db, s.now, a, o);
    AckSummary(s.db, s.now, a, o);
    Appended(s.db.audit, AckEntry(a));
    assert AckFired(s, id) <==> a.sawBurn;
    assert BurnUnrecorded(s, id) <==> a.sawBurn && a.pc.RecordAudit?;
    assert forall k :: GetFired(s', k) <==> GetFired(s, k);
    assert forall k :: AckFired(s', k) ==> AckFired(s, k) || (k == id && burns);
    assert forall k :: BurnUnrecorded(s', k) ==> (k != id && BurnUnrecorded(s, k) && AckFired(s, k)) || (k == id && AckFired(s', k) && burns);
  }

  // ---- /destroy and reaper steps ----

  lemma RevokeKeepsRows(db: Db, now: int)
    requires ServedRows(db)
    ensures ServedRows(RevokeUpdate(db, now))
  {
  }

  /** Steps of others leave the firing and the deliveries as they were. */
  lemma OthersKeepFiring(s: Sys, s': Sys)
    requires OneFires(s) && StampsAreDeliveries(s)
    requires s'.acks == s.acks && s'.gets == s.gets && s'.left == s.left
    requires s'.db.chunks == s.db.chunks || s'.db.chunks == map[]
    requires s'.db.share.chunkCount == s.db.share.chunkCount && (s.db.share.state == Destroyed ==> s'.db.share.state == Destroyed)
    ensures OneFires(s') && StampsAreDeliveries(s')
  {
    assert forall k :: (GetFired(s', k) <==> GetFired(s, k)) && (AckFired(s', k) <==> AckFired(s, k));
  }

  /** And the audit entries of the burn, if they append none. */
  lemma OthersKeepBurnEntries(s: Sys, s': Sys)
    requires AuditOk(s) && s'.acks == s.acks && BurnEntries(s'.db.audit) == BurnEntries(s.db.audit)
    requires s.db.share.state == Destroyed ==> s'.db.share.state == Destroyed
    requires ReaperEntries(s'.db.audit) == (if s'.db.chunks == map[] then 1 else 0)
    requires !s'.reaper.Idle? ==> s'.db.chunks != map[]
    ensures AuditOk(s')
  {
    assert forall k :: BurnUnrecorded(s', k) <==> BurnUnrecorded(s, k);
  }

  lemma RevokeKeepsServing(s: Sys, id: int, o: Outcome, orphans: set<int>)
    requires Serving(s, orphans) && id in s.revokes
    ensures
      var s' := StepRevoke(s, id, o);
      ServedRows(s'.db) && StampsAreDeliveries(s') && OneFires(s') && AuditOk(s')
  {
    RevokeSummary(s, id, o, orphans);
    hide *;
    OthersKeepFiring(s, StepRevoke(s, id, o));
    OthersKeepBurnEntries(s, StepRevoke(s, id, o));
  }

  lemma RevokeSummary(s: Sys, id: int, o: Outcome, orphans: set<int>)
    requires Serving(s, orphans) && id in s.revokes
    ensures
      var s' := StepRevoke(s, id, o);
      && ServedRows(s'.db) && StampsAreDeliveries(s) && OneFires(s) && AuditOk(s)
      && s'.acks == s.acks && s'.gets == s.gets && s'.left == s.left && s'.db.chunks == s.db.chunks
      && s'.db.share.chunkCount == s.db.share.chunkCount && (s.db.share.state == Destroyed ==> s'.db.share.state == Destroyed)
      && BurnEntries(s'.db.audit) == BurnEntries(s.db.audit)
      && ReaperEntries(s'.db.audit) == (if s'.db.chunks == map[] then 1 else 0)
      && (!s'.reaper.Idle? ==> s'.db.chunks != map[])
  {
    hide Quiet, ServedRows, OneFires, StampsAreDeliveries, BurnEntries, ReaperEntries;
    var e := ShareDestroyed(SenderRevoke, Manual, None);
    Appended(s.db.audit, e);
    AppendKeepsRows(s.db, e);
    RevokeKeepsRows(s.db, s.now);
  }

  /** The reaper's transaction leaves no row and one more entry, and destroys. */
  lemma FinalizeSummary(db: Db, now: int, n: int)
    requires ServedRows(db)
    ensures
      var db' := FinalizeDestroy(db, now, n);
      && ServedRows(db') && db'.chunks == map[] && db'.share.state == Destroyed
      && db'.share.chunkCount == db.share.chunkCount
      && db'.audit == db.audit + [ShareDestroyed(Reaper, ClassifyReason(db.share), Some(n))]
  {
  }

  lemma RemoveKeepsRows(db: Db, i: int)
    requires ServedRows(db)
    ensures ServedRows(RemoveBlob(db, i))
    ensures RemoveBlob(db, i) == db.(blobs := RemoveBlob(db, i).blobs)
  {
    assert Unserved(RemoveBlob(db, i)) == Unserved(db);
  }

  /** The reaper only takes up a share whose rows are there. */
  lemma ReapableHasRows(db: Db, now: int)
    requires ServedRows(db) && Reapable(db, now)
    ensures db.chunks != map[]
  {
  }

  lemma ReaperKeepsServing(s: Sys, a: ReaperAction, orphans: set<int>)
    requires Serving(s, orphans)
    ensures
      var s' := StepReaper(s, a);
      ServedRows(s'.db) && StampsAreDeliveries(s') && OneFires(s') && AuditOk(s')
  {
    ReaperSummary(s, a, orphans);
    hide *;
    OthersKeepFiring(s, StepReaper(s, a));
    OthersKeepBurnEntries(s, StepReaper(s, a));
  }

  lemma ReaperSummary(s: Sys, a: ReaperAction, orphans: set<int>)
    requires Serving(s, orphans)
    ensures
      var s' := StepReaper(s, a);
      && ServedRows(s'.db) && StampsAreDeliveries(s) && OneFires(s) && AuditOk(s)
      && s'.acks == s.acks && s'.gets == s.gets && s'.left == s.left
      && (s'.db.chunks == s.db.chunks || s'.db.chunks == map[])
      && s'.db.share.chunkCount == s.db.share.chunkCount && (s.db.share.state == Destroyed ==> s'.db.share.state == Destroyed)
      && BurnEntries(s'.db.audit) == BurnEntries(s.db.audit)
      && ReaperEntries(s'.db.audit) == (if s'.db.chunks == map[] then 1 else 0)
      && (!s'.reaper.Idle? ==> s'.db.chunks != map[])
  {
    hide Quiet, ServedRows, OneFires, StampsAreDeliveries, BurnEntries, ReaperEntries, ListsRows, Reapable, FinalizeDestroy, RemoveBlob, ClassifyReason;
    match (s.reaper, a)
    case (Idle, Select) =>
      if Reapable(s.db, s.now) {
        ReapableHasRows(s.db, s.now);
      }
    case (Removing(keys, n), RemoveNext(o)) =>
      if keys != [] {
        RemoveKeepsRows(s.db, keys[0]);
      }
    case (Finalizing(n), Finalize(o)) =>
      FinalizeSummary(s.db, s.now, n);
      Appended(s.db.audit, ShareDestroyed(Reaper, ClassifyReason(s.db.share), Some(n)));
    case _ =>
  }

  // ---- Burns by a mark come after delivery ----

  predicate IsMarkBurn(e: AuditEntry)
  {
    e.ShareDestroyed? && e.trigger == IngestLastChunk
  }

  /** An ingest burn entry is there only once bytes of every chunk have left. */
  ghost predicate BurntAfterDelivery(s: Sys)
  {
    (exists e :: e in s.db.audit && IsMarkBurn(e)) ==> Indexes(s.db.share.chunkCount) <= s.left
  }

  lemma GetKeepsDelivery(s: Sys, id: int, o: Outcome, orphans: set<int>)
    requires Serving(s, orphans) && BurntAfterDelivery(s) && id in s.gets
    ensures BurntAfterDelivery(StepGet(s, id, o))
  {
    hide Quiet, ServedRows, D.GetStep, OneFires, AuditOk, Unserved, GetBurns, IsMarkBurn;
    var g := s.gets[id];
    assert (g.burnFired ==> g.pc.Finished?) && (g.pc.Mark? ==> g.sent) by { FiredIsFinished(s, id); }
    GetSummary(s.db, s.now, g, o);
    if GetBurns(s.db, s.now, g, o) {
      BurnsAtTheMark(s.db, s.now, g, o);
      EveryChunkHasLeft(s, g.index);
    }
  }

  lemma FiredIsFinished(s: Sys, id: int)
    requires OneFires(s) && id in s.gets
    ensures s.gets[id].burnFired ==> s.gets[id].pc.Finished?
  {
  }

  /** A step that appends no ingest entry keeps the property. */
  lemma NoMarkBurnKeepsDelivery(s: Sys, s': Sys, e: AuditEntry)
    requires BurntAfterDelivery(s) && !IsMarkBurn(e)
    requires s'.db.audit == s.db.audit || s'.db.audit == s.db.audit + [e]
    requires s'.left == s.left && s'.db.share.chunkCount == s.db.share.chunkCount
    ensures BurntAfterDelivery(s')
  {
    hide IsMarkBurn;
  }

  // ---- Every step, every run ----

  lemma ServingStep(s: Sys, step: Step, orphans: set<int>)
    requires Serving(s, orphans) && BurntAfterDelivery(s)
    ensures Serving(Next(s, step), orphans) && BurntAfterDelivery(Next(s, step))
  {
    QuietStep(s, step, orphans);
    hide Quiet, ServedRows, StampsAreDeliveries, OneFires, AuditOk, BurntAfterDelivery;
    hide StepGet, StepAck, StepRevoke, StepReaper, StepPut;
    match step
    case NewPut(_, _) => NewHandlersKeepServing(s, step, orphans);
    case NewGet(_, _, _) => NewHandlersKeepServing(s, step, orphans);
    case NewAck(_) => NewHandlersKeepServing(s, step, orphans);
    case NewRevoke(_, _) => NewHandlersKeepServing(s, step, orphans);
    case Tick(_) => NewHandlersKeepServing(s, step, orphans);
    case PutCall(id, o) => PutKeepsServing(s, id, o, orphans);
    case GetCall(id, o) =>
      if id in s.gets {
        GetKeepsServing(s, id, o, orphans);
        GetKeepsDelivery(s, id, o, orphans);
      } else {
        assert StepGet(s, id, o) == s by { NobodyThere(s, id, o); }
      }
    case AckCall(id, o) =>
      if id in s.acks {
        AckKeepsServing(s, id, o, orphans);
        AckKeepsDelivery(s, id, o, orphans);
      } else {
        assert StepAck(s, id, o) == s by { NobodyThere(s, id, o); }
      }
    case RevokeCall(id, o) =>
      if id in s.revokes {
        RevokeKeepsServing(s, id, o, orphans);
        RevokeKeepsDelivery(s, id, o);
      } else {
        assert StepRevoke(s, id, o) == s by { NobodyThere(s, id, o); }
      }
    case Reap(a) =>
      ReaperKeepsServing(s, a, orphans);
      ReaperKeepsDelivery(s, a);
  }

  lemma NobodyThere(s: Sys, id: int, o: Outcome)
    ensures id !in s.gets ==> StepGet(s, id, o) == s
    ensures id !in s.acks ==> StepAck(s, id, o) == s
    ensures id !in s.revokes ==> StepRevoke(s, id, o) == s
  {
  }

  lemma NewHandlersKeepServing(s: Sys, step: Step, orphans: set<int>)
    requires Serving(s, orphans) && BurntAfterDelivery(s)
    requires step.NewPut? || step.NewGet? || step.NewAck? || step.NewRevoke? || step.Tick?
    ensures
      var s' := Next(s, step);
      ServedRows(s'.db) && StampsAreDeliveries(s') && OneFires(s') && AuditOk(s') && BurntAfterDelivery(s')
  {
    hide Quiet, ServedRows, BurnEntries, ReaperEntries, StampsAreDeliveries, OneFires, AuditOk, BurntAfterDelivery;
    var s' := Next(s, step);
    NoMarkBurnKeepsDelivery(s, s', ShareDownloaded);
    NewHandlersKeepFiring(s, step);
    NewHandlersKeepAudit(s, step);
  }

  lemma NewHandlersKeepFiring(s: Sys, step: Step)
    requires OneFires(s) && StampsAreDeliveries(s)
    requires step.NewPut? || step.NewGet? || step.NewAck? || step.NewRevoke? || step.Tick?
    ensures OneFires(Next(s, step)) && StampsAreDeliveries(Next(s, step))
  {
    hide OneFires, StampsAreDeliveries;
    if step.NewGet? {
      NewGetKeepsFiring(s, step);
    } else if step.NewAck? {
      NewAckKeepsFiring(s, step);
    } else {
      OthersKeepFiring(s, Next(s, step));
    }
  }

  lemma NewGetKeepsFiring(s: Sys, step: Step)
    requires OneFires(s) && StampsAreDeliveries(s) && step.NewGet?
    ensures OneFires(Next(s, step)) && StampsAreDeliveries(Next(s, step))
  {
    var s' := Next(s, step);
    assert forall k :: GetFired(s', k) <==> GetFired(s, k);
    assert forall k :: AckFired(s', k) <==> AckFired(s, k);
  }

  lemma NewAckKeepsFiring(s: Sys, step: Step)
    requires OneFires(s) && StampsAreDeliveries(s) && step.NewAck?
    ensures OneFires(Next(s, step)) && StampsAreDeliveries(Next(s, step))
  {
    var s' := Next(s, step);
    assert forall k :: GetFired(s', k) <==> GetFired(s, k);
    assert forall k :: AckFired(s', k) <==> AckFired(s, k);
  }

  lemma NewHandlersKeepAudit(s: Sys, step: Step)
    requires AuditOk(s)
    requires step.NewPut? || step.NewGet? || step.NewAck? || step.NewRevoke? || step.Tick?
    ensures AuditOk(Next(s, step))
  {
    hide BurnEntries, ReaperEntries;
    var s' := Next(s, step);
    assert forall k :: BurnUnrecorded(s', k) <==> BurnUnrecorded(s, k);
  }

  lemma PutKeepsServing(s: Sys, id: int, o: Outcome, orphans: set<int>)
    requires Serving(s, orphans) && BurntAfterDelivery(s)
    ensures
      var s' := StepPut(s, id, o);
      ServedRows(s'.db) && StampsAreDeliveries(s') && OneFires(s') && AuditOk(s') && BurntAfterDelivery(s')
  {
    hide U.PutStep, ServedRows, BurnEntries, ReaperEntries;
    if id in s.puts {
      PutIsRefused(s.db, s.now, s.puts[id], o);
    }
    var s' := StepPut(s, id, o);
    assert forall k :: (GetFired(s', k) <==> GetFired(s, k)) && (AckFired(s', k) <==> AckFired(s, k));
    assert forall k :: BurnUnrecorded(s', k) <==> BurnUnrecorded(s, k);
  }

  lemma AckKeepsDelivery(s: Sys, id: int, o: Outcome, orphans: set<int>)
    requires Serving(s, orphans) && BurntAfterDelivery(s) && id in s.acks
    ensures BurntAfterDelivery(StepAck(s, id, o))
  {
    hide Quiet, ServedRows, StampsAreDeliveries, AuditOk, BurntAfterDelivery, G.AcknowledgeStep, AckBurns;
    AckSummary(s.db, s.now, s.acks[id], o);
    NoMarkBurnKeepsDelivery(s, StepAck(s, id, o), AckEntry(s.acks[id]));
  }

  lemma RevokeKeepsDelivery(s: Sys, id: int, o: Outcome)
    requires BurntAfterDelivery(s) && id in s.revokes
    ensures BurntAfterDelivery(StepRevoke(s, id, o))
  {
    hide BurntAfterDelivery;
    NoMarkBurnKeepsDelivery(s, StepRevoke(s, id, o), ShareDestroyed(SenderRevoke, Manual, None));
  }

  lemma ReaperKeepsDelivery(s: Sys, a: ReaperAction)
    requires BurntAfterDelivery(s)
    ensures BurntAfterDelivery(StepReaper(s, a))
  {
    hide BurntAfterDelivery, ListsRows, Reapable, ClassifyReason;
    var n := if s.reaper.Finalizing? then s.reaper.chunkCount else 0;
    NoMarkBurnKeepsDelivery(s, StepReaper(s, a), ShareDestroyed(Reaper, ClassifyReason(s.db.share), Some(n)));
  }

  lemma {:induction false} ServingRun(s: Sys, run: seq<Step>, orphans: set<int>)
    requires Serving(s, orphans) && BurntAfterDelivery(s)
    ensures Serving(Exec(s, run), orphans) && BurntAfterDelivery(Exec(s, run))
    decreases |run|
  {
    hide Next, Serving, BurntAfterDelivery;
    if run != [] {
      ServingStep(s, run[0], orphans);
      ServingRun(Next(s, run[0]), run[1..], orphans);
    }
  }

  /** The moment the theorems start from: an upload run from creation whose handlers have all answered, with the share ready. */
  ghost predicate Uploaded(s: Sys)
  {
    exists s0: Sys, run: seq<Step> :: Created(s0) && IsUploadRun(run) && s == Exec(s0, run) && AllFinished(s) && s.db.share.state == Ready
  }

  lemma UploadedServes(s: Sys, run: seq<Step>)
    requires Uploaded(s)
    ensures Serving(Exec(s, run), Orphans(s.db)) && BurntAfterDelivery(Exec(s, run))
  {
    hide Exec, Created, IsUploadRun, Serving, BurntAfterDelivery, Orphans;
    var s0: Sys, u: seq<Step> :| Created(s0) && IsUploadRun(u) && s == Exec(s0, u) && AllFinished(s) && s.db.share.state == Ready;
    CreatedIsUploadInv(s0);
    UploadRunKeeps(s0, u);
    UploadedIsServing(s);
    assert BurntAfterDelivery(s) by { NothingBurntYet(s); }
    ServingRun(s, run, Orphans(s.db));
  }

  lemma NothingBurntYet(s: Sys)
    requires UploadInv(s)
    ensures BurntAfterDelivery(s)
  {
  }

  /**
   * Burn after reading, over every interleaving of GET, `/downloaded`, `/destroy` and reaper calls with any
   * call failing or only half-succeeding. At most one caller sees itself fire the burn, and at most one burn
   * entry is written; when the ingest service fired it, bytes of every chunk have left; a burn share that is
   * still `ready` has a chunk not served yet; and the reaper's entry is there, once, exactly when the rows are
   * gone.
   */
  lemma BurnIsOnce(s0: Sys, run: seq<Step>)
    requires Uploaded(s0)
    ensures
      var s := Exec(s0, run);
      && (forall a, b :: GetFired(s, a) && GetFired(s, b) ==> a == b)
      && (forall a, b :: AckFired(s, a) && AckFired(s, b) ==> a == b)
      && (forall a, b :: GetFired(s, a) ==> !AckFired(s, b))
      && (forall a :: GetFired(s, a) || AckFired(s, a) ==> s.db.share.state == Destroyed)
      && BurnEntries(s.db.audit) <= 1
      && ((exists e :: e in s.db.audit && IsMarkBurn(e)) ==> Indexes(s.db.share.chunkCount) <= s.left)
      && s.db.share.state in {Ready, Expired, Destroyed}
      && (s.db.share.state == Ready && s.db.share.burnAfterRead ==> Unserved(s.db) != {})
      && ReaperEntries(s.db.audit) == (if s.db.chunks == map[] then 1 else 0)
  {
    UploadedServes(s0, run);
    hide Exec, Quiet, Unserved, BurnEntries, ReaperEntries, IsMarkBurn, Uploaded;
  }

  /** Once the reaper has finalised a share it stays without rows, is never a candidate again, and gets no second entry. */
  lemma FinalisedForGood(s0: Sys, run: seq<Step>, more: seq<Step>)
    requires Uploaded(s0) && Exec(s0, run).db.chunks == map[]
    ensures
      var s := Exec(s0, run + more);
      s.db.chunks == map[] && s.db.share.state == Destroyed && !Reapable(s.db, s.now) && s.reaper == Idle
      && ReaperEntries(s.db.audit) == 1
  {
    UploadedServes(s0, run);
    UploadedServes(s0, run + more);
    ExecAppend(s0, run, more);
    var s := Exec(s0, run + more);
    RowsStayGone(Exec(s0, run), more);
    hide Exec, Uploaded, Quiet, BurntAfterDelivery, OneFires, StampsAreDeliveries, ReaperEntries, BurnEntries;
  }

  lemma {:induction false} RowsStayGone(s: Sys, run: seq<Step>)
    requires NoUpload(s) && s.db.chunks == map[]
    ensures Exec(s, run).db.chunks == map[]
    decreases |run|
  {
    hide Next, NoUpload;
    if run != [] {
      NoUploadStep(s, run[0]);
      NoNewRows(s, run[0]);
      RowsStayGone(Next(s, run[0]), run[1..]);
    }
  }

  lemma NoNewRows(s: Sys, step: Step)
    requires NoUpload(s) && s.db.chunks == map[]
    ensures Next(s, step).db.chunks == map[]
  {
    hide U.PutStep, D.GetStep, G.AcknowledgeStep, G.RevokeStep;
    match step
    case PutCall(id, o) =>
      if id in s.puts {
        PutIsRefused(s.db, s.now, s.puts[id], o);
      }
    case GetCall(id, o) =>
      if id in s.gets {
        GetAdvances(s.db, s.now, s.gets[id], o);
        SameRows(s.db, Next(s, step).db);
      }
    case AckCall(id, o) =>
      if id in s.acks {
        AckAdvances(s.db, s.now, s.acks[id], o);
        SameRows(s.db, Next(s, step).db);
      }
    case RevokeCall(id, o) =>
      if id in s.revokes {
        RevokeAdvances(s.db, s.now, s.revokes[id], o);
        SameRows(s.db, Next(s, step).db);
      }
    case _ =>
  }
}
