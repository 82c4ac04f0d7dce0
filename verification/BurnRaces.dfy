/**
 * The burn raced on its two paths: `mark_chunk_served` by any number of GET handlers against any number of
 * `/downloaded` handlers, each of which reads the state in one call and runs its RPC in a later one. And the GET
 * handlers that come too late.
 */
module BurnRaces {
  import opened Wrappers
  import opened Bytes
  import opened ShareModel
  import opened ShareStore
  import opened ShareSystem
  import opened UploadProofs
  import opened LifecycleProofs
  import opened BurnProofs
  import U = UploadEndpoint
  import D = DownloadEndpoint
  import G = GatewayShares

  // ---- Somebody sees the burn ----

  /** Only the two racing paths run, no committed call is reported as failed, and audit inserts go through. */
  predicate Races(s: Sys, run: seq<Step>)
    decreases |run|
  {
    run == [] || (RaceStep(s, run[0]) && Races(Next(s, run[0]), run[1..]))
  }

  predicate RaceStep(s: Sys, step: Step)
  {
    match step
    case GetCall(_, o) => !o.AppliedLost?
    case AckCall(id, o) => !o.AppliedLost? && (id in s.acks && s.acks[id].pc.RecordAudit? ==> o.Applied?)
    case RevokeCall(_, _) => false
    case Reap(_) => false
    case _ => true
  }

  ghost predicate SomebodyFired(s: Sys)
  {
    exists id :: GetFired(s, id) || AckFired(s, id)
  }

  ghost predicate BurnOnRecord(s: Sys)
  {
    BurnEntries(s.db.audit) == 1 || exists id :: BurnUnrecorded(s, id)
  }

  ghost predicate Witnessed(s: Sys)
  {
    s.db.share.state == Destroyed ==> SomebodyFired(s) && BurnOnRecord(s)
  }

  lemma GetSeesItsBurn(db: Db, now: int, g: D.Get, o: Outcome)
    requires !o.AppliedLost?
    ensures GetBurns(db, now, g, o) ==> D.GetStep(db, now, g, o).1.burnFired
    ensures g.burnFired && g.pc.Finished? ==> D.GetStep(db, now, g, o).1.burnFired
    ensures !GetBurns(db, now, g, o) ==> D.GetStep(db, now, g, o).0.share == db.share
  {
  }

  lemma GetRaces(s: Sys, id: int, o: Outcome, orphans: set<int>)
    requires Serving(s, orphans) && Witnessed(s) && id in s.gets && !o.AppliedLost?
    ensures Witnessed(StepGet(s, id, o))
  {
    hide Quiet, ServedRows, AuditOk, D.GetStep, BurnEntries, ReaperEntries, Unserved, GetBurns;
    var g := s.gets[id];
    var s' := StepGet(s, id, o);
    GetSummary(s.db, s.now, g, o);
    GetSeesItsBurn(s.db, s.now, g, o);
    Appended(s.db.audit, ShareDestroyed(IngestLastChunk, Burn, Some(s.db.share.chunkCount)));
    assert forall k :: GetFired(s, k) ==> GetFired(s', k);
    assert forall k :: AckFired(s, k) ==> AckFired(s', k);
    assert forall k :: BurnUnrecorded(s, k) ==> BurnUnrecorded(s', k);
    if GetBurns(s.db, s.now, g, o) {
      assert GetFired(s', id);
      assert BurnEntries(s.db.audit) == 0 by { NoEntryWhileReady(s); }
    }
  }

  lemma NoEntryWhileReady(s: Sys)
    requires AuditOk(s) && s.db.share.state == Ready
    ensures BurnEntries(s.db.audit) == 0
  {
  }

  lemma AckSeesItsBurn(db: Db, now: int, a: G.Acknowledge, o: Outcome)
    requires !o.AppliedLost?
    ensures
      var (db', a') := G.AcknowledgeStep(db, now, a, o);
      && (AckBurns(db, now, a, o) ==> a'.sawBurn && a'.pc.RecordAudit?)
      && (a.sawBurn && !a.pc.CallRpc? ==> a'.sawBurn)
      && (!AckBurns(db, now, a, o) ==> db'.share.state == Destroyed ==> db.share.state == Destroyed)
  {
  }

  lemma AckRaces(s: Sys, id: int, o: Outcome, orphans: set<int>)
    requires Serving(s, orphans) && Witnessed(s) && id in s.acks && RaceStep(s, AckCall(id, o))
    ensures Witnessed(StepAck(s, id, o))
  {
    hide Quiet, ServedRows, G.AcknowledgeStep, BurnEntries, ReaperEntries, Unserved, AckBurns;
    var a := s.acks[id];
    var s' := StepAck(s, id, o);
    AckSummary(s.db, s.now, a, o);
    AckSeesItsBurn(s.db, s.now, a, o);
    Appended(s.db.audit, AckEntry(a));
    assert forall k :: GetFired(s, k) ==> GetFired(s', k);
    assert forall k :: AckFired(s, k) ==> AckFired(s', k);
    assert forall k :: BurnUnrecorded(s, k) ==> k == id || BurnUnrecorded(s', k);
    if AckBurns(s.db, s.now, a, o) {
      assert AckFired(s', id) && BurnUnrecorded(s', id);
    }
    if BurnUnrecorded(s, id) {
      assert BurnEntries(s.db.audit) == 0;
    }
  }

  lemma OthersRace(s: Sys, s': Sys)
    requires Witnessed(s) && s'.db == s.db
    requires forall id :: id in s.gets ==> id in s'.gets && s'.gets[id] == s.gets[id]
    requires forall id :: id in s.acks ==> id in s'.acks && s'.acks[id] == s.acks[id]
    ensures Witnessed(s')
  {
    assert forall k :: (GetFired(s, k) ==> GetFired(s', k)) && (AckFired(s, k) ==> AckFired(s', k));
    assert forall k :: BurnUnrecorded(s, k) ==> BurnUnrecorded(s', k);
  }

  lemma StepRaces(s: Sys, step: Step, orphans: set<int>)
    requires Serving(s, orphans) && Witnessed(s) && RaceStep(s, step)
    ensures Witnessed(Next(s, step))
  {
    hide Witnessed, ServedRows, StampsAreDeliveries, OneFires, AuditOk, D.GetStep, G.AcknowledgeStep, U.PutStep, ListIsFresh, Orphans;
    match step
    case GetCall(id, o) => if id in s.gets { GetRaces(s, id, o, orphans); }
    case AckCall(id, o) => if id in s.acks { AckRaces(s, id, o, orphans); }
    case PutCall(id, o) =>
      if id in s.puts {
        PutIsRefused(s.db, s.now, s.puts[id], o);
      }
      OthersRace(s, Next(s, step));
    case _ => OthersRace(s, Next(s, step));
  }

  lemma {:induction false} RunRaces(s: Sys, run: seq<Step>, orphans: set<int>)
    requires Serving(s, orphans) && BurntAfterDelivery(s) && Witnessed(s) && Races(s, run)
    ensures Witnessed(Exec(s, run))
    decreases |run|
  {
    hide Next, Serving, Witnessed, RaceStep, BurntAfterDelivery;
    if run != [] {
      StepRaces(s, run[0], orphans);
      ServingStep(s, run[0], orphans);
      RunRaces(Next(s, run[0]), run[1..], orphans);
    }
  }

  ghost predicate AllAnswered(s: Sys)
  {
    forall id :: id in s.acks ==> s.acks[id].pc.Answered?
  }

  /**
   * Exactly one caller fires the burn: over every interleaving of marks and split `/downloaded` handlers, with
   * calls failing, a destroyed share has one handler, a GET or a `/downloaded` and not both, that saw itself
   * destroy it; and when the `/downloaded` handlers have all answered there is exactly one burn entry.
   */
  lemma ExactlyOneFires(s0: Sys, run: seq<Step>)
    requires Uploaded(s0) && Races(s0, run)
    ensures
      var s := Exec(s0, run);
      s.db.share.state == Destroyed ==>
        && ((exists a :: GetFired(s, a)) <==> !(exists a :: AckFired(s, a)))
        && (forall a, b :: GetFired(s, a) && GetFired(s, b) ==> a == b)
        && (forall a, b :: AckFired(s, a) && AckFired(s, b) ==> a == b)
        && (AllAnswered(s) ==> BurnEntries(s.db.audit) == 1)
  {
    hide Exec, Uploaded, Races, BurnEntries, ReaperEntries, Quiet, ServedRows, BurntAfterDelivery;
    UploadedServes(s0, []);
    EmptyRun(s0);
    UploadedIsReady(s0);
    RunRaces(s0, run, Orphans(s0.db));
    UploadedServes(s0, run);
  }

  lemma EmptyRun(s: Sys)
    ensures Exec(s, []) == s
  {
  }

  lemma UploadedIsReady(s: Sys)
    requires Uploaded(s)
    ensures s.db.share.state == Ready && s.acks == map[]
  {
    hide Exec, Created, IsUploadRun;
    var s0: Sys, u: seq<Step> :| Created(s0) && IsUploadRun(u) && s == Exec(s0, u) && AllFinished(s) && s.db.share.state == Ready;
    CreatedIsUploadInv(s0);
    UploadRunKeeps(s0, u);
  }

  // ---- Nobody who races gets a 404 ----

  ghost predicate NoAck404(s: Sys)
  {
    forall id :: id in s.acks ==> !(s.acks[id].pc.Answered? && s.acks[id].pc.status == 404)
  }

  lemma AckIsNever404(db: Db, now: int, a: G.Acknowledge, o: Outcome)
    requires !(a.pc.Answered? && a.pc.status == 404)
    ensures var a' := G.AcknowledgeStep(db, now, a, o).1; !(a'.pc.Answered? && a'.pc.status == 404)
  {
  }

  /**
   * On an existing share no `/downloaded` caller is told 404, whatever it races against and whatever fails: the
   * RPC either raises, which the handler answers with the destroyed state, or returns its one row.
   */
  lemma {:induction false} NoAcknowledgeGets404(s: Sys, run: seq<Step>)
    requires NoAck404(s)
    ensures NoAck404(Exec(s, run))
    decreases |run|
  {
    if run != [] {
      Step404(s, run[0]);
      hide Next, NoAck404;
      NoAcknowledgeGets404(Next(s, run[0]), run[1..]);
    }
  }

  lemma Step404(s: Sys, step: Step)
    requires NoAck404(s)
    ensures NoAck404(Next(s, step))
  {
    hide U.PutStep, D.GetStep, G.AcknowledgeStep, G.RevokeStep;
    if step.AckCall? && step.id in s.acks {
      AckIsNever404(s.db, s.now, s.acks[step.id], step.o);
    }
  }

  // ---- GETs that come too late ----

  /** The chunk is gone or already served. */
  predicate Closed(db: Db, i: int)
  {
    i !in db.chunks || db.chunks[i].servedAt.Some?
  }

  /**
   * A GET that is too late: it has sent nothing, and its share read finds the share closed or is yet to find a
   * burn share whose chunk is served, or its chunk read is yet to come and the chunk of its burn share is served.
   */
  predicate TooLate(s: Sys, id: int)
  {
    && id in s.gets && !s.gets[id].sent
    && match s.gets[id].pc
       case ReadShare => !s.db.share.CanServeDownloads() || (s.db.share.burnAfterRead && Closed(s.db, s.gets[id].index))
       case ReadChunk(seen) => seen.burnAfterRead && Closed(s.db, s.gets[id].index)
       case Stream => false
       case Mark => false
       case Finished(_) => true
  }

  lemma LateGetStays(s: Sys, id: int, o: Outcome)
    requires TooLate(s, id)
    ensures TooLate(StepGet(s, id, o), id)
  {
  }

  lemma ClosedStays(db: Db, db': Db, i: int)
    requires Closed(db, i)
    requires Advance(db, db') || db'.chunks == map[] || db'.chunks == db.chunks
    ensures Closed(db', i)
  {
    assert i in db'.chunks ==> i in db'.chunks.Keys;
    assert i in db.chunks.Keys ==> i in db.chunks;
  }

  lemma OthersKeepItLate(s: Sys, s': Sys, id: int)
    requires TooLate(s, id) && id in s'.gets && s'.gets[id] == s.gets[id]
    requires Advance(s.db, s'.db) || ((s'.db.chunks == map[] || s'.db.chunks == s.db.chunks)
                                      && s'.db.share.burnAfterRead == s.db.share.burnAfterRead
                                      && Forward(s.db.share.state, s'.db.share.state))
    ensures TooLate(s', id)
  {
    if Closed(s.db, s.gets[id].index) {
      ClosedStays(s.db, s'.db, s.gets[id].index);
    }
  }

  lemma StepKeepsLate(s: Sys, step: Step, id: int)
    requires NoUpload(s) && TooLate(s, id)
    ensures TooLate(Next(s, step), id)
  {
    hide U.PutStep, D.GetStep, G.AcknowledgeStep, G.RevokeStep, Advance, TooLate, ListsRows, Reapable, ClassifyReason;
    assert id in s.gets by { LateIsThere(s, id); }
    match step
    case PutCall(k, o) =>
      if k in s.puts {
        PutIsRefused(s.db, s.now, s.puts[k], o);
      }
      OthersKeepItLate(s, Next(s, step), id);
    case GetCall(k, o) =>
      if k == id {
        LateGetStays(s, id, o);
      } else if k in s.gets {
        GetAdvances(s.db, s.now, s.gets[k], o);
        OthersKeepItLate(s, Next(s, step), id);
      }
    case AckCall(k, o) =>
      if k in s.acks {
        AckAdvances(s.db, s.now, s.acks[k], o);
        OthersKeepItLate(s, Next(s, step), id);
      }
    case RevokeCall(k, o) =>
      if k in s.revokes {
        RevokeAdvances(s.db, s.now, s.revokes[k], o);
        OthersKeepItLate(s, Next(s, step), id);
      }
    case _ => OthersKeepItLate(s, Next(s, step), id);
  }

  lemma LateIsThere(s: Sys, id: int)
    requires TooLate(s, id)
    ensures id in s.gets && !s.gets[id].sent
  {
  }

  lemma {:induction false} LateRun(s: Sys, id: int, run: seq<Step>)
    requires NoUpload(s) && TooLate(s, id)
    ensures TooLate(Exec(s, run), id)
    decreases |run|
  {
    hide Next, NoUpload, TooLate;
    if run != [] {
      NoUploadStep(s, run[0]);
      StepKeepsLate(s, run[0], id);
      LateRun(Next(s, run[0]), id, run[1..]);
    }
  }

  /**
   * A GET whose share read comes after the burn, or whose chunk read comes after that chunk's mark, never sends
   * a byte, at any moment of any run.
   */
  lemma LateGetsSendNothing(s0: Sys, before: seq<Step>, id: int, after: seq<Step>)
    requires NoUpload(s0)
    requires TooLate(Exec(s0, before), id)
    ensures id in Exec(s0, before + after).gets && !Exec(s0, before + after).gets[id].sent
  {
    hide NoUpload, TooLate, Exec;
    NoUploadRun(s0, before);
    ExecAppend(s0, before, after);
    LateRun(Exec(s0, before), id, after);
    LateIsThere(Exec(s0, before + after), id);
  }

  /** A mark that took effect closes its chunk, so every later chunk read of a burn share is too late. */
  lemma MarkCloses(s: Sys, id: int, o: Outcome, late: int)
    requires id in s.gets && s.gets[id].pc.Mark? && !o.Lost?
    requires late in s.gets && s.gets[late].index == s.gets[id].index && !s.gets[late].sent
    requires s.db.share.burnAfterRead
    requires s.gets[late].pc.ReadShare? || (s.gets[late].pc.ReadChunk? && s.gets[late].pc.seen.burnAfterRead)
    ensures TooLate(StepGet(s, id, o), late)
  {
  }
}
