/**
 * Exactly when `destroyed` and its date are final, for every state any run of anybody can reach: the state writes of
 * PUT handlers and of `/destroy` have no guard.
 */
module FinalityConditions {
  import opened Wrappers
  import opened Bytes
  import opened ShareModel
  import opened ShareStore
  import opened ShareSystem
  import opened UploadProofs
  import opened UploadConditions
  import opened LifecycleProofs
  import U = UploadEndpoint
  import D = DownloadEndpoint
  import G = GatewayShares

  // ---- What every run keeps, uploads and reaper together ----

  /** A handler past its checks works on an index of the share. */
  ghost predicate Knows(share: ShareRow, p: U.Put)
  {
    match p.pc
    case StoreBlob(seen) => seen.chunkCount == share.chunkCount && IsIndex(p.req.index, share.chunkCount)
    case UpsertRow(seen) => seen.chunkCount == share.chunkCount && IsIndex(p.req.index, share.chunkCount)
    case MarkUploading(seen) => seen.chunkCount == share.chunkCount
    case Count(seen) => seen.chunkCount == share.chunkCount
    case _ => true
  }

  ghost predicate Sane(s: Sys)
  {
    && s.db.share.chunkCount > 0 && InRange(s.db)
    && forall id :: id in s.puts ==> Knows(s.db.share, s.puts[id])
  }

  lemma PutKeepsSane(db: Db, now: int, p: U.Put, o: Outcome)
    requires InRange(db) && Knows(db.share, p)
    ensures
      var (db', p') := U.PutStep(db, now, p, o);
      InRange(db') && Knows(db.share, p') && db'.share.chunkCount == db.share.chunkCount
  {
    hide U.Refusal, U.Nonce, U.Size, U.TokenHash, U.IsWhole;
    if p.pc.ReadShare? && U.Refusal(db.share, now, p.req).None? {
      RefusalLetsThrough(db.share, now, p.req);
    }
  }

  lemma KnowsByCount(a: ShareRow, b: ShareRow, p: U.Put)
    requires a.chunkCount == b.chunkCount && Knows(a, p)
    ensures Knows(b, p)
  {
  }

  lemma AdvanceKeepsSane(s: Sys, s': Sys)
    requires Sane(s) && Advance(s.db, s'.db) && s'.puts == s.puts
    ensures Sane(s')
  {
    forall i | i in s'.db.chunks
      ensures IsIndex(i, s'.db.share.chunkCount) && s'.db.chunks[i].uploadedAt.Some?
    {
      assert i in s'.db.chunks.Keys && i in s.db.chunks;
    }
    forall id | id in s'.puts
      ensures Knows(s'.db.share, s'.puts[id])
    {
      KnowsByCount(s.db.share, s'.db.share, s.puts[id]);
    }
  }

  lemma ReaperKeepsSane(s: Sys, a: ReaperAction)
    requires Sane(s)
    ensures Sane(StepReaper(s, a))
  {
    hide ListsRows, Reapable, ClassifyReason, Knows;
    var s' := StepReaper(s, a);
    assert s'.db.share.chunkCount == s.db.share.chunkCount && s'.puts == s.puts;
    forall id | id in s'.puts
      ensures Knows(s'.db.share, s'.puts[id])
    {
      KnowsByCount(s.db.share, s'.db.share, s.puts[id]);
    }
  }

  lemma StepKeepsSane(s: Sys, step: Step)
    requires Sane(s)
    ensures Sane(Next(s, step))
  {
    hide U.PutStep, D.GetStep, G.AcknowledgeStep, G.RevokeStep, StepReaper, Advance, InRange;
    var s' := Next(s, step);
    match step
    case PutCall(id, o) =>
      if id in s.puts {
        PutKeepsSane(s.db, s.now, s.puts[id], o);
        forall k | k in s'.puts
          ensures Knows(s'.db.share, s'.puts[k])
        {
          KnowsByCount(s.db.share, s'.db.share, if k == id then s'.puts[k] else s.puts[k]);
        }
      }
    case GetCall(id, o) =>
      if id in s.gets {
        GetAdvances(s.db, s.now, s.gets[id], o);
        AdvanceKeepsSane(s, s');
      }
    case AckCall(id, o) =>
      if id in s.acks {
        AckAdvances(s.db, s.now, s.acks[id], o);
        AdvanceKeepsSane(s, s');
      }
    case RevokeCall(id, o) =>
      if id in s.revokes {
        RevokeAdvances(s.db, s.now, s.revokes[id], o);
        AdvanceKeepsSane(s, s');
      }
    case Reap(a) => ReaperKeepsSane(s, a);
    case _ =>
  }

  lemma {:induction false} RunKeepsSane(s: Sys, run: seq<Step>)
    requires Sane(s)
    ensures Sane(Exec(s, run))
    decreases |run|
  {
    hide Next, Sane;
    if run != [] {
      StepKeepsSane(s, run[0]);
      RunKeepsSane(Next(s, run[0]), run[1..]);
    }
  }

  // ---- Who can reopen a destroyed share ----

  /** The handler's next state write comes whatever it finds: `uploading` from one that saw the share pending, or `ready`. */
  predicate Overwrites(p: U.Put)
  {
    Demotes(p) || p.pc.MarkReady?
  }

  /** The handler is yet to count the rows. */
  predicate Counts(p: U.Put)
  {
    Writes(p) || p.pc.Count?
  }

  /** Every index has its row, or a handler about to write it. */
  ghost predicate Covered(s: Sys)
  {
    forall i :: IsIndex(i, s.db.share.chunkCount) ==> i in s.db.chunks || Coming(s, i)
  }

  ghost predicate Coming(s: Sys, i: int)
  {
    exists id :: id in s.puts && Writes(s.puts[id]) && s.puts[id].req.index == i
  }

  ghost predicate SomebodyOverwrites(s: Sys)
  {
    exists id :: id in s.puts && Overwrites(s.puts[id])
  }

  ghost predicate SomebodyCounts(s: Sys)
  {
    exists id :: id in s.puts && Counts(s.puts[id])
  }

  /** Some PUT in flight can still take the share out of its state. */
  ghost predicate CanReopen(s: Sys)
  {
    SomebodyOverwrites(s) || (SomebodyCounts(s) && Covered(s))
  }

  // ---- If nobody can, destroyed is final ----

  /** Rows only go, nobody new is about to write or count, and no state write is near. */
  lemma LessCannotReopen(s: Sys, s': Sys)
    requires !CanReopen(s) && s'.db.share.chunkCount == s.db.share.chunkCount
    requires s'.db.chunks.Keys <= s.db.chunks.Keys
    requires forall id :: id in s'.puts && id in s.puts ==> s'.puts[id] == s.puts[id]
    requires forall id :: id in s'.puts && id !in s.puts ==> s'.puts[id].pc.ReadShare?
    ensures !CanReopen(s')
  {
    forall id | id in s'.puts && (Overwrites(s'.puts[id]) || Counts(s'.puts[id]) || Writes(s'.puts[id]))
      ensures id in s.puts && s.puts[id] == s'.puts[id]
    {
    }
    if Covered(s') {
      forall i | IsIndex(i, s.db.share.chunkCount)
        ensures i in s.db.chunks || Coming(s, i)
      {
        if i in s'.db.chunks {
          assert i in s'.db.chunks.Keys && i in s.db.chunks.Keys;
        } else {
          assert Coming(s', i);
          var id :| id in s'.puts && Writes(s'.puts[id]) && s'.puts[id].req.index == i;
          assert id in s.puts && Writes(s.puts[id]) && s.puts[id].req.index == i;
        }
      }
    }
  }

  /** What a call of a handler that cannot reopen the share does to a destroyed one. */
  lemma HarmlessPut(db: Db, now: int, p: U.Put, o: Outcome)
    requires db.share.state == Destroyed && !Overwrites(p) && InRange(db) && Knows(db.share, p)
    requires p.pc.Count? ==> !Full(db)
    ensures
      var (db', p') := U.PutStep(db, now, p, o);
      && db'.share == db.share && !Overwrites(p') && (Writes(p') ==> Writes(p)) && (Counts(p') ==> Counts(p)) && p'.req == p.req
      && (forall i :: i in db'.chunks ==> i in db.chunks || (i == p.req.index && Writes(p)))
  {
    hide U.Refusal, U.Nonce, U.Size, U.TokenHash, U.IsWhole;
    RefusedAtTheGate(db.share, now, p.req);
    if p.pc.Count? && db.share.chunkCount > 0 {
      CountMeansFull(db);
    }
  }

  lemma HarmlessStep(s: Sys, id: int, o: Outcome)
    requires Sane(s) && s.db.share.state == Destroyed && !CanReopen(s) && id in s.puts
    ensures Next(s, PutCall(id, o)).db.share.state == Destroyed && !CanReopen(Next(s, PutCall(id, o)))
  {
    hide U.PutStep, Overwrites, Counts, Writes, Knows, InRange;
    var s' := Next(s, PutCall(id, o));
    var p := s.puts[id];
    assert !Overwrites(p);
    if p.pc.Count? {
      assert Counts(p) by { CountingCounts(p); }
      assert !Covered(s);
      if Full(s.db) {
        FullIsCovered(s);
        assert false;
      }
    }
    HarmlessPut(s.db, s.now, p, o);
    forall k | k in s'.puts
      ensures k in s.puts && (Overwrites(s'.puts[k]) ==> Overwrites(s.puts[k])) && (Counts(s'.puts[k]) ==> Counts(s.puts[k]))
      ensures (Writes(s'.puts[k]) ==> Writes(s.puts[k])) && s'.puts[k].req == s.puts[k].req
    {
    }
    if Covered(s') {
      forall i | IsIndex(i, s.db.share.chunkCount)
        ensures i in s.db.chunks || Coming(s, i)
      {
        if i !in s'.db.chunks {
          assert Coming(s', i);
          var k :| k in s'.puts && Writes(s'.puts[k]) && s'.puts[k].req.index == i;
          assert k in s.puts && Writes(s.puts[k]) && s.puts[k].req.index == i;
        }
      }
    }
  }

  lemma CountingCounts(p: U.Put)
    requires p.pc.Count?
    ensures Counts(p)
  {
  }

  lemma FullIsCovered(s: Sys)
    requires Full(s.db)
    ensures Covered(s)
  {
  }

  lemma SameKeys(db: Db, db': Db)
    requires Advance(db, db')
    ensures db'.chunks.Keys <= db.chunks.Keys && db'.share.chunkCount == db.share.chunkCount
    ensures db.share.state == Destroyed ==> db'.share.state == Destroyed
  {
  }

  lemma ReaperOnlyRemoves(s: Sys, a: ReaperAction)
    ensures
      var s' := StepReaper(s, a);
      && s'.db.chunks.Keys <= s.db.chunks.Keys && s'.db.share.chunkCount == s.db.share.chunkCount && s'.puts == s.puts
      && (s.db.share.state == Destroyed ==> s'.db.share.state == Destroyed)
  {
    hide ListsRows, Reapable, ClassifyReason;
  }

  lemma DestroyedStays(s: Sys, step: Step)
    requires Sane(s) && s.db.share.state == Destroyed && !CanReopen(s)
    ensures Next(s, step).db.share.state == Destroyed && !CanReopen(Next(s, step))
  {
    hide U.PutStep, D.GetStep, G.AcknowledgeStep, G.RevokeStep, StepReaper, Advance, CanReopen, Sane;
    var s' := Next(s, step);
    match step
    case PutCall(id, o) => if id in s.puts { HarmlessStep(s, id, o); }
    case GetCall(id, o) =>
      if id in s.gets {
        GetAdvances(s.db, s.now, s.gets[id], o);
        SameKeys(s.db, s'.db);
        LessCannotReopen(s, s');
      }
    case AckCall(id, o) =>
      if id in s.acks {
        AckAdvances(s.db, s.now, s.acks[id], o);
        SameKeys(s.db, s'.db);
        LessCannotReopen(s, s');
      }
    case RevokeCall(id, o) =>
      if id in s.revokes {
        RevokeAdvances(s.db, s.now, s.revokes[id], o);
        SameKeys(s.db, s'.db);
        LessCannotReopen(s, s');
      }
    case Reap(a) =>
      ReaperOnlyRemoves(s, a);
      LessCannotReopen(s, s');
    case _ => LessCannotReopen(s, s');
  }

  lemma {:induction false} DestroyedStaysOverRuns(s: Sys, run: seq<Step>)
    requires Sane(s) && s.db.share.state == Destroyed && !CanReopen(s)
    ensures Exec(s, run).db.share.state == Destroyed
    decreases |run|
  {
    hide Next, Sane, CanReopen;
    if run != [] {
      DestroyedStays(s, run[0]);
      StepKeepsSane(s, run[0]);
      DestroyedStaysOverRuns(Next(s, run[0]), run[1..]);
    }
  }

  // ---- If somebody can, it is reopened ----

  lemma HasElement(ids: set<int>)
    requires ids != {}
    ensures exists id: int :: id in ids
  {
    if forall id: int :: id !in ids {
      assert false;
    }
  }

  /** The handlers about to write a row. */
  ghost function Writers(s: Sys): (r: set<int>)
  {
    set id | id in s.puts && Writes(s.puts[id])
  }

  /** A writer that saw the share uploading stores its row and goes on to count. */
  lemma WriterStoresItsRow(s: Sys, id: int) returns (run: seq<Step>)
    requires Sane(s) && id in s.puts && Writes(s.puts[id]) && !Demotes(s.puts[id])
    ensures
      var s' := Exec(s, run);
      && s'.db.share == s.db.share && id in s'.puts && s'.puts[id].pc.Count? && s'.revokes == s.revokes
      && s'.db.chunks.Keys == s.db.chunks.Keys + {s.puts[id].req.index}
      && s'.puts.Keys == s.puts.Keys && (forall k :: k in s.puts && k != id ==> s'.puts[k] == s.puts[k])
  {
    hide U.Nonce, U.Size, U.TokenHash, U.IsWhole;
    var p := s.puts[id];
    var k := if p.pc.StoreBlob? then 2 else 1;
    var o := AllApplied(k);
    run := Calls(id, o);
    SoloRunIsAMachineRun(s, id, o);
    U.RunOnce(s.db, s.now, p, o);
    if k > 1 {
      var r1 := U.PutStep(s.db, s.now, p, Applied);
      U.RunOnce(r1.0, s.now, r1.1, o[1..]);
    }
  }

  /** The share is live again, and nothing else about it or its `/destroy` handlers has changed. */
  predicate IsReopened(s: Sys, s': Sys)
  {
    && (s'.db.share.state == Uploading || s'.db.share.state == Ready)
    && s'.db.share == s.db.share.(state := s'.db.share.state) && s'.revokes == s.revokes
  }

  lemma CounterPromotes(s: Sys, id: int) returns (run: seq<Step>)
    requires Sane(s) && Full(s.db) && id in s.puts && s.puts[id].pc.Count?
    ensures IsReopened(s, Exec(s, run))
  {
    var o := AllApplied(2);
    run := Calls(id, o);
    SoloRunIsAMachineRun(s, id, o);
    CountMeansFull(s.db);
    assert Knows(s.db.share, s.puts[id]);
    U.RunOnce(s.db, s.now, s.puts[id], o);
    var r1 := U.PutStep(s.db, s.now, s.puts[id], Applied);
    U.RunOnce(r1.0, s.now, r1.1, o[1..]);
  }

  lemma OverwriterWrites(s: Sys, id: int) returns (run: seq<Step>)
    requires id in s.puts && Overwrites(s.puts[id])
    ensures IsReopened(s, Exec(s, run))
  {
    if Demotes(s.puts[id]) {
      run := DemotingRun(s, id);
    } else {
      run := [PutCall(id, Applied)];
      ExecOne(s, run[0]);
    }
  }

  /** One writer fewer, the same indexes covered, and somebody still to count. */
  lemma StillCovered(s: Sys, s': Sys, id: int)
    requires Covered(s) && id in s.puts && Writes(s.puts[id])
    requires s'.db.share == s.db.share && id in s'.puts && s'.puts[id].pc.Count?
    requires s'.db.chunks.Keys == s.db.chunks.Keys + {s.puts[id].req.index}
    requires s'.puts.Keys == s.puts.Keys && (forall k :: k in s.puts && k != id ==> s'.puts[k] == s.puts[k])
    ensures Covered(s') && SomebodyCounts(s') && Writers(s') == Writers(s) - {id}
  {
    assert Counts(s'.puts[id]) by { CountingCounts(s'.puts[id]); }
    forall k
      ensures k in Writers(s') <==> k in Writers(s) - {id}
    {
      assert k in s'.puts <==> k in s'.puts.Keys;
      assert k in s.puts <==> k in s.puts.Keys;
    }
    forall i | IsIndex(i, s'.db.share.chunkCount)
      ensures i in s'.db.chunks || Coming(s', i)
    {
      if i in s.db.chunks || i == s.puts[id].req.index {
        assert i in s'.db.chunks.Keys;
      } else {
        assert Coming(s, i);
        var k :| k in s.puts && Writes(s.puts[k]) && s.puts[k].req.index == i;
        assert k in s'.puts.Keys && k != id;
      }
    }
  }

  /** The writers store their rows one after the other, and the last to count promotes. */
  lemma {:induction false} ReopeningRun(s: Sys) returns (run: seq<Step>)
    requires Sane(s) && CanReopen(s)
    ensures IsReopened(s, Exec(s, run))
    decreases |Writers(s)|
  {
    hide Exec, Overwrites, Writes, Counts, Knows, Full, Sane;
    if id :| id in s.puts && Overwrites(s.puts[id]) {
      run := OverwriterWrites(s, id);
    } else if id :| id in s.puts && Writes(s.puts[id]) {
      assert !Demotes(s.puts[id]) by { NotOverwriting(s.puts[id]); }
      var first := WriterStoresItsRow(s, id);
      var s' := Exec(s, first);
      StillCovered(s, s', id);
      assert id in Writers(s);
      RunKeepsSane(s, first);
      var rest := ReopeningRun(s');
      ExecAppend(s, first, rest);
      run := first + rest;
    } else {
      var id :| id in s.puts && Counts(s.puts[id]);
      assert s.puts[id].pc.Count? by { OnlyCounting(s.puts[id]); }
      assert Full(s.db) by { CoveredByRows(s); }
      run := CounterPromotes(s, id);
    }
  }

  lemma NotOverwriting(p: U.Put)
    requires !Overwrites(p)
    ensures !Demotes(p)
  {
  }

  lemma OnlyCounting(p: U.Put)
    requires Counts(p) && !Writes(p)
    ensures p.pc.Count?
  {
  }

  lemma CoveredByRows(s: Sys)
    requires Covered(s) && forall id :: id in s.puts ==> !Writes(s.puts[id])
    ensures Full(s.db)
  {
    hide Writes;
  }

  /**
   * Exactly when `destroyed` is final, for every state that any run of anybody reaches from creation: no
   * continuation takes the share out of `destroyed` if and only if no PUT in flight is still to overwrite the state
   * (one that saw the share pending and has not written `uploading`, or one about to write `ready`), and either no
   * PUT is still to count the rows or some index has neither its row nor a PUT about to write it.
   */
  lemma DestroyedIsFinalExactly(s0: Sys, before: seq<Step>)
    requires Created(s0) && Exec(s0, before).db.share.state == Destroyed
    ensures
      var s := Exec(s0, before);
      (forall run :: Exec(s, run).db.share.state == Destroyed) <==> !CanReopen(s)
  {
    hide Exec, CanReopen, Created, Sane;
    assert Sane(s0) by { CreatedIsSane(s0); }
    RunKeepsSane(s0, before);
    var s := Exec(s0, before);
    if CanReopen(s) {
      var run := ReopeningRun(s);
      assert Exec(s, run).db.share.state != Destroyed;
    } else {
      forall run
        ensures Exec(s, run).db.share.state == Destroyed
      {
        DestroyedStaysOverRuns(s, run);
      }
    }
  }

  lemma CreatedIsSane(s: Sys)
    requires Created(s)
    ensures Sane(s)
  {
  }

  /** While the reaper has not removed the rows of a complete share, any PUT in flight with its body whole will do. */
  lemma CompleteShareIsReopenedByAnyPut(s: Sys)
    requires Full(s.db)
    ensures CanReopen(s) <==> exists id :: id in s.puts && CanFinish(s.puts[id])
  {
    FullIsCovered(s);
    if id :| id in s.puts && CanFinish(s.puts[id]) {
      assert Overwrites(s.puts[id]) || Counts(s.puts[id]);
    }
  }

  // ---- The date ----

  /** A `/destroy` handler has checked its token and not yet written. */
  ghost predicate RevokeWaits(s: Sys)
  {
    exists id :: id in s.revokes && s.revokes[id].pc == G.UpdateRow
  }

  lemma NoNewRevoke(s: Sys, step: Step)
    requires NoUpload(s) && s.db.share.state == Destroyed && Dated(s.db) && !RevokeWaits(s)
    ensures !RevokeWaits(Next(s, step)) && Next(s, step).db.share.destroyedAt == s.db.share.destroyedAt
  {
    DateChangesOnlyByRevoke(s, step);
    hide U.PutStep, D.GetStep, G.AcknowledgeStep, NoUpload;
  }

  lemma {:induction false} DateStaysOverRuns(s: Sys, run: seq<Step>)
    requires NoUpload(s) && s.db.share.state == Destroyed && Dated(s.db) && !RevokeWaits(s)
    ensures Exec(s, run).db.share.destroyedAt == s.db.share.destroyedAt
    decreases |run|
  {
    hide Next, NoUpload, RevokeWaits;
    if run != [] {
      NoNewRevoke(s, run[0]);
      NoUploadStep(s, run[0]);
      StepIsForward(s, run[0]);
      StepKeepsDated(s, run[0]);
      DateStaysOverRuns(Next(s, run[0]), run[1..]);
    }
  }

  /**
   * Exactly when the date is final: on a destroyed share with no upload in flight, no continuation changes
   * `destroyed_at` if and only if no `/destroy` handler stands between its read and its write.
   */
  lemma DateIsFinalExactly(s: Sys)
    requires NoUpload(s) && s.db.share.state == Destroyed && Dated(s.db)
    ensures (forall run :: Exec(s, run).db.share.destroyedAt == s.db.share.destroyedAt)
        <==> (forall id :: id in s.revokes ==> s.revokes[id].pc != G.UpdateRow)
  {
    hide Exec;
    if RevokeWaits(s) {
      var id :| id in s.revokes && s.revokes[id].pc == G.UpdateRow;
      var d := if s.db.share.destroyedAt == Some(s.now) then 1 else 0;
      var run := [Tick(d), RevokeCall(id, Applied)];
      StaleRevokeMovesTheDate(s, id, d);
      assert Exec(s, run).db.share.destroyedAt != s.db.share.destroyedAt;
    } else {
      forall run
        ensures Exec(s, run).db.share.destroyedAt == s.db.share.destroyedAt
      {
        DateStaysOverRuns(s, run);
      }
    }
  }

  // ---- The date, with uploads in flight ----

  /** A destroyed share is dated, in every state any run reaches. */
  predicate DestroyedIsDated(db: Db)
  {
    db.share.state == Destroyed ==> db.share.destroyedAt.Some?
  }

  lemma PutKeepsDated(db: Db, now: int, p: U.Put, o: Outcome)
    requires DestroyedIsDated(db)
    ensures DestroyedIsDated(U.PutStep(db, now, p, o).0) && U.PutStep(db, now, p, o).0.share.destroyedAt == db.share.destroyedAt
  {
    hide U.Refusal, U.Nonce, U.Size, U.TokenHash, U.IsWhole;
  }

  lemma OthersKeepDated(db: Db, now: int, o: Outcome, g: D.Get, a: G.Acknowledge, v: G.Revoke)
    requires DestroyedIsDated(db)
    ensures DestroyedIsDated(D.GetStep(db, now, g, o).0)
    ensures DestroyedIsDated(G.AcknowledgeStep(db, now, a, o).0)
    ensures DestroyedIsDated(G.RevokeStep(db, now, v, o).0)
  {
  }

  lemma StepKeepsDestroyedDated(s: Sys, step: Step)
    requires DestroyedIsDated(s.db)
    ensures DestroyedIsDated(Next(s, step).db)
  {
    hide U.PutStep, D.GetStep, G.AcknowledgeStep, G.RevokeStep, ListsRows, Reapable, ClassifyReason;
    var g := if step.GetCall? && step.id in s.gets then s.gets[step.id] else D.Get(0, None, D.ReadShare, false, false);
    var a := if step.AckCall? && step.id in s.acks then s.acks[step.id] else G.Acknowledge(G.ReadState, false);
    var v := if step.RevokeCall? && step.id in s.revokes then s.revokes[step.id] else G.Revoke(None, G.ReadRow);
    match step
    case PutCall(id, o) =>
      if id in s.puts {
        PutKeepsDated(s.db, s.now, s.puts[id], o);
      }
    case GetCall(_, o) => OthersKeepDated(s.db, s.now, o, g, a, v);
    case AckCall(_, o) => OthersKeepDated(s.db, s.now, o, g, a, v);
    case RevokeCall(_, o) => OthersKeepDated(s.db, s.now, o, g, a, v);
    case _ =>
  }

  lemma {:induction false} RunKeepsDestroyedDated(s: Sys, run: seq<Step>)
    requires DestroyedIsDated(s.db)
    ensures DestroyedIsDated(Exec(s, run).db)
    decreases |run|
  {
    hide Next, DestroyedIsDated;
    if run != [] {
      StepKeepsDestroyedDated(s, run[0]);
      RunKeepsDestroyedDated(Next(s, run[0]), run[1..]);
    }
  }

  /** Only a waiting `/destroy` dates a destroyed share anew, and none comes to wait while the share is destroyed. */
  lemma DateStaysWhileDestroyed(s: Sys, step: Step)
    requires s.db.share.state == Destroyed && s.db.share.destroyedAt.Some? && !RevokeWaits(s)
    ensures Next(s, step).db.share.destroyedAt == s.db.share.destroyedAt && !RevokeWaits(Next(s, step))
  {
    hide U.PutStep, D.GetStep, G.AcknowledgeStep, StepReaper;
    match step
    case PutCall(id, o) =>
      if id in s.puts {
        PutKeepsDated(s.db, s.now, s.puts[id], o);
      }
    case GetCall(id, o) =>
      if id in s.gets {
        GetKeepsDate(s.db, s.now, s.gets[id], o);
      }
    case AckCall(id, o) =>
      if id in s.acks {
        AckKeepsDate(s.db, s.now, s.acks[id], o);
      }
    case Reap(a) =>
      ReaperKeepsDate(s, a);
      ReaperKeepsRevokes(s, a);
    case _ =>
  }

  lemma ReaperKeepsRevokes(s: Sys, a: ReaperAction)
    ensures StepReaper(s, a).revokes == s.revokes
  {
    hide ListsRows, Reapable, ClassifyReason;
  }

  lemma {:induction false} DateStaysOverAllRuns(s: Sys, run: seq<Step>)
    requires Sane(s) && s.db.share.state == Destroyed && s.db.share.destroyedAt.Some? && !RevokeWaits(s) && !CanReopen(s)
    ensures Exec(s, run).db.share.destroyedAt == s.db.share.destroyedAt
    decreases |run|
  {
    hide Next, Sane, CanReopen, RevokeWaits;
    if run != [] {
      DateStaysWhileDestroyed(s, run[0]);
      DestroyedStays(s, run[0]);
      StepKeepsSane(s, run[0]);
      DateStaysOverAllRuns(Next(s, run[0]), run[1..]);
    }
  }

  lemma {:induction false} FreshId(ids: set<int>) returns (id: int)
    ensures forall k :: k in ids ==> k < id
    decreases ids
  {
    if ids == {} {
      id := 0;
    } else {
      HasElement(ids);
      var x: int :| x in ids;
      var y := FreshId(ids - {x});
      id := if x < y then y else x + 1;
      assert forall k :: k in ids ==> k == x || k in ids - {x};
    }
  }

  /** A further `/destroy` with the right token, on a live share, dates it when it writes. */
  function OneRevoke(id: int, h: ByteString, d: nat): (run: seq<Step>)
  {
    [NewRevoke(id, Some(h)), RevokeCall(id, Applied), Tick(d), RevokeCall(id, Applied)]
  }

  lemma OneRevokeDates(s: Sys, id: int, h: ByteString, d: nat)
    requires id !in s.revokes && !s.db.share.Terminal() && s.db.share.revokeTokenHash == Some(h)
    ensures Exec(s, OneRevoke(id, h, d)).db.share.destroyedAt == Some(s.now + d)
  {
    hide Exec;
    var run := OneRevoke(id, h, d);
    var s1 := Next(s, run[0]);
    var s2 := Next(s1, run[1]);
    assert run[0..] == run && run[2..] == [Tick(d), RevokeCall(id, Applied)];
    ExecFrom(s, run, 0);
    ExecFrom(s1, run, 1);
    StaleRevokeMovesTheDate(s2, id, d);
  }

  /** A reopened share can be destroyed again, at a date of one's choice. */
  lemma ReopenedIsDatedAnew(s: Sys) returns (run: seq<Step>)
    requires Sane(s) && CanReopen(s) && s.db.share.revokeTokenHash.Some?
    ensures Exec(s, run).db.share.destroyedAt != s.db.share.destroyedAt
  {
    hide Exec, Sane, CanReopen;
    var first := ReopeningRun(s);
    var s' := Exec(s, first);
    var id := FreshId(s'.revokes.Keys);
    assert id !in s'.revokes.Keys;
    var d := if s.db.share.destroyedAt == Some(s'.now) then 1 else 0;
    var h := s.db.share.revokeTokenHash.value;
    OneRevokeDates(s', id, h, d);
    ExecAppend(s, first, OneRevoke(id, h, d));
    run := first + OneRevoke(id, h, d);
  }

  /**
   * Exactly when the date is final, uploads in flight or not: for every destroyed state any run of anybody reaches
   * on a share with a revoke token, no continuation changes `destroyed_at` if and only if no `/destroy` handler
   * stands between its read and its write and no PUT in flight can reopen the share. Without a token the condition
   * still suffices.
   */
  lemma DateIsFinalExactlyWithUploads(s0: Sys, before: seq<Step>)
    requires Created(s0) && Exec(s0, before).db.share.state == Destroyed
    ensures
      var s := Exec(s0, before);
      var final := forall run :: Exec(s, run).db.share.destroyedAt == s.db.share.destroyedAt;
      && (!RevokeWaits(s) && !CanReopen(s) ==> final)
      && (s.db.share.revokeTokenHash.Some? ==> (final <==> !RevokeWaits(s) && !CanReopen(s)))
  {
    hide Exec, CanReopen, Created, Sane;
    assert Sane(s0) && DestroyedIsDated(s0.db) by { CreatedIsSane(s0); CreatedIsUndated(s0); }
    RunKeepsSane(s0, before);
    RunKeepsDestroyedDated(s0, before);
    var s := Exec(s0, before);
    if RevokeWaits(s) {
      var id :| id in s.revokes && s.revokes[id].pc == G.UpdateRow;
      var d := if s.db.share.destroyedAt == Some(s.now) then 1 else 0;
      StaleRevokeMovesTheDate(s, id, d);
      assert Exec(s, [Tick(d), RevokeCall(id, Applied)]).db.share.destroyedAt != s.db.share.destroyedAt;
    } else if !CanReopen(s) {
      forall run
        ensures Exec(s, run).db.share.destroyedAt == s.db.share.destroyedAt
      {
        DateStaysOverAllRuns(s, run);
      }
    } else if s.db.share.revokeTokenHash.Some? {
      var run := ReopenedIsDatedAnew(s);
      assert Exec(s, run).db.share.destroyedAt != s.db.share.destroyedAt;
    }
  }

  lemma CreatedIsUndated(s: Sys)
    requires Created(s)
    ensures DestroyedIsDated(s.db)
  {
  }

  /** Two `/destroy` handlers with the right token: both read, the first writes, time passes, the second writes. */
  function TwoRevokes(h: ByteString): (run: seq<Step>)
  {
    [NewRevoke(1, Some(h)), NewRevoke(2, Some(h)), RevokeCall(1, Applied), RevokeCall(2, Applied), RevokeCall(1, Applied)]
  }

  /** The run that moves the date, from any live share with a token: destroyed now, and dated later. */
  lemma SecondRevokeMovesTheDate(s0: Sys, h: ByteString, d: nat)
    requires s0.revokes == map[] && !s0.db.share.Terminal() && s0.db.share.revokeTokenHash == Some(h) && d > 0
    ensures
      var destroyed := Exec(s0, TwoRevokes(h));
      var again := Exec(destroyed, [Tick(d), RevokeCall(2, Applied)]);
      && destroyed.db.share.state == Destroyed && destroyed.db.share.destroyedAt == Some(s0.now)
      && again.db.share.state == Destroyed && again.db.share.destroyedAt == Some(s0.now + d)
  {
    hide Exec;
    var run := TwoRevokes(h);
    var s1 := Next(s0, run[0]);
    var s2 := Next(s1, run[1]);
    var s3 := Next(s2, run[2]);
    var s4 := Next(s3, run[3]);
    var s5 := Next(s4, run[4]);
    assert run[0..] == run && run[5..] == [];
    ExecFrom(s0, run, 0);
    ExecFrom(s1, run, 1);
    ExecFrom(s2, run, 2);
    ExecFrom(s3, run, 3);
    ExecFrom(s4, run, 4);
    assert Exec(s5, []) == s5 by { NoSteps(s5); }
    StaleRevokeMovesTheDate(s5, 2, d);
  }
}
