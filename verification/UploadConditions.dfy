/**
 * Exact conditions for what an upload may lose: when `ready` stays, when a complete share is stranded, and when a
 * share's rows and blobs belong together.
 */
module UploadConditions {
  import opened Wrappers
  import opened Bytes
  import opened ShareModel
  import opened ShareStore
  import opened ShareSystem
  import opened UploadProofs
  import opened LifecycleProofs
  import U = UploadEndpoint

  lemma ExecOne(s: Sys, step: Step)
    ensures Exec(s, [step]) == Next(s, step)
  {
    assert [step][1..] == [];
    assert Exec(Next(s, step), []) == Next(s, step);
  }

  // ---- When ready stays ready ----

  /** The handler will write `uploading` if its calls succeed: it saw the share pending and has not written it yet. */
  predicate Demotes(p: U.Put)
  {
    match p.pc
    case StoreBlob(seen) => seen.state == Pending && U.IsWhole(p.req)
    case UpsertRow(seen) => seen.state == Pending
    case MarkUploading(_) => true
    case _ => false
  }

  ghost predicate NobodyDemotes(s: Sys)
  {
    forall id :: id in s.puts ==> !Demotes(s.puts[id])
  }

  /** A demoting handler left to itself overwrites whatever state it finds. */
  lemma DemotingRun(s: Sys, id: int) returns (run: seq<Step>)
    requires id in s.puts && Demotes(s.puts[id])
    ensures IsUploadRun(run) && Exec(s, run).db.share == s.db.share.(state := Uploading) && Exec(s, run).revokes == s.revokes
  {
    hide U.Nonce, U.Size, U.TokenHash, U.IsWhole;
    var p := s.puts[id];
    var k := if p.pc.StoreBlob? then 3 else if p.pc.UpsertRow? then 2 else 1;
    var o := AllApplied(k);
    run := Calls(id, o);
    SoloRunIsAMachineRun(s, id, o);
    U.RunOnce(s.db, s.now, p, o);
    var r1 := U.PutStep(s.db, s.now, p, Applied);
    if k > 1 {
      U.RunOnce(r1.0, s.now, r1.1, o[1..]);
      var r2 := U.PutStep(r1.0, s.now, r1.1, Applied);
      if k > 2 {
        U.RunOnce(r2.0, s.now, r2.1, o[1..][1..]);
      }
    }
  }

  lemma ReadyStays(s: Sys, step: Step)
    requires s.db.share.state == Ready && NobodyDemotes(s) && IsUploadStep(step)
    ensures Next(s, step).db.share.state == Ready && NobodyDemotes(Next(s, step))
  {
    hide U.Refusal, U.Nonce, U.Size, U.TokenHash, U.IsWhole;
    if step.PutCall? && step.id in s.puts {
      RefusedAtTheGate(s.db.share, s.now, s.puts[step.id].req);
    }
  }

  lemma {:induction false} ReadyStaysOverRuns(s: Sys, run: seq<Step>)
    requires s.db.share.state == Ready && NobodyDemotes(s) && IsUploadRun(run)
    ensures Exec(s, run).db.share.state == Ready && NobodyDemotes(Exec(s, run))
    decreases |run|
  {
    hide Next, NobodyDemotes;
    if run != [] {
      ReadyStays(s, run[0]);
      ReadyStaysOverRuns(Next(s, run[0]), run[1..]);
    }
  }

  /**
   * When `ready` is final for the upload: a ready share stays ready over every continuation if and only if no
   * handler that saw it pending is still short of writing `uploading`.
   */
  lemma ReadyStaysExactly(s: Sys)
    requires s.db.share.state == Ready
    ensures (forall run :: IsUploadRun(run) ==> Exec(s, run).db.share.state == Ready)
        <==> (forall id :: id in s.puts ==> !Demotes(s.puts[id]))
  {
    hide Exec, Demotes, IsUploadRun;
    if NobodyDemotes(s) {
      forall run | IsUploadRun(run)
        ensures Exec(s, run).db.share.state == Ready
      {
        ReadyStaysOverRuns(s, run);
      }
    } else {
      var id :| id in s.puts && Demotes(s.puts[id]);
      var run := DemotingRun(s, id);
      assert IsUploadRun(run) && Exec(s, run).db.share.state == Uploading;
    }
  }

  // ---- When a complete share is stranded ----

  /** No handler makes its first call, the one that reads the share. */
  ghost predicate NoReads(s: Sys, run: seq<Step>)
    decreases |run|
  {
    run == [] || (!ReadsShare(s, run[0]) && NoReads(Next(s, run[0]), run[1..]))
  }

  predicate ReadsShare(s: Sys, step: Step)
  {
    step.PutCall? && step.id in s.puts && s.puts[step.id].pc.ReadShare?
  }

  /** The handler has passed its checks, not yet answered, and will not stop at a broken body. */
  predicate CanFinish(p: U.Put)
  {
    p.InFlight() && (p.pc.StoreBlob? ==> U.IsWhole(p.req))
  }

  /** How many calls a handler has left at most. */
  function CallsLeft(p: U.Put): (n: nat)
  {
    match p.pc
    case ReadShare => 6
    case StoreBlob(_) => 5
    case UpsertRow(_) => 4
    case MarkUploading(_) => 3
    case Count(_) => 2
    case MarkReady => 1
    case Finished(_) => 0
  }

  /** A call of such a handler on a complete share: it stays complete, and the last call writes `ready`. */
  lemma FinishingCall(s: Sys, id: int)
    requires UploadInv(s) && Full(s.db) && id in s.puts && CanFinish(s.puts[id])
    ensures
      var s' := Next(s, PutCall(id, Applied));
      && UploadInv(s') && Full(s'.db) && id in s'.puts && CallsLeft(s'.puts[id]) < CallsLeft(s.puts[id])
      && (CanFinish(s'.puts[id]) || (s'.puts[id].pc.Finished? && s'.db.share.state == Ready))
  {
    hide U.Refusal, U.Nonce, U.Size, U.TokenHash, U.IsWhole;
    UploadStepKeeps(s, PutCall(id, Applied));
    CountMeansFull(s.db);
  }

  lemma AnsweredStays(s: Sys, id: int, k: nat)
    requires id in s.puts && s.puts[id].pc.Finished?
    ensures Exec(s, Calls(id, AllApplied(k))) == s && NoReads(s, Calls(id, AllApplied(k)))
    decreases k
  {
    var run := Calls(id, AllApplied(k));
    if k > 0 {
      AppliedCalls(id, k);
      assert s.puts[id := s.puts[id]] == s.puts;
      AnsweredStays(s, id, k - 1);
    }
  }

  lemma AppliedCalls(id: int, k: nat)
    requires k > 0
    ensures Calls(id, AllApplied(k)) == [PutCall(id, Applied)] + Calls(id, AllApplied(k - 1))
  {
    assert AllApplied(k)[1..] == AllApplied(k - 1);
  }

  /** Left to itself such a handler makes a complete share ready. */
  lemma {:induction false} FinishingRun(s: Sys, id: int, k: nat)
    requires UploadInv(s) && Full(s.db) && id in s.puts && CanFinish(s.puts[id]) && CallsLeft(s.puts[id]) <= k
    ensures Exec(s, Calls(id, AllApplied(k))).db.share.state == Ready && NoReads(s, Calls(id, AllApplied(k)))
    decreases k
  {
    hide Next, UploadInv, Full, U.IsWhole;
    AppliedCalls(id, k);
    FinishingCall(s, id);
    var run := Calls(id, AllApplied(k));
    var s' := Next(s, run[0]);
    assert run[1..] == Calls(id, AllApplied(k - 1));
    if CanFinish(s'.puts[id]) {
      FinishingRun(s', id, k - 1);
    } else {
      AnsweredStays(s', id, k - 1);
    }
  }

  ghost predicate NobodyFinishes(s: Sys)
  {
    forall id :: id in s.puts ==> !CanFinish(s.puts[id])
  }

  /** With nobody to finish, only a fresh read of the share could change anything. */
  lemma {:induction false} StrandedStays(s: Sys, run: seq<Step>)
    requires NobodyFinishes(s) && IsUploadRun(run) && NoReads(s, run)
    ensures Exec(s, run).db == s.db
    decreases |run|
  {
    if run != [] {
      IdleUploadStep(s, run[0]);
      hide Next, NobodyFinishes, ReadsShare;
      StrandedStays(Next(s, run[0]), run[1..]);
    }
  }

  lemma IdleUploadStep(s: Sys, step: Step)
    requires NobodyFinishes(s) && IsUploadStep(step) && !ReadsShare(s, step)
    ensures Next(s, step).db == s.db && NobodyFinishes(Next(s, step))
  {
    hide U.Refusal, U.Nonce, U.Size, U.TokenHash, U.IsWhole;
  }

  /**
   * When a complete share is stranded: with every row stored and the share not ready, the handlers already past
   * their first call can still make it ready if and only if one of them has not answered, and is not about to
   * refuse a broken body. Otherwise only a further PUT can.
   */
  lemma StrandedExactly(s: Sys)
    requires UploadInv(s) && Full(s.db) && s.db.share.state != Ready
    ensures (exists run :: IsUploadRun(run) && NoReads(s, run) && Exec(s, run).db.share.state == Ready)
        <==> (exists id :: id in s.puts && CanFinish(s.puts[id]))
  {
    hide Exec, NoReads, CanFinish, IsUploadRun, UploadInv, Full;
    if id :| id in s.puts && CanFinish(s.puts[id]) {
      AtMostFive(s.puts[id]);
      FinishingRun(s, id, 5);
      assert IsUploadRun(Calls(id, AllApplied(5)));
    } else {
      assert NobodyFinishes(s);
      forall run | IsUploadRun(run) && NoReads(s, run)
        ensures Exec(s, run).db.share.state != Ready
      {
        StrandedStays(s, run);
      }
    }
  }

  lemma AtMostFive(p: U.Put)
    requires CanFinish(p)
    ensures CallsLeft(p) <= 5
  {
  }

  // ---- What a 201 promises ----

  /** The handler has its row, if it is past storing it or has answered 201. */
  ghost predicate RowKept(db: Db, p: U.Put)
  {
    p.pc.MarkUploading? || p.pc.Count? || p.pc.MarkReady? || p.pc == U.Finished(201) ==> p.req.index in db.chunks
  }

  ghost predicate RowsKept(s: Sys)
  {
    forall id :: id in s.puts ==> RowKept(s.db, s.puts[id])
  }

  lemma PutKeepsItsRow(db: Db, now: int, p: U.Put, o: Outcome)
    requires RowKept(db, p)
    ensures
      var (db', p') := U.PutStep(db, now, p, o);
      RowKept(db', p') && forall i :: i in db.chunks ==> i in db'.chunks
  {
    hide U.Nonce, U.Size, U.TokenHash, U.IsWhole;
    if p.pc.ReadShare? {
      RefusalIsNo201(db.share, now, p.req);
    }
  }

  lemma RefusalIsNo201(share: ShareRow, now: int, q: U.Request)
    ensures U.Refusal(share, now, q) != Some(201)
  {
    hide U.Nonce, U.Size, U.TokenHash, U.IsWhole;
  }

  lemma {:induction false} RunKeepsRows(s: Sys, run: seq<Step>)
    requires RowsKept(s) && IsUploadRun(run)
    ensures RowsKept(Exec(s, run))
    decreases |run|
  {
    hide U.PutStep;
    if run != [] {
      if run[0].PutCall? && run[0].id in s.puts {
        PutKeepsItsRow(s.db, s.now, s.puts[run[0].id], run[0].o);
      }
      assert RowsKept(Next(s, run[0]));
      hide Next, RowsKept;
      RunKeepsRows(Next(s, run[0]), run[1..]);
    }
  }

  /** A 201 is kept: at every later moment of the upload, whatever fails, the chunk has its row. */
  lemma AnsweredHasItsRow(s0: Sys, run: seq<Step>, id: int)
    requires Created(s0) && IsUploadRun(run)
    requires id in Exec(s0, run).puts && Exec(s0, run).puts[id].pc == U.Finished(201)
    ensures Exec(s0, run).puts[id].req.index in Exec(s0, run).db.chunks
  {
    hide Exec;
    RunKeepsRows(s0, run);
  }

  /** Some handler answered 201 for this index. */
  ghost predicate Stored(s: Sys, i: int)
  {
    exists id :: id in s.puts && s.puts[id].req.index == i && s.puts[id].pc == U.Finished(201)
  }

  ghost predicate AllStored(s: Sys)
  {
    forall i :: IsIndex(i, s.db.share.chunkCount) ==> Stored(s, i)
  }

  /** What the sender waits for is enough: when no call fails, all handlers have answered, and 201 for every index, the share is ready. */
  lemma StoredUploadIsReady(s0: Sys, run: seq<Step>)
    requires Created(s0) && IsUploadRun(run) && NothingFails(run)
    requires AllFinished(Exec(s0, run)) && AllStored(Exec(s0, run))
    ensures Exec(s0, run).db.share.state == Ready
  {
    CleanUploadIsReady(s0, run);
    hide Exec, IsUploadRun, NothingFails, Created;
    var s := Exec(s0, run);
    forall i | IsIndex(i, s.db.share.chunkCount)
      ensures i in s.db.chunks
    {
      assert Stored(s, i);
      var id :| id in s.puts && s.puts[id].req.index == i && s.puts[id].pc == U.Finished(201);
      AnsweredHasItsRow(s0, run, id);
    }
  }

  // ---- When a row and its blob belong together ----

  /** The row and the blob of the request's index are both this request's. */
  predicate IsPair(db: Db, q: U.Request)
  {
    && q.index in db.chunks && q.index in db.blobs
    && db.blobs[q.index] == q.body
    && db.chunks[q.index].nonce == U.Nonce(q)
    && db.chunks[q.index].ciphertextSize == U.Size(q)
    && db.chunks[q.index].downloadTokenHash == U.TokenHash(q)
  }

  /** Some PUT stored both the row and the blob of index `i`. */
  ghost predicate Paired(s: Sys, i: int)
  {
    exists id :: id in s.puts && s.puts[id].req.index == i && IsPair(s.db, s.puts[id].req)
  }

  ghost predicate AllPaired(s: Sys)
  {
    forall i :: IsIndex(i, s.db.share.chunkCount) ==> Paired(s, i)
  }

  /** Different PUTs of one index differ in body and in nonce, as freshly drawn nonces make them. */
  ghost predicate Distinguished(s: Sys)
  {
    forall a, b :: a in s.puts && b in s.puts && s.puts[a].req.index == s.puts[b].req.index
      && (s.puts[a].req.body == s.puts[b].req.body || U.Nonce(s.puts[a].req) == U.Nonce(s.puts[b].req))
      ==> s.puts[a].req == s.puts[b].req
  }

  /** The handler is about to write a blob or a row. */
  predicate Writes(p: U.Put)
  {
    (p.pc.StoreBlob? && U.IsWhole(p.req)) || p.pc.UpsertRow?
  }

  /** Whatever is about to be written is what is stored already. */
  ghost predicate OnlyRewrites(s: Sys)
  {
    forall id :: id in s.puts && Writes(s.puts[id]) ==> IsPair(s.db, s.puts[id].req)
  }

  /** A call that rewrites what is stored changes no pair. */
  lemma RewritingKeepsPairs(db: Db, now: int, p: U.Put, o: Outcome, q: U.Request)
    requires db.share.state == Ready && !Demotes(p) && (Writes(p) ==> IsPair(db, p.req)) && IsPair(db, q)
    ensures IsPair(U.PutStep(db, now, p, o).0, q)
    ensures Writes(U.PutStep(db, now, p, o).1) ==> Writes(p)
  {
    hide U.Refusal, U.Nonce, U.Size, U.TokenHash, U.IsWhole;
    RefusedAtTheGate(db.share, now, p.req);
  }

  lemma PairsStay(s: Sys, step: Step)
    requires s.db.share.state == Ready && NobodyDemotes(s) && AllPaired(s) && OnlyRewrites(s) && IsUploadStep(step)
    ensures AllPaired(Next(s, step)) && OnlyRewrites(Next(s, step))
  {
    hide U.PutStep, IsPair;
    var s' := Next(s, step);
    if step.PutCall? && step.id in s.puts {
      assert s'.db.share.chunkCount == s.db.share.chunkCount by { PutKeepsCount(s.db, s.now, s.puts[step.id], step.o); }
      forall q | IsPair(s.db, q)
        ensures IsPair(s'.db, q)
      {
        RewritingKeepsPairs(s.db, s.now, s.puts[step.id], step.o, q);
      }
      PutKeepsRequest(s.db, s.now, s.puts[step.id], step.o);
    }
    forall i | IsIndex(i, s'.db.share.chunkCount)
      ensures Paired(s', i)
    {
      assert Paired(s, i);
      var id :| id in s.puts && s.puts[id].req.index == i && IsPair(s.db, s.puts[id].req);
      assert id in s'.puts && s'.puts[id].req == s.puts[id].req;
    }
    forall id | id in s'.puts && Writes(s'.puts[id])
      ensures IsPair(s'.db, s'.puts[id].req)
    {
      if id in s.puts {
        if step.PutCall? && step.id == id {
          NoNewWrites(s.db, s.now, s.puts[id], step.o);
        }
        assert IsPair(s.db, s.puts[id].req);
      }
    }
  }

  lemma PutKeepsCount(db: Db, now: int, p: U.Put, o: Outcome)
    ensures U.PutStep(db, now, p, o).0.share.chunkCount == db.share.chunkCount
  {
  }

  lemma PutKeepsRequest(db: Db, now: int, p: U.Put, o: Outcome)
    ensures U.PutStep(db, now, p, o).1.req == p.req
  {
  }

  lemma NoNewWrites(db: Db, now: int, p: U.Put, o: Outcome)
    requires db.share.state == Ready
    ensures Writes(U.PutStep(db, now, p, o).1) ==> Writes(p)
  {
    hide U.Refusal, U.Nonce, U.Size, U.TokenHash, U.IsWhole;
    RefusedAtTheGate(db.share, now, p.req);
  }

  lemma {:induction false} PairsStayOverRuns(s: Sys, run: seq<Step>)
    requires s.db.share.state == Ready && NobodyDemotes(s) && AllPaired(s) && OnlyRewrites(s) && IsUploadRun(run)
    ensures AllPaired(Exec(s, run))
    decreases |run|
  {
    hide Next, NobodyDemotes, AllPaired, OnlyRewrites;
    if run != [] {
      PairsStay(s, run[0]);
      ReadyStays(s, run[0]);
      PairsStayOverRuns(Next(s, run[0]), run[1..]);
    }
  }

  /** One call of a handler that writes something else parts the row of its index from the blob. */
  lemma OtherWriteParts(s: Sys, id: int)
    requires Distinguished(s) && AllPaired(s)
    requires id in s.puts && Writes(s.puts[id]) && !IsPair(s.db, s.puts[id].req)
    requires IsIndex(s.puts[id].req.index, s.db.share.chunkCount)
    ensures !AllPaired(Next(s, PutCall(id, Applied)))
  {
    hide U.Refusal, U.Nonce, U.Size, U.TokenHash, U.IsWhole;
    var s' := Next(s, PutCall(id, Applied));
    var p := s.puts[id];
    var i := p.req.index;
    assert Paired(s, i);
    var a :| a in s.puts && s.puts[a].req.index == i && IsPair(s.db, s.puts[a].req);
    var q := s.puts[a].req;
    forall b | b in s'.puts && s'.puts[b].req.index == i
      ensures !IsPair(s'.db, s'.puts[b].req)
    {
      assert b in s.puts && s.puts[b].req == s'.puts[b].req;
    }
    assert s'.db.share.chunkCount == s.db.share.chunkCount;
  }

  /**
   * When a share that stays ready keeps its rows beside their own blobs: over every continuation each index has
   * the row and the blob of one PUT, if and only if no handler is about to write a blob or a row other than the
   * stored ones.
   */
  lemma PairsStayExactly(s: Sys)
    requires UploadInv(s) && s.db.share.state == Ready && NobodyDemotes(s) && AllPaired(s) && Distinguished(s)
    ensures (forall run :: IsUploadRun(run) ==> AllPaired(Exec(s, run)))
        <==> (forall id :: id in s.puts && Writes(s.puts[id]) ==> IsPair(s.db, s.puts[id].req))
  {
    hide Exec, IsPair, AllPaired, Distinguished, NobodyDemotes, Writes;
    if OnlyRewrites(s) {
      forall run | IsUploadRun(run)
        ensures AllPaired(Exec(s, run))
      {
        PairsStayOverRuns(s, run);
      }
    } else {
      var id :| id in s.puts && Writes(s.puts[id]) && !IsPair(s.db, s.puts[id].req);
      WritersAreAccepted(s, id);
      OtherWriteParts(s, id);
      ExecOne(s, PutCall(id, Applied));
      assert IsUploadRun([PutCall(id, Applied)]);
    }
  }

  lemma WritersAreAccepted(s: Sys, id: int)
    requires UploadInv(s) && id in s.puts && Writes(s.puts[id])
    ensures IsIndex(s.puts[id].req.index, s.db.share.chunkCount)
  {
    assert PutOk(s.db, s.puts[id]);
  }

  // ---- Copies of one PUT ----

  /** Every PUT of an index is the same request, sent once or again. */
  ghost predicate Copies(run: seq<Step>, table: int -> U.Request)
  {
    forall k :: 0 <= k < |run| && run[k].NewPut? ==> run[k].req == table(run[k].req.index)
  }

  /** Everything stored under an index is the table's. */
  ghost predicate FromTable(s: Sys, table: int -> U.Request)
  {
    && (forall id :: id in s.puts ==> s.puts[id].req == table(s.puts[id].req.index))
    && (forall i :: i in s.db.blobs ==> s.db.blobs[i] == table(i).body)
    && (forall i :: i in s.db.chunks ==>
          && s.db.chunks[i].nonce == U.Nonce(table(i)) && s.db.chunks[i].ciphertextSize == U.Size(table(i))
          && s.db.chunks[i].downloadTokenHash == U.TokenHash(table(i)))
  }

  lemma StepFromTable(s: Sys, step: Step, table: int -> U.Request)
    requires FromTable(s, table) && IsUploadStep(step) && (step.NewPut? ==> step.req == table(step.req.index))
    ensures FromTable(Next(s, step), table)
  {
    hide U.PutStep, U.Nonce, U.Size, U.TokenHash;
    if step.PutCall? && step.id in s.puts {
      PutStores(s.db, s.now, s.puts[step.id], step.o);
      PutKeepsRequest(s.db, s.now, s.puts[step.id], step.o);
    }
  }

  /** A call stores nothing but its own request's blob and row. */
  lemma PutStores(db: Db, now: int, p: U.Put, o: Outcome)
    ensures
      var db' := U.PutStep(db, now, p, o).0;
      var i := p.req.index;
      && (forall k :: k in db'.blobs ==> (k in db.blobs && db'.blobs[k] == db.blobs[k]) || (k == i && db'.blobs[k] == p.req.body))
      && (forall k :: k in db'.chunks ==>
            || (k in db.chunks && db'.chunks[k] == db.chunks[k])
            || (k == i && db'.chunks[k].nonce == U.Nonce(p.req) && db'.chunks[k].ciphertextSize == U.Size(p.req)
                && db'.chunks[k].downloadTokenHash == U.TokenHash(p.req)))
  {
    hide U.Refusal, U.Nonce, U.Size, U.TokenHash, U.IsWhole;
  }

  lemma {:induction false} RunFromTable(s: Sys, run: seq<Step>, table: int -> U.Request)
    requires FromTable(s, table) && IsUploadRun(run) && Copies(run, table)
    ensures FromTable(Exec(s, run), table)
    decreases |run|
  {
    if run != [] {
      StepFromTable(s, run[0], table);
      hide Next, FromTable;
      assert IsUploadRun(run[1..]) && Copies(run[1..], table);
      RunFromTable(Next(s, run[0]), run[1..], table);
    }
  }

  /**
   * A sender that repeats a PUT only with the same request needs no lock: in every interleaving, with any failure,
   * a ready share has for each index that request's row and blob.
   */
  lemma CopiesArePaired(s0: Sys, run: seq<Step>, table: int -> U.Request)
    requires Created(s0) && IsUploadRun(run) && Copies(run, table)
    requires Exec(s0, run).db.share.state == Ready
    requires forall i :: table(i).index == i
    ensures
      var db := Exec(s0, run).db;
      forall i :: IsIndex(i, db.share.chunkCount) ==> IsPair(db, table(i))
  {
    RunFromTable(s0, run, table);
    CreatedIsUploadInv(s0);
    UploadRunKeeps(s0, run);
    hide Exec, Created, IsUploadRun, Copies, U.Nonce, U.Size, U.TokenHash;
  }

  // ---- And without that ----

  /** The state after two handlers that both saw the share pending have stored their blobs, handler 2 last. */
  function BothBlobsStored(s0: Sys, a: U.Request, b: U.Request): (s: Sys)
  {
    s0.(db := PutBlob(PutBlob(s0.db, a.index, a.body), b.index, b.body),
        puts := map[1 := U.Put(a, U.UpsertRow(s0.db.share), false), 2 := U.Put(b, U.UpsertRow(s0.db.share), false)])
  }

  function TwoBlobs(a: U.Request, b: U.Request): (run: seq<Step>)
  {
    [NewPut(1, a), NewPut(2, b), PutCall(1, Applied), PutCall(2, Applied), PutCall(1, Applied), PutCall(2, Applied)]
  }

  lemma ExecFrom(s: Sys, run: seq<Step>, k: nat)
    requires k < |run|
    ensures Exec(s, run[k..]) == Exec(Next(s, run[k]), run[k + 1..])
  {
    assert run[k..][0] == run[k] && run[k..][1..] == run[k + 1..];
  }

  /** Both have read the share as pending. */
  function BothRead(s0: Sys, a: U.Request, b: U.Request): (s: Sys)
  {
    s0.(puts := map[1 := U.Put(a, U.StoreBlob(s0.db.share), false), 2 := U.Put(b, U.StoreBlob(s0.db.share), false)])
  }

  lemma BothReadFirst(s0: Sys, a: U.Request, b: U.Request)
    requires Created(s0) && U.Accepts(s0.db.share, s0.now, a) && U.Accepts(s0.db.share, s0.now, b)
    ensures Exec(s0, TwoBlobs(a, b)) == Exec(BothRead(s0, a, b), TwoBlobs(a, b)[4..])
  {
    hide Exec, U.Refusal, U.IsWhole;
    var run := TwoBlobs(a, b);
    var s1 := Next(s0, run[0]);
    var s2 := Next(s1, run[1]);
    var s3 := Next(s2, run[2]);
    var s4 := Next(s3, run[3]);
    assert s4.puts == BothRead(s0, a, b).puts;
    assert run[0..] == run;
    ExecFrom(s0, run, 0);
    ExecFrom(s1, run, 1);
    ExecFrom(s2, run, 2);
    ExecFrom(s3, run, 3);
  }

  lemma BlobCall(s: Sys, id: int, q: U.Request, seen: ShareRow)
    requires id in s.puts && s.puts[id] == U.Put(q, U.StoreBlob(seen), false) && U.IsWhole(q)
    ensures Next(s, PutCall(id, Applied))
         == s.(db := PutBlob(s.db, q.index, q.body), puts := s.puts[id := U.Put(q, U.UpsertRow(seen), false)])
  {
    hide U.IsWhole;
  }

  lemma TwoBlobsRun(s0: Sys, a: U.Request, b: U.Request)
    requires Created(s0) && U.Accepts(s0.db.share, s0.now, a) && U.Accepts(s0.db.share, s0.now, b)
    ensures Exec(s0, TwoBlobs(a, b)) == BothBlobsStored(s0, a, b)
  {
    BothReadFirst(s0, a, b);
    hide Exec, Next, U.Refusal, U.IsWhole, Created;
    var run := TwoBlobs(a, b);
    var s4 := BothRead(s0, a, b);
    var s5 := Next(s4, run[4]);
    var s6 := Next(s5, run[5]);
    BlobCall(s4, 1, a, s0.db.share);
    BlobCall(s5, 2, b, s0.db.share);
    assert s6.puts == BothBlobsStored(s0, a, b).puts;
    assert run[6..] == [];
    ExecFrom(s4, run, 4);
    ExecFrom(s5, run, 5);
    assert Exec(s6, []) == s6 by { NoSteps(s6); }
  }

  lemma NoSteps(s: Sys)
    ensures Exec(s, []) == s
  {
  }

  /** A handler that saw the share pending, from its row on: the row, `uploading`, the count, and `ready`. */
  lemma FourCallsLeft(s: Sys, id: int, q: U.Request, seen: ShareRow)
    requires id in s.puts && s.puts[id] == U.Put(q, U.UpsertRow(seen), false) && seen.state == Pending
    requires s.db.chunks.Keys <= {0} && q.index == 0 && s.db.share.chunkCount == 1 && seen.chunkCount == 1
    ensures
      var (db, p) := U.Run(s.db, s.now, s.puts[id], AllApplied(4));
      && db == SetState(SetState(UpsertChunk(s.db, 0, U.Nonce(q), U.Size(q), s.now, U.TokenHash(q)), Uploading), Ready)
      && p == U.Put(q, U.Finished(201), false)
  {
    hide U.Nonce, U.Size, U.TokenHash;
    var o := AllApplied(4);
    var r1 := U.PutStep(s.db, s.now, s.puts[id], Applied);
    var r2 := U.PutStep(r1.0, s.now, r1.1, Applied);
    assert forall i :: i in r2.0.chunks ==> i == 0;
    assert r2.0.chunks.Keys == {0};
    OnlyChunk(r2.0);
    var r3 := U.PutStep(r2.0, s.now, r2.1, Applied);
    U.RunOnce(s.db, s.now, s.puts[id], o);
    U.RunOnce(r1.0, s.now, r1.1, o[1..]);
    U.RunOnce(r2.0, s.now, r2.1, o[1..][1..]);
    U.RunOnce(r3.0, s.now, r3.1, o[1..][1..][1..]);
  }

  /**
   * Blob and row are separate writes: two different PUTs of one index, their blobs stored in one order and their
   * rows in the other, leave a share that is ready, every handler answered 201, with one PUT's nonce beside the
   * other's ciphertext.
   */
  lemma RowBesideAnothersBlob(s0: Sys, a: U.Request, b: U.Request)
    requires Created(s0) && s0.db.share.chunkCount == 1
    requires U.Accepts(s0.db.share, s0.now, a) && U.Accepts(s0.db.share, s0.now, b)
    ensures
      var s := Exec(Exec(s0, TwoBlobs(a, b)), Calls(2, AllApplied(4)) + Calls(1, AllApplied(4)));
      && s.db.share.state == Ready && AllFinished(s)
      && 0 in s.db.chunks && 0 in s.db.blobs && s.db.chunks[0].nonce == U.Nonce(a) && s.db.blobs[0] == b.body
  {
    hide Exec, U.Refusal, U.Size, U.Nonce, U.TokenHash;
    RefusalLetsThrough(s0.db.share, s0.now, a);
    RefusalLetsThrough(s0.db.share, s0.now, b);
    TwoBlobsRun(s0, a, b);
    var s6 := BothBlobsStored(s0, a, b);
    ExecAppend(s6, Calls(2, AllApplied(4)), Calls(1, AllApplied(4)));
    SoloRunIsAMachineRun(s6, 2, AllApplied(4));
    FourCallsLeft(s6, 2, b, s0.db.share);
    var s10 := Exec(s6, Calls(2, AllApplied(4)));
    SoloRunIsAMachineRun(s10, 1, AllApplied(4));
    FourCallsLeft(s10, 1, a, s0.db.share);
  }
}
