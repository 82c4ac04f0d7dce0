/** What every interleaving of PUT handlers keeps, and where it ends. */
module UploadProofs {
  import opened Wrappers
  import opened Bytes
  import opened ShareModel
  import opened ShareStore
  import opened ShareSystem
  import U = UploadEndpoint

  /** The upload phase: PUT handlers start and take their calls in any order, and time passes. */
  predicate IsUploadStep(step: Step)
  {
    step.NewPut? || step.PutCall? || step.Tick?
  }

  ghost predicate IsUploadRun(run: seq<Step>)
  {
    forall k :: 0 <= k < |run| ==> IsUploadStep(run[k])
  }

  /** A size the ingest checks let through. */
  predicate FitsChunk(share: ShareRow, size: int)
  {
    0 < size <= share.chunkSize + U.AEAD_TAG_BYTES
  }

  ghost predicate AcceptedBy(share: ShareRow, seen: ShareRow, q: U.Request)
  {
    && seen.chunkCount == share.chunkCount && seen.chunkSize == share.chunkSize
    && IsIndex(q.index, share.chunkCount) && FitsChunk(share, U.Size(q))
  }

  /** What a handler between two calls knows of the rows: its blob is stored before its row, its row before its count. */
  ghost predicate PutOk(db: Db, p: U.Put)
  {
    match p.pc
    case ReadShare => true
    case StoreBlob(seen) => AcceptedBy(db.share, seen, p.req)
    case UpsertRow(seen) => AcceptedBy(db.share, seen, p.req) && p.req.index in db.blobs
    case MarkUploading(seen) => AcceptedBy(db.share, seen, p.req) && p.req.index in db.chunks
    case Count(seen) => AcceptedBy(db.share, seen, p.req) && p.req.index in db.chunks
    case MarkReady => Full(db)
    case Finished(_) => true
  }

  ghost predicate RowsOk(db: Db)
  {
    && InRange(db)
    && (forall i :: i in db.chunks ==> i in db.blobs && db.chunks[i].servedAt.None? && FitsChunk(db.share, db.chunks[i].ciphertextSize))
    && (forall i :: i in db.blobs ==> IsIndex(i, db.share.chunkCount) && FitsChunk(db.share, |db.blobs[i]|))
  }

  ghost predicate UploadInv(s: Sys)
  {
    && s.db.share.chunkCount > 0 && s.db.share.destroyedAt.None?
    && s.db.share.state in {Pending, Uploading, Ready}
    && (s.db.share.state == Ready ==> Full(s.db))
    && RowsOk(s.db)
    && (forall id :: id in s.puts ==> PutOk(s.db, s.puts[id]))
    && s.gets == map[] && s.acks == map[] && s.revokes == map[] && s.reaper == Idle && s.left == {} && s.db.audit == []
  }

  /** A handler that will still write `ready` if every row is there, or whose error handler gave that up. */
  predicate WillPromote(p: U.Put)
  {
    p.pc.MarkUploading? || p.pc.Count? || p.pc.MarkReady? || p.gaveUp
  }

  /** Nobody needs a lock: whenever all rows are there and the share is not ready, somebody is yet to say so. */
  ghost predicate PromotionPending(s: Sys)
  {
    Full(s.db) && s.db.share.state != Ready ==> exists id :: id in s.puts && WillPromote(s.puts[id])
  }

  lemma RefusalLetsThrough(share: ShareRow, now: int, q: U.Request)
    requires U.Refusal(share, now, q).None?
    ensures AcceptedBy(share, share, q)
    ensures q.index != share.chunkCount - 1 ==> U.Size(q) == share.chunkSize + U.AEAD_TAG_BYTES
    ensures U.Size(q) <= U.MAX_CHUNK_BYTES
  {
  }

  /** Rows and blobs only accumulate, so what a waiting handler knows stays true. */
  lemma PutOkGrows(db: Db, db': Db, p: U.Put)
    requires PutOk(db, p)
    requires db.chunks.Keys <= db'.chunks.Keys && db.blobs.Keys <= db'.blobs.Keys
    requires db'.share.chunkCount == db.share.chunkCount && db'.share.chunkSize == db.share.chunkSize
    ensures PutOk(db', p)
  {
    assert forall i :: i in db.chunks ==> i in db.chunks.Keys && i in db'.chunks.Keys;
    assert forall i :: i in db.blobs ==> i in db.blobs.Keys && i in db'.blobs.Keys;
  }

  /** What a handler may rely on before a call: its own knowledge, the rows, and a state that is not too far ahead of them. */
  ghost predicate Coherent(db: Db, p: U.Put)
  {
    && RowsOk(db) && PutOk(db, p) && db.share.chunkCount > 0
    && db.share.state in {Pending, Uploading, Ready} && (db.share.state == Ready ==> Full(db))
  }

  /** What one call does: rows and blobs grow, the state stays behind them, and a handler that completes them will promote. */
  ghost predicate Grows(db: Db, p: U.Put, db': Db, p': U.Put)
  {
    && Coherent(db', p')
    && db.chunks.Keys <= db'.chunks.Keys && db.blobs.Keys <= db'.blobs.Keys
    && db'.share == db.share.(state := db'.share.state) && db'.audit == db.audit
    && (Full(db') && db'.share.state != Ready ==>
          || WillPromote(p')
          || (Full(db) && db.share.state != Ready && !WillPromote(p)))
  }

  lemma BlobCallKeeps(db: Db, now: int, p: U.Put, o: Outcome)
    requires Coherent(db, p) && p.pc.StoreBlob?
    ensures Grows(db, p, U.PutStep(db, now, p, o).0, U.PutStep(db, now, p, o).1)
  {
    hide U.Refusal, U.Nonce, U.Size, U.TokenHash;
  }

  lemma RowCallKeeps(db: Db, now: int, p: U.Put, o: Outcome)
    requires Coherent(db, p) && p.pc.UpsertRow?
    ensures Grows(db, p, U.PutStep(db, now, p, o).0, U.PutStep(db, now, p, o).1)
  {
    hide U.Refusal, U.Nonce, U.Size, U.TokenHash;
  }

  lemma StateCallKeeps(db: Db, now: int, p: U.Put, o: Outcome)
    requires Coherent(db, p) && !p.pc.StoreBlob? && !p.pc.UpsertRow?
    ensures Grows(db, p, U.PutStep(db, now, p, o).0, U.PutStep(db, now, p, o).1)
  {
    hide U.Refusal, U.Nonce, U.Size, U.TokenHash;
    match p.pc
    case ReadShare =>
      if o.Applied? && U.Refusal(db.share, now, p.req).None? {
        RefusalLetsThrough(db.share, now, p.req);
      }
    case Count(seen) =>
      CountMeansFull(db);
    case _ =>
  }

  /** One call of one handler: what it leaves in the rows and what it learns. */
  lemma PutStepKeeps(db: Db, now: int, p: U.Put, o: Outcome)
    requires Coherent(db, p)
    ensures Grows(db, p, U.PutStep(db, now, p, o).0, U.PutStep(db, now, p, o).1)
  {
    hide *;
    match p.pc
    case StoreBlob(_) => BlobCallKeeps(db, now, p, o);
    case UpsertRow(_) => RowCallKeeps(db, now, p, o);
    case _ => StateCallKeeps(db, now, p, o);
  }

  lemma UploadStepKeeps(s: Sys, step: Step)
    requires UploadInv(s) && IsUploadStep(step)
    ensures UploadInv(Next(s, step))
    ensures PromotionPending(s) ==> PromotionPending(Next(s, step))
  {
    hide U.PutStep, PutOk, RowsOk, WillPromote;
    var s' := Next(s, step);
    match step
    case NewPut(id, req) =>
      if id !in s.puts {
        NewPutIsOk(s.db, req);
        if PromotionPending(s) {
          PromoterStays(s, s');
        }
      }
    case PutCall(id, o) =>
      if id in s.puts {
        PutStepKeeps(s.db, s.now, s.puts[id], o);
        forall k | k in s'.puts
          ensures PutOk(s'.db, s'.puts[k])
        {
          if k != id {
            PutOkGrows(s.db, s'.db, s.puts[k]);
          }
        }
        if PromotionPending(s) && Full(s'.db) && s'.db.share.state != Ready && !WillPromote(s'.puts[id]) {
          var k :| k in s.puts && WillPromote(s.puts[k]);
          assert k in s'.puts && WillPromote(s'.puts[k]);
        }
        assert id in s'.puts;
      }
    case Tick(d) =>
  }

  lemma NewPutIsOk(db: Db, req: U.Request)
    ensures PutOk(db, U.Put(req, U.ReadShare, false))
  {
  }

  lemma PromoterStays(s: Sys, s': Sys)
    requires s'.db == s.db && (forall k :: k in s.puts ==> k in s'.puts && s'.puts[k] == s.puts[k])
    requires PromotionPending(s)
    ensures PromotionPending(s')
  {
    if Full(s.db) && s.db.share.state != Ready {
      var k :| k in s.puts && WillPromote(s.puts[k]);
      assert k in s'.puts && WillPromote(s'.puts[k]);
    }
  }

  lemma {:induction false} UploadRunKeeps(s: Sys, run: seq<Step>)
    requires UploadInv(s) && PromotionPending(s) && IsUploadRun(run)
    ensures UploadInv(Exec(s, run)) && PromotionPending(Exec(s, run))
    decreases |run|
  {
    hide Next, UploadInv, PromotionPending;
    if run != [] {
      UploadStepKeeps(s, run[0]);
      UploadRunKeeps(Next(s, run[0]), run[1..]);
    }
  }

  lemma CreatedIsUploadInv(s: Sys)
    requires Created(s)
    ensures UploadInv(s) && PromotionPending(s)
  {
    assert IsIndex(0, s.db.share.chunkCount);
  }

  ghost predicate AllFinished(s: Sys)
  {
    forall id :: id in s.puts ==> s.puts[id].pc.Finished?
  }

  /**
   * Convergence, for any number of PUT handlers in any interleaving, with any failure at any call: once every
   * handler has answered and every index has its row, the share is ready, unless some handler was stopped by
   * an error after its row was stored.
   */
  lemma UploadConverges(s0: Sys, run: seq<Step>)
    requires Created(s0) && IsUploadRun(run)
    ensures
      var s := Exec(s0, run);
      AllFinished(s) && Full(s.db) ==>
        s.db.share.state == Ready || exists id :: id in s.puts && s.puts[id].gaveUp
  {
    CreatedIsUploadInv(s0);
    UploadRunKeeps(s0, run);
  }

  /** Every call of the run takes effect and says so. */
  ghost predicate NothingFails(run: seq<Step>)
  {
    forall k :: 0 <= k < |run| && run[k].PutCall? ==> run[k].o == Applied
  }

  ghost predicate NobodyGaveUp(s: Sys)
  {
    forall id :: id in s.puts ==> !s.puts[id].gaveUp
  }

  lemma NobodyGivesUpNow(s: Sys, step: Step)
    requires NobodyGaveUp(s) && IsUploadStep(step) && (step.PutCall? ==> step.o == Applied)
    ensures NobodyGaveUp(Next(s, step))
  {
    hide U.Refusal, U.Nonce, U.Size, U.TokenHash;
  }

  lemma {:induction false} NobodyGivesUp(s: Sys, run: seq<Step>)
    requires NobodyGaveUp(s) && IsUploadRun(run) && NothingFails(run)
    ensures NobodyGaveUp(Exec(s, run))
    decreases |run|
  {
    if run != [] {
      NobodyGivesUpNow(s, run[0]);
      hide Next, NobodyGaveUp;
      assert IsUploadRun(run[1..]) && NothingFails(run[1..]);
      NobodyGivesUp(Next(s, run[0]), run[1..]);
    }
  }

  /** When no call fails, a complete upload whose handlers have all answered is always ready. */
  lemma CleanUploadIsReady(s0: Sys, run: seq<Step>)
    requires Created(s0) && IsUploadRun(run) && NothingFails(run)
    ensures AllFinished(Exec(s0, run)) && Full(Exec(s0, run).db) ==> Exec(s0, run).db.share.state == Ready
  {
    hide Exec, IsUploadRun, NothingFails, Full;
    UploadConverges(s0, run);
    NobodyGivesUp(s0, run);
  }

  /**
   * Safety, at every moment of every run, also while the state still flickers: a share that says `ready` has
   * for each index exactly one row, nothing else, and every blob stored.
   */
  lemma ReadyIsComplete(s0: Sys, run: seq<Step>)
    requires Created(s0) && IsUploadRun(run)
    ensures
      var s := Exec(s0, run);
      s.db.share.state == Ready ==>
        && s.db.chunks.Keys == Indexes(s.db.share.chunkCount)
        && |s.db.chunks| == s.db.share.chunkCount
        && s.db.blobs.Keys == Indexes(s.db.share.chunkCount)
  {
    CreatedIsUploadInv(s0);
    UploadRunKeeps(s0, run);
    var s := Exec(s0, run);
    if s.db.share.state == Ready {
      CountMeansFull(s.db);
      IndexCount(s.db.share.chunkCount);
      assert |s.db.chunks| == |s.db.chunks.Keys|;
      forall i
        ensures i in s.db.blobs.Keys <==> i in Indexes(s.db.share.chunkCount)
      {
        assert i in s.db.chunks <==> i in s.db.chunks.Keys;
      }
    }
  }

  // ---- Storage bound ----

  /** The ciphertext bytes stored under the first `k` indexes. */
  function StoredBytes(blobs: map<int, ByteString>, k: nat): (r: int)
  {
    if k == 0 then 0 else StoredBytes(blobs, k - 1) + if k - 1 in blobs then |blobs[k - 1]| else 0
  }

  lemma {:induction false} StoredBytesBound(blobs: map<int, ByteString>, cap: nat, k: nat)
    requires forall i :: i in blobs ==> |blobs[i]| <= cap
    ensures StoredBytes(blobs, k) <= k * cap
  {
    if k > 0 {
      StoredBytesBound(blobs, cap, k - 1);
      assert k * cap == (k - 1) * cap + cap;
    }
  }

  /**
   * Whatever is uploaded and uploaded again, in any interleaving and with any failure, a share the gateway let
   * be created never stores more than the file cap and one tag for each chunk.
   */
  lemma StorageIsBounded(s0: Sys, run: seq<Step>, maxFile: nat)
    requires Created(s0) && IsUploadRun(run)
    requires s0.db.share.chunkSize > 0 && s0.db.share.chunkCount * s0.db.share.chunkSize <= maxFile
    ensures
      var db := Exec(s0, run).db;
      && db.blobs.Keys <= Indexes(db.share.chunkCount) && db.share.chunkCount >= 0
      && StoredBytes(db.blobs, db.share.chunkCount) <= maxFile + U.AEAD_TAG_BYTES * db.share.chunkCount
  {
    CreatedIsUploadInv(s0);
    UploadRunKeeps(s0, run);
    UploadRunKeepsShape(s0, run);
    var db := Exec(s0, run).db;
    var n, c := db.share.chunkCount, db.share.chunkSize;
    StoredBytesBound(db.blobs, c + U.AEAD_TAG_BYTES, n);
    assert n * (c + U.AEAD_TAG_BYTES) == n * c + U.AEAD_TAG_BYTES * n;
    forall i | i in db.blobs.Keys
      ensures i in Indexes(n)
    {
      assert i in db.blobs;
    }
  }

  lemma {:induction false} UploadRunKeepsShape(s: Sys, run: seq<Step>)
    requires UploadInv(s) && PromotionPending(s) && IsUploadRun(run)
    ensures Exec(s, run).db.share == s.db.share.(state := Exec(s, run).db.share.state)
    decreases |run|
  {
    hide UploadInv, PromotionPending;
    if run != [] {
      UploadStepKeeps(s, run[0]);
      UploadStepKeepsShape(s, run[0]);
      UploadRunKeepsShape(Next(s, run[0]), run[1..]);
    }
  }

  lemma UploadStepKeepsShape(s: Sys, step: Step)
    requires UploadInv(s) && IsUploadStep(step)
    ensures Next(s, step).db.share == s.db.share.(state := Next(s, step).db.share.state)
  {
    hide U.PutStep, RowsOk, PutOk;
    if step.PutCall? && step.id in s.puts {
      PutStepKeeps(s.db, s.now, s.puts[step.id], step.o);
    }
  }

  // ---- Repair, and the runs that show what the theorems must allow ----

  /** A share left behind with all its rows is made ready by one more undisturbed PUT of any accepted chunk. */
  lemma OnePutRepairs(db: Db, now: int, q: U.Request, outcomes: seq<Outcome>)
    requires RowsOk(db) && Full(db) && db.share.chunkCount > 0
    requires U.Accepts(db.share, now, q)
    requires |outcomes| == U.CALLS && forall k :: 0 <= k < U.CALLS ==> outcomes[k] == Applied
    ensures U.Run(db, now, U.Put(q, U.ReadShare, false), outcomes).0.share.state == Ready
  {
    hide U.Refusal, U.Nonce, U.Size, U.TokenHash;
    RefusalLetsThrough(db.share, now, q);
    U.UnfoldRun(db, now, U.Put(q, U.ReadShare, false), outcomes);
    var upserted := UpsertChunk(PutBlob(db, q.index, q.body), q.index, U.Nonce(q), U.Size(q), now, U.TokenHash(q));
    CountMeansFull(upserted);
    CountMeansFull(SetState(upserted, Uploading));
  }

  /** The next calls of handler `id`, one for each outcome, with nobody running between. */
  function Calls(id: int, outcomes: seq<Outcome>): (r: seq<Step>)
    ensures |r| == |outcomes| && IsUploadRun(r)
  {
    if outcomes == [] then [] else [PutCall(id, outcomes[0])] + Calls(id, outcomes[1..])
  }

  /** The handler method's solo run is one of the machine's runs. */
  lemma {:induction false} SoloRunIsAMachineRun(s: Sys, id: int, outcomes: seq<Outcome>)
    requires id in s.puts
    ensures
      var (db, p) := U.Run(s.db, s.now, s.puts[id], outcomes);
      Exec(s, Calls(id, outcomes)) == s.(db := db, puts := s.puts[id := p])
    decreases |outcomes|
  {
    hide U.PutStep;
    if outcomes == [] {
      assert s.puts == s.puts[id := s.puts[id]];
    } else {
      var run := Calls(id, outcomes);
      assert run[1..] == Calls(id, outcomes[1..]);
      var s1 := Next(s, run[0]);
      SoloRunIsAMachineRun(s1, id, outcomes[1..]);
      U.RunOnce(s.db, s.now, s.puts[id], outcomes);
      var (db, p) := U.Run(s.db, s.now, s.puts[id], outcomes);
      assert s1.puts[id := p] == s.puts[id := p];
    }
  }

  function AllApplied(k: nat): (r: seq<Outcome>)
    ensures |r| == k && forall i :: 0 <= i < k ==> r[i] == Applied
  {
    seq(k, _ => Applied)
  }

  /** Handlers 1 and 2 both see the share pending; handler 2 then runs to its end. */
  function FirstPromotion(q: U.Request): (r: seq<Step>)
  {
    [NewPut(1, q), NewPut(2, q), PutCall(1, Applied)] + Calls(2, AllApplied(6))
  }

  /** The state after handler 1 alone has read the share, both having started. */
  lemma BothStarted(s0: Sys, q: U.Request)
    requires Created(s0) && U.Accepts(s0.db.share, s0.now, q)
    ensures Exec(s0, [NewPut(1, q), NewPut(2, q), PutCall(1, Applied)])
         == s0.(puts := map[1 := U.Put(q, U.StoreBlob(s0.db.share), false), 2 := U.Put(q, U.ReadShare, false)])
  {
    hide U.Refusal;
    var run := [NewPut(1, q), NewPut(2, q), PutCall(1, Applied)];
    var s1 := Next(s0, run[0]);
    var s2 := Next(s1, run[1]);
    var s3 := Next(s2, run[2]);
    assert run[1..][0] == run[1] && run[1..][1..][0] == run[2] && run[1..][1..][1..] == [];
    assert Exec(s2, run[1..][1..]) == s3;
    assert s3.puts == map[1 := U.Put(q, U.StoreBlob(s0.db.share), false), 2 := U.Put(q, U.ReadShare, false)];
  }

  lemma OnlyChunk(db: Db)
    requires db.share.chunkCount == 1 && db.chunks.Keys == {0} && db.chunks[0].uploadedAt.Some?
    ensures CountUploadedChunks(db) == 1
  {
    assert UploadedIndexes(db) == {0};
  }

  /** After handler 2's run the one row is there and the share is ready; handler 1 is where it was. */
  lemma FirstPromotionLeaves(s0: Sys, q: U.Request)
    requires Created(s0) && s0.db.share.chunkCount == 1 && U.Accepts(s0.db.share, s0.now, q)
    ensures
      var first := Exec(s0, FirstPromotion(q));
      && q.index == 0
      && first.db.share == s0.db.share.(state := Ready)
      && first.now == s0.now && first.revokes == map[]
      && first.puts.Keys == {1, 2} && first.puts[1] == U.Put(q, U.StoreBlob(s0.db.share), false)
      && first.puts[2].pc.Finished? && first.db.chunks.Keys == {0}
  {
    hide U.Refusal, U.Nonce, U.Size, U.TokenHash, Next;
    BothStarted(s0, q);
    RefusalLetsThrough(s0.db.share, s0.now, q);
    var started := Exec(s0, [NewPut(1, q), NewPut(2, q), PutCall(1, Applied)]);
    ExecAppend(s0, [NewPut(1, q), NewPut(2, q), PutCall(1, Applied)], Calls(2, AllApplied(6)));
    SoloRunIsAMachineRun(started, 2, AllApplied(6));
    U.UnfoldRun(s0.db, s0.now, started.puts[2], AllApplied(6));
    var row := UpsertChunk(PutBlob(s0.db, 0, q.body), 0, U.Nonce(q), U.Size(q), s0.now, U.TokenHash(q));
    OnlyChunk(SetState(row, Uploading));
    assert Exec(s0, FirstPromotion(q)).db == SetState(SetState(row, Uploading), Ready);
  }

  /**
   * The state is not monotone on the way: for every accepted chunk of a one-chunk share there is a run in
   * which the share is `ready`, then `uploading` again, then `ready`.
   */
  lemma ReadySlipsBack(s0: Sys, q: U.Request)
    requires Created(s0) && s0.db.share.chunkCount == 1 && U.Accepts(s0.db.share, s0.now, q)
    ensures
      var first := Exec(s0, FirstPromotion(q));
      var second := Exec(first, Calls(1, AllApplied(3)));
      var third := Exec(first, Calls(1, AllApplied(5)));
      && first.db.share.state == Ready && second.db.share.state == Uploading && third.db.share.state == Ready
      && AllFinished(third)
  {
    hide U.Refusal, U.Nonce, U.Size, U.TokenHash, Next;
    FirstPromotionLeaves(s0, q);
    var first := Exec(s0, FirstPromotion(q));
    SoloRunIsAMachineRun(first, 1, AllApplied(3));
    UnfoldThree(first, q, s0.db.share);
    SoloRunIsAMachineRun(first, 1, AllApplied(5));
    StaleHandlerEndsReady(first, q, s0.db.share);
  }

  /** A handler that saw the share pending stores its blob and its row, then writes `uploading` over any state. */
  lemma UnfoldThree(s: Sys, q: U.Request, seen: ShareRow)
    requires 1 in s.puts && s.puts[1] == U.Put(q, U.StoreBlob(seen), false) && seen.state == Pending && U.IsWhole(q)
    ensures
      var row := UpsertChunk(PutBlob(s.db, q.index, q.body), q.index, U.Nonce(q), U.Size(q), s.now, U.TokenHash(q));
      U.Run(s.db, s.now, s.puts[1], AllApplied(3)) == (SetState(row, Uploading), U.Put(q, U.Count(seen), false))
  {
    hide U.Nonce, U.Size, U.TokenHash;
    var o := AllApplied(3);
    U.RunOnce(s.db, s.now, s.puts[1], o);
    var r1 := U.PutStep(s.db, s.now, s.puts[1], o[0]);
    U.RunOnce(r1.0, s.now, r1.1, o[1..]);
    var r2 := U.PutStep(r1.0, s.now, r1.1, o[1..][0]);
    U.RunOnce(r2.0, s.now, r2.1, o[1..][1..]);
  }

  /** Two calls later it has counted its row and writes `ready`, whatever state it finds. */
  lemma StaleHandlerEndsReady(s: Sys, q: U.Request, seen: ShareRow)
    requires 1 in s.puts && s.puts[1] == U.Put(q, U.StoreBlob(seen), false) && seen.state == Pending && U.IsWhole(q)
    requires s.db.chunks.Keys == {0} && q.index == 0 && s.db.share.chunkCount == 1 && seen.chunkCount == 1
    ensures
      var (db, p) := U.Run(s.db, s.now, s.puts[1], AllApplied(5));
      db.share == s.db.share.(state := Ready) && p.pc == U.Finished(201)
  {
    hide U.Nonce, U.Size, U.TokenHash;
    var o := AllApplied(5);
    var p0 := s.puts[1];
    var r1 := U.PutStep(s.db, s.now, p0, o[0]);
    var r2 := U.PutStep(r1.0, s.now, r1.1, o[1]);
    var r3 := U.PutStep(r2.0, s.now, r2.1, o[2]);
    var r4 := U.PutStep(r3.0, s.now, r3.1, o[3]);
    OnlyChunk(r3.0);
    U.RunOnce(s.db, s.now, p0, o);
    U.RunOnce(r1.0, s.now, r1.1, o[1..]);
    U.RunOnce(r2.0, s.now, r2.1, o[1..][1..]);
    U.RunOnce(r3.0, s.now, r3.1, o[1..][1..][1..]);
    U.RunOnce(r4.0, s.now, r4.1, o[1..][1..][1..][1..]);
  }

  /**
   * The exception of the convergence theorem is needed: if the write of `ready` fails, every handler has
   * answered 201, every row is stored, and the share stays `uploading`.
   */
  lemma LostPromotionStrands(s0: Sys, q: U.Request)
    requires Created(s0) && s0.db.share.chunkCount == 1 && U.Accepts(s0.db.share, s0.now, q)
    ensures
      var s := Exec(s0, [NewPut(1, q)] + Calls(1, AllApplied(5) + [Lost]));
      && AllFinished(s) && 1 in s.puts && s.puts[1].pc == U.Finished(201) && Full(s.db) && s.db.share.state == Uploading
  {
    hide U.Refusal, U.Nonce, U.Size, U.TokenHash, Next;
    RefusalLetsThrough(s0.db.share, s0.now, q);
    var o := AllApplied(5) + [Lost];
    ExecAppend(s0, [NewPut(1, q)], Calls(1, o));
    var s1 := StartedAlone(s0, q);
    SoloRunIsAMachineRun(s1, 1, o);
    U.UnfoldRun(s0.db, s0.now, s1.puts[1], o);
    var row := UpsertChunk(PutBlob(s0.db, 0, q.body), 0, U.Nonce(q), U.Size(q), s0.now, U.TokenHash(q));
    OnlyChunk(SetState(row, Uploading));
  }

  lemma StartedAlone(s0: Sys, q: U.Request) returns (s1: Sys)
    requires Created(s0)
    ensures s1 == Exec(s0, [NewPut(1, q)]) == s0.(puts := map[1 := U.Put(q, U.ReadShare, false)])
  {
    s1 := Exec(s0, [NewPut(1, q)]);
    assert [NewPut(1, q)][1..] == [];
    assert Exec(Next(s0, NewPut(1, q)), []) == Next(s0, NewPut(1, q));
    assert s1.puts == map[1 := U.Put(q, U.ReadShare, false)];
  }
}
