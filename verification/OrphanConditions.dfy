/**
 * Exactly when the reaper can part a blob from its row: its list of keys is read outside the transaction that
 * deletes the rows.
 */
module OrphanConditions {
  import opened Wrappers
  import opened Bytes
  import opened ShareModel
  import opened ShareStore
  import opened ShareSystem
  import opened UploadProofs
  import opened UploadConditions
  import opened LifecycleProofs
  import opened Reaper
  import U = UploadEndpoint

  // ---- A list that no longer fits ----

  /** Everything works. */
  function FairWeather(): (w: Weather)
    ensures Working(w)
  {
    Weather(n => Applied, n => false, n => false)
  }

  /** The rest of the reaping: every key still listed is removed, then the transaction. */
  function Rest(s: Sys): (run: seq<Step>)
  {
    match s.reaper
    case Removing(keys, _) => RemoveSteps(keys, FairWeather(), 0) + [Reap(Finalize(Applied))]
    case Finalizing(_) => [Reap(Finalize(Applied))]
    case _ => []
  }

  /** The keys still to be removed. */
  function Listed(s: Sys): (keys: seq<int>)
  {
    match s.reaper
    case Removing(keys, _) => keys
    case _ => []
  }

  lemma RestLeavesUnlisted(s: Sys)
    requires s.reaper.Removing? || s.reaper.Finalizing?
    ensures
      var db := Exec(s, Rest(s)).db;
      db.chunks == map[] && db.blobs.Keys == s.db.blobs.Keys - Members(Listed(s))
  {
    hide Exec, Removed, RemoveSteps, Reapable, ListsRows, ClassifyReason;
    var last := [Reap(Finalize(Applied))];
    if s.reaper.Removing? {
      var keys, w := s.reaper.keys, FairWeather();
      RemovingIsAMachineRun(s, keys, s.reaper.chunkCount, w, 0);
      RemovedWhenWorking(s.db, keys, w, 0);
      var s1 := Exec(s, RemoveSteps(keys, w, 0));
      ExecAppend(s, RemoveSteps(keys, w, 0), last);
      Reaper.ExecOne(s1, last[0]);
    } else {
      Reaper.ExecOne(s, last[0]);
    }
  }

  /** The blobs outside the list are the orphans exactly when the list is fresh. */
  lemma UnlistedAreOrphansExactly(s: Sys)
    requires s.reaper.Removing? || s.reaper.Finalizing?
    ensures s.db.blobs.Keys - Members(Listed(s)) == Orphans(s.db) <==> ListIsFresh(s)
  {
    var keys := Listed(s);
    var db := s.db;
    if db.blobs.Keys - Members(keys) == Orphans(db) {
      forall i | i in db.chunks && i in db.blobs
        ensures i in keys
      {
        assert i !in Orphans(db);
        assert i in db.blobs.Keys;
      }
      forall k | k in keys
        ensures k !in Orphans(db)
      {
        assert k in Members(keys);
      }
    }
    if ListIsFresh(s) {
      forall i
        ensures i in db.blobs.Keys - Members(keys) <==> i in Orphans(db)
      {
      }
    }
  }

  /**
   * Exactly when the reaper is safe: with no upload in flight, no run of anybody, with any failure, changes which
   * blobs have no row, if and only if the reaper's list is fresh: the rows' blobs still to go are on it, and no
   * blob without a row is.
   */
  lemma OrphansStayExactly(s: Sys)
    requires NoUpload(s)
    ensures (forall run :: Orphans(Exec(s, run).db) == Orphans(s.db)) <==> ListIsFresh(s)
  {
    hide Exec, Orphans, NoUpload;
    if ListIsFresh(s) {
      forall run
        ensures Orphans(Exec(s, run).db) == Orphans(s.db)
      {
        ReaperNeverPartsBlobFromRow(s, run);
      }
    } else {
      RestLeavesUnlisted(s);
      UnlistedAreOrphansExactly(s);
      assert Orphans(Exec(s, Rest(s)).db) == s.db.blobs.Keys - Members(Listed(s)) by { AllOrphans(Exec(s, Rest(s)).db); }
    }
  }

  lemma AllOrphans(db: Db)
    requires db.chunks == map[]
    ensures Orphans(db) == db.blobs.Keys
  {
  }

  // ---- How a list comes to be stale ----

  /** A PUT passes its checks; the share expires; the reaper takes it up and finds no rows. */
  function TakenUpEmpty(q: U.Request, d: nat): (run: seq<Step>)
  {
    [NewPut(1, q), PutCall(1, Applied), Tick(d), Reap(Select), Reap(FetchKeys([]))]
  }

  lemma TakenUp(s0: Sys, q: U.Request, d: nat)
    requires Created(s0) && U.Refusal(s0.db.share, s0.now, q).None? && s0.now + d > s0.db.share.expiresAt
    ensures Exec(s0, TakenUpEmpty(q, d))
         == s0.(now := s0.now + d, puts := map[1 := U.Put(q, U.StoreBlob(s0.db.share), false)], reaper := Removing([], 0))
  {
    hide Exec, U.Refusal;
    var run := TakenUpEmpty(q, d);
    var s1 := Next(s0, run[0]);
    var s2 := Next(s1, run[1]);
    var s3 := Next(s2, run[2]);
    var s4 := Next(s3, run[3]);
    NoRowsListed(s4.db);
    var s5 := Next(s4, run[4]);
    assert s5.puts == map[1 := U.Put(q, U.StoreBlob(s0.db.share), false)];
    assert run[0..] == run && run[5..] == [];
    ExecFrom(s0, run, 0);
    ExecFrom(s1, run, 1);
    ExecFrom(s2, run, 2);
    ExecFrom(s3, run, 3);
    ExecFrom(s4, run, 4);
    assert Exec(s5, []) == s5 by { NoSteps(s5); }
  }

  lemma NoRowsListed(db: Db)
    requires db.chunks == map[]
    ensures ListsRows([], db)
  {
    assert forall k :: k !in db.chunks.Keys;
  }

  /** The PUT goes on to its answer: blob, row, `uploading`, count, and perhaps `ready`. */
  lemma FiveCallsAnswer(s: Sys, q: U.Request, seen: ShareRow)
    requires 1 in s.puts && s.puts[1] == U.Put(q, U.StoreBlob(seen), false) && seen.state == Pending && U.IsWhole(q)
    ensures
      var (db, p) := U.Run(s.db, s.now, s.puts[1], AllApplied(5));
      && p == U.Put(q, U.Finished(201), false)
      && db.chunks.Keys == s.db.chunks.Keys + {q.index} && db.blobs.Keys == s.db.blobs.Keys + {q.index}
      && db.share == s.db.share.(state := db.share.state)
  {
    hide U.Nonce, U.Size, U.TokenHash, U.IsWhole;
    var o := AllApplied(5);
    var r1 := U.PutStep(s.db, s.now, s.puts[1], Applied);
    var r2 := U.PutStep(r1.0, s.now, r1.1, Applied);
    var r3 := U.PutStep(r2.0, s.now, r2.1, Applied);
    var r4 := U.PutStep(r3.0, s.now, r3.1, Applied);
    U.RunOnce(s.db, s.now, s.puts[1], o);
    U.RunOnce(r1.0, s.now, r1.1, o[1..]);
    U.RunOnce(r2.0, s.now, r2.1, o[1..][1..]);
    U.RunOnce(r3.0, s.now, r3.1, o[1..][1..][1..]);
    U.RunOnce(r4.0, s.now, r4.1, o[1..][1..][1..][1..]);
  }

  /**
   * A PUT that races the reaper: it passed its checks before the share expired, and stores its blob and its row
   * after the reaper has listed the keys and before it deletes the rows. The PUT is answered 201, no upload is in
   * flight, every blob has its row; then the reaper finishes, without a failure, and the blob is left with no row.
   */
  lemma LatePutIsOrphaned(s0: Sys, q: U.Request, d: nat)
    requires Created(s0) && U.Accepts(s0.db.share, s0.now, q) && s0.now + d > s0.db.share.expiresAt
    ensures
      var answered := Exec(Exec(s0, TakenUpEmpty(q, d)), Calls(1, AllApplied(5)));
      var reaped := Exec(answered, Rest(answered));
      && NoUpload(answered) && 1 in answered.puts && answered.puts[1].pc == U.Finished(201) && Orphans(answered.db) == {}
      && reaped.db.chunks == map[] && q.index in reaped.db.blobs && reaped.db.share.state == Destroyed
  {
    hide Exec, U.Refusal, Created, RemoveSteps;
    TakenUp(s0, q, d);
    var taken := Exec(s0, TakenUpEmpty(q, d));
    SoloRunIsAMachineRun(taken, 1, AllApplied(5));
    assert s0.db.share.state == Pending && s0.db.chunks == map[] && s0.db.blobs == map[] by { CreatedIsEmpty(s0); }
    FiveCallsAnswer(taken, q, s0.db.share);
    var answered := Exec(taken, Calls(1, AllApplied(5)));
    assert answered.puts.Keys == {1};
    RestLeavesUnlisted(answered);
    assert q.index in Exec(answered, Rest(answered)).db.blobs.Keys;
    RestDestroys(answered);
  }

  lemma CreatedIsEmpty(s: Sys)
    requires Created(s)
    ensures s.db.share.state == Pending && s.db.chunks == map[] && s.db.blobs == map[]
  {
  }

  lemma RestDestroys(s: Sys)
    requires s.reaper.Removing?
    ensures Exec(s, Rest(s)).db.share.state == Destroyed
  {
    hide Exec, Removed, RemoveSteps, Reapable, ListsRows, ClassifyReason;
    var last := [Reap(Finalize(Applied))];
    var keys, w := s.reaper.keys, FairWeather();
    RemovingIsAMachineRun(s, keys, s.reaper.chunkCount, w, 0);
    RemovedWhenWorking(s.db, keys, w, 0);
    ExecAppend(s, RemoveSteps(keys, w, 0), last);
    Reaper.ExecOne(Exec(s, RemoveSteps(keys, w, 0)), last[0]);
  }
}
