/**
 * The sweep over all shares: fetchReapable, fetchChunkKeys, removeBlobs, finalizeDestroy, reapOne, sweepOnce and
 * Run of services/reaper/internal/reaper, with storage, database, lock and cancellation failing anywhere.
 */
module Reaper {
  import opened Wrappers
  import opened ShareModel
  import opened ShareStore
  import opened ShareSystem
  import opened LifecycleProofs
  import opened BurnProofs
  import opened Slicing
  import R = Retention

  /** Every share of the database by id, with its chunk rows and its blobs. */
  type Shares = map<string, Db>

  /** What the n-th call of the daemon meets: its outcome, a cancelled context, a row locked by somebody else. */
  datatype Weather = Weather(outcome: nat -> Outcome, cancelled: nat -> bool, locked: nat -> bool)

  ghost predicate Working(w: Weather)
  {
    && (forall n: nat :: w.outcome(n) == Applied)
    && (forall n: nat :: !w.cancelled(n))
    && (forall n: nat :: !w.locked(n))
  }

  datatype ReapResult = Processed | Gone | Failed

  // ---- What one share's reaping does ----

  /** `removeBlobs` from call `c` on: the rows, the calls made, and whether every key was removed. */
  function Removed(db: Db, keys: seq<int>, w: Weather, c: nat): (r: (Db, nat, bool))
    decreases |keys|
  {
    if keys == [] then (db, c, true)
    else if w.cancelled(c) then (db, c, false)
    else
      var db' := Effect(w.outcome(c), db, RemoveBlob(db, keys[0]));
      if !w.outcome(c).Applied? then (db', c + 1, false) else Removed(db', keys[1..], w, c + 1)
  }

  /** `reapOne` on a share whose query for chunk keys answers `keys`. */
  function Reaped(db: Db, now: int, keys: seq<int>, w: Weather, c: nat): (r: (Db, nat, ReapResult))
  {
    if !w.outcome(c).Applied? then (db, c + 1, Failed)
    else
      var (db', c', removed) := Removed(db, keys, w, c + 1);
      if !removed then (db', c', Failed)
      else if w.locked(c') then (db', c' + 1, Gone)
      else (Effect(w.outcome(c'), db', FinalizeDestroy(db', now, |keys|)), c' + 1, if w.outcome(c').Applied? then Processed else Failed)
  }

  /** The steps of the share's own machine that `removeBlobs` takes. */
  function RemoveSteps(keys: seq<int>, w: Weather, c: nat): (r: seq<Step>)
    decreases |keys|
  {
    if keys == [] then [Reap(RemoveNext(Applied))]
    else if w.cancelled(c) then [Reap(GiveUp)]
    else [Reap(RemoveNext(w.outcome(c)))] + if w.outcome(c).Applied? then RemoveSteps(keys[1..], w, c + 1) else []
  }

  function ReapSteps(db: Db, keys: seq<int>, w: Weather, c: nat): (r: seq<Step>)
  {
    if !w.outcome(c).Applied? then [Reap(GiveUp)]
    else
      var (_, c', removed) := Removed(db, keys, w, c + 1);
      [Reap(FetchKeys(keys))] + RemoveSteps(keys, w, c + 1)
      + if !removed then [] else if w.locked(c') then [Reap(GiveUp)] else [Reap(Finalize(w.outcome(c')))]
  }

  lemma ExecOne(s: Sys, step: Step)
    ensures Exec(s, [step]) == Next(s, step)
  {
    assert [step][1..] == [];
    assert Exec(Next(s, step), []) == Next(s, step);
  }

  lemma {:induction false} RemovingIsAMachineRun(s: Sys, keys: seq<int>, n: int, w: Weather, c: nat)
    requires s.reaper == Removing(keys, n)
    ensures
      var (db, _, removed) := Removed(s.db, keys, w, c);
      Exec(s, RemoveSteps(keys, w, c)) == s.(db := db, reaper := if removed then Finalizing(n) else Idle)
    decreases |keys|
  {
    hide RemoveBlob, Reapable, FinalizeDestroy, ListsRows, Exec;
    var steps := RemoveSteps(keys, w, c);
    ExecOne(s, steps[0]);
    if keys != [] && !w.cancelled(c) && w.outcome(c).Applied? {
      var s1 := Next(s, steps[0]);
      RemovingIsAMachineRun(s1, keys[1..], n, w, c + 1);
      ExecAppend(s, [steps[0]], RemoveSteps(keys[1..], w, c + 1));
    } else {
      assert steps == [steps[0]];
    }
  }

  /** `reapOne` is a run of the share's machine: everything proved of every run holds of the daemon's. */
  lemma ReapedIsAMachineRun(s: Sys, keys: seq<int>, w: Weather, c: nat)
    requires s.reaper == Candidate && ListsRows(keys, s.db)
    ensures Exec(s, ReapSteps(s.db, keys, w, c)) == s.(db := Reaped(s.db, s.now, keys, w, c).0, reaper := Idle)
  {
    hide Removed, RemoveSteps, RemoveBlob, Reapable, FinalizeDestroy, ListsRows, Exec;
    if !w.outcome(c).Applied? {
      ExecOne(s, Reap(GiveUp));
    } else {
      var (_, c', removed) := Removed(s.db, keys, w, c + 1);
      var a, b := [Reap(FetchKeys(keys))], RemoveSteps(keys, w, c + 1);
      ExecOne(s, a[0]);
      var s1 := Next(s, a[0]);
      RemovingIsAMachineRun(s1, keys, |keys|, w, c + 1);
      ExecAppend(s, a, b);
      var s2 := Exec(s1, b);
      if removed {
        var last := if w.locked(c') then Reap(GiveUp) else Reap(Finalize(w.outcome(c')));
        ExecOne(s2, last);
        ExecAppend(s, a + b, [last]);
      } else {
        assert a + b + [] == a + b;
      }
    }
  }

  // ---- Working storage ----

  /** A share reaped without a failure. */
  function Finalised(db: Db, now: int): (r: Db)
  {
    FinalizeDestroy(db.(blobs := db.blobs - db.chunks.Keys), now, |db.chunks|)
  }

  lemma {:induction false} RemovedWhenWorking(db: Db, keys: seq<int>, w: Weather, c: nat)
    requires Working(w)
    ensures Removed(db, keys, w, c).2
    ensures Removed(db, keys, w, c).0 == db.(blobs := db.blobs - set k | k in keys)
    decreases |keys|
  {
    if keys == [] {
      assert db.blobs - (set k | k in keys) == db.blobs;
    } else {
      RemovedWhenWorking(RemoveBlob(db, keys[0]), keys[1..], w, c + 1);
      assert forall k :: k in keys <==> k == keys[0] || k in keys[1..];
      assert db.blobs - {keys[0]} - (set k | k in keys[1..]) == db.blobs - (set k | k in keys);
    }
  }

  lemma ReapedWhenWorking(db: Db, now: int, keys: seq<int>, w: Weather, c: nat)
    requires Working(w) && ListsRows(keys, db)
    ensures Reaped(db, now, keys, w, c).0 == Finalised(db, now) && Reaped(db, now, keys, w, c).2 == Processed
  {
    hide FinalizeDestroy;
    RemovedWhenWorking(db, keys, w, c + 1);
  }

  /** A finalised share has neither rows nor their blobs left, is no candidate, and has one more reaper entry. */
  lemma FinalisedIsDone(db: Db, now: int, later: int)
    ensures !Reapable(Finalised(db, now), later)
    ensures Finalised(db, now).chunks == map[] && Finalised(db, now).blobs.Keys == Orphans(db)
    ensures ReaperEntries(Finalised(db, now).audit) == ReaperEntries(db.audit) + 1
    ensures Finalised(db, now).share.state == Destroyed && Finalised(db, now).share.destroyedAt.Some?
  {
    hide ReaperEntries, ClassifyReason, Reapable;
    Appended(db.audit, ShareDestroyed(ShareModel.Reaper, ClassifyReason(db.share), Some(|db.chunks|)));
    NotReapable(Finalised(db, now), later);
  }

  lemma NotReapable(db: Db, now: int)
    requires db.share.state == Destroyed && db.chunks == map[]
    ensures !Reapable(db, now)
  {
  }

  // ---- The candidate query ----

  function Candidates(shares: Shares, now: int): (r: set<string>)
  {
    set id | id in shares && Reapable(shares[id], now)
  }

  /** ORDER BY destroyed_at NULLS LAST, expires_at. */
  predicate NotAfter(a: ShareRow, b: ShareRow)
  {
    if a.destroyedAt.Some? && b.destroyedAt.Some? then
      a.destroyedAt.value < b.destroyedAt.value || (a.destroyedAt == b.destroyedAt && a.expiresAt <= b.expiresAt)
    else if a.destroyedAt.Some? || b.destroyedAt.Some? then a.destroyedAt.Some?
    else a.expiresAt <= b.expiresAt
  }

  /** The order ranks any two rows, ties are rows with equal dates, and it is transitive. */
  lemma NotAfterIsAnOrder(a: ShareRow, b: ShareRow, c: ShareRow)
    ensures NotAfter(a, b) || NotAfter(b, a)
    ensures NotAfter(a, b) && NotAfter(b, a) <==> a.destroyedAt == b.destroyedAt && a.expiresAt == b.expiresAt
    ensures NotAfter(a, b) && NotAfter(b, c) ==> NotAfter(a, c)
  {
  }

  /** Rows already dated drain first, the longest dated before all, and among equals the one that expired first. */
  lemma DatedDrainFirst(shares: Shares, now: int, limit: nat, out: seq<string>, id: string, other: string)
    requires IsAnswer(shares, now, limit, out) && id in out && other in Candidates(shares, now) && other !in out
    requires id in shares && other in shares
    ensures shares[other].share.destroyedAt.Some? ==>
      && shares[id].share.destroyedAt.Some?
      && shares[id].share.destroyedAt.value <= shares[other].share.destroyedAt.value
    ensures shares[id].share.destroyedAt == shares[other].share.destroyedAt ==> shares[id].share.expiresAt <= shares[other].share.expiresAt
  {
    hide Reapable;
  }

  predicate IsFirst(shares: Shares, id: string, among: set<string>)
    requires among <= shares.Keys
  {
    id in among && forall other :: other in among ==> NotAfter(shares[id].share, shares[other].share)
  }

  lemma {:induction false} SomebodyIsFirst(shares: Shares, among: set<string>)
    requires among <= shares.Keys && among != {}
    ensures exists id :: IsFirst(shares, id, among)
    decreases |among|
  {
    var x :| x in among;
    var rest := among - {x};
    if rest == {} {
      assert forall other :: other in among ==> other == x || other in rest;
      assert IsFirst(shares, x, among);
    } else {
      SomebodyIsFirst(shares, rest);
      var y :| IsFirst(shares, y, rest);
      var least := if NotAfter(shares[x].share, shares[y].share) then x else y;
      assert forall other :: other in among ==> other == x || other in rest;
      assert IsFirst(shares, least, among);
    }
  }

  /** A legal answer of the candidate query: the first `limit` candidates in the order, each once. */
  ghost predicate IsAnswer(shares: Shares, now: int, limit: nat, out: seq<string>)
  {
    && Distinct(out)
    && (forall id :: id in out ==> id in Candidates(shares, now))
    && |out| == Min(limit, |Candidates(shares, now)|)
    && (forall j, k :: 0 <= j < k < |out| && out[j] in shares && out[k] in shares ==> NotAfter(shares[out[j]].share, shares[out[k]].share))
    && (forall id, other :: id in out && other in Candidates(shares, now) && other !in out && id in shares && other in shares ==>
          NotAfter(shares[id].share, shares[other].share))
  }

  /** `rows` are the first of `due` in the order and `rest` the others. */
  ghost predicate Ordered(shares: Shares, due: set<string>, rows: seq<string>, rest: set<string>)
  {
    && due <= shares.Keys && rest <= due && Distinct(rows)
    && (forall id :: id in due <==> (id in rows || id in rest))
    && (forall id :: id in rows ==> id !in rest)
    && (forall j, k :: 0 <= j < k < |rows| && rows[j] in shares && rows[k] in shares ==> NotAfter(shares[rows[j]].share, shares[rows[k]].share))
    && (forall id, other :: id in rows && other in rest && id in shares ==> NotAfter(shares[id].share, shares[other].share))
  }

  lemma NoneOrdered(shares: Shares, due: set<string>)
    requires due <= shares.Keys
    ensures Ordered(shares, due, [], due)
  {
  }

  lemma NextInOrder(shares: Shares, due: set<string>, rows: seq<string>, rest: set<string>, id: string)
    requires Ordered(shares, due, rows, rest) && IsFirst(shares, id, rest)
    ensures Ordered(shares, due, rows + [id], rest - {id})
  {
    hide NotAfter;
    var rows' := rows + [id];
    assert forall x :: x in rows' <==> x in rows || x == id;
  }

  lemma OrderedIsAnswer(shares: Shares, now: int, limit: nat, rows: seq<string>, rest: set<string>)
    requires Ordered(shares, Candidates(shares, now), rows, rest)
    requires |rows| <= limit && |rows| + |rest| == |Candidates(shares, now)| && (rest == {} || |rows| == limit)
    ensures IsAnswer(shares, now, limit, rows)
  {
    hide NotAfter, Reapable;
  }

  ghost predicate Distinct<T>(s: seq<T>)
  {
    forall j, k :: 0 <= j < k < |s| ==> s[j] != s[k]
  }

  function Min(a: nat, b: nat): nat
  {
    if a <= b then a else b
  }

  function Members<T>(s: seq<T>): (r: set<T>)
  {
    set x | x in s
  }

  lemma {:induction false} DistinctSize<T>(s: seq<T>)
    requires Distinct(s)
    ensures |Members(s)| == |s|
    decreases |s|
  {
    if s == [] {
      assert Members(s) == {};
    } else {
      var t, x := s[..|s| - 1], s[|s| - 1];
      assert s == t + [x];
      DistinctSize(t);
      assert x !in Members(t);
      assert Members(s) == Members(t) + {x};
    }
  }

  // ---- A sweep ----

  /** Every picked share finalised, every other untouched. */
  function SweptShares(shares: Shares, now: int, picked: set<string>): (r: Shares)
  {
    map id | id in shares :: if id in picked then Finalised(shares[id], now) else shares[id]
  }

  class Daemon {
    var shares: Shares
    var calls: nat
    const batchSize: nat

    constructor (shares: Shares, batchSize: nat)
      ensures this.shares == shares && this.batchSize == batchSize && calls == 0
    {
      this.shares, this.batchSize, calls := shares, batchSize, 0;
    }

    /** The rows of the query, appended one by one as the database delivers them; None where the query failed. */
    method FetchReapable(now: int, w: Weather) returns (out: Option<seq<string>>)
      modifies this`calls
      ensures out.Some? <==> w.outcome(old(calls)).Applied?
      ensures out.Some? ==> IsAnswer(shares, now, batchSize, out.value)
      ensures calls == old(calls) + 1
    {
      calls := calls + 1;
      if !w.outcome(calls - 1).Applied? {
        return None;
      }
      hide Reapable, NotAfter, Ordered;
      var rest := set id | id in shares && Reapable(shares[id], now);
      ghost var due := Candidates(shares, now);
      var rows: seq<string> := [];
      assert Ordered(shares, due, rows, rest) by { NoneOrdered(shares, due); }
      while rest != {} && |rows| < batchSize
        invariant calls == old(calls) + 1
        invariant rest <= due && |rows| <= batchSize && |rows| + |rest| == |due|
        invariant Ordered(shares, due, rows, rest)
      {
        SomebodyIsFirst(shares, rest);
        var id :| id in rest && forall other :: other in rest ==> NotAfter(shares[id].share, shares[other].share);
        NextInOrder(shares, due, rows, rest, id);
        rows := rows + [id];
        rest := rest - {id};
      }
      OrderedIsAnswer(shares, now, batchSize, rows, rest);
      out := Some(rows);
    }

    /** The chunk rows in the order the query returns them; None where it failed. */
    method FetchChunkKeys(id: string, w: Weather) returns (out: Option<seq<int>>)
      requires id in shares
      modifies this`calls
      ensures out.Some? <==> w.outcome(old(calls)).Applied?
      ensures out.Some? ==> ListsRows(out.value, shares[id])
      ensures calls == old(calls) + 1
    {
      calls := calls + 1;
      if !w.outcome(calls - 1).Applied? {
        return None;
      }
      var rest := shares[id].chunks.Keys;
      var keys: seq<int> := [];
      while rest != {}
        invariant calls == old(calls) + 1
        invariant rest <= shares[id].chunks.Keys
        invariant (set k | k in keys) == shares[id].chunks.Keys - rest
        invariant |keys| + |rest| == |shares[id].chunks.Keys|
      {
        HasElement(rest);
        var k: int :| k in rest;
        ghost var before := set j | j in keys;
        keys := keys + [k];
        assert (set j | j in keys) == before + {k};
        rest := rest - {k};
      }
      out := Some(keys);
    }

    /** `RemoveBlob`: an absent object is no error. */
    method RemoveBlob(id: string, key: int, w: Weather) returns (ok: bool)
      requires id in shares
      modifies this
      ensures shares == old(shares)[id := Effect(w.outcome(old(calls)), old(shares)[id], ShareModel.RemoveBlob(old(shares)[id], key))]
      ensures ok == w.outcome(old(calls)).Applied? && calls == old(calls) + 1
    {
      var db := shares[id];
      if !w.outcome(calls).Lost? && key in db.blobs {
        db := db.(blobs := map i | i in db.blobs && i != key :: db.blobs[i]);
      }
      assert ShareModel.RemoveBlob(shares[id], key).blobs == map i | i in shares[id].blobs && i != key :: shares[id].blobs[i];
      assert key !in shares[id].blobs ==> shares[id].blobs - {key} == shares[id].blobs;
      ok := w.outcome(calls).Applied?;
      shares, calls := shares[id := db], calls + 1;
    }

    /** `removeBlobs`: one object after the other, stopping at the first error and at a cancelled context. */
    method RemoveBlobs(id: string, keys: seq<int>, w: Weather) returns (ok: bool)
      requires id in shares
      modifies this
      ensures var (db, c, removed) := Removed(old(shares)[id], keys, w, old(calls));
              shares == old(shares)[id := db] && calls == c && ok == removed
    {
      for k := 0 to |keys|
        invariant id in shares && shares == old(shares)[id := shares[id]]
        invariant Removed(old(shares)[id], keys, w, old(calls)) == Removed(shares[id], keys[k..], w, calls)
      {
        if w.cancelled(calls) {
          return false;
        }
        ghost var db := shares[id];
        assert keys[k..][0] == keys[k] && keys[k..][1..] == keys[k + 1..];
        var removed := RemoveBlob(id, keys[k], w);
        if !removed {
          return false;
        }
      }
      ok := true;
    }

    /** `reapOne`. */
    method ReapOne(id: string, now: int, w: Weather) returns (result: ReapResult, ghost keys: seq<int>)
      requires id in shares
      modifies this
      ensures ListsRows(keys, old(shares)[id])
      ensures var (db, c, outcome) := Reaped(old(shares)[id], now, keys, w, old(calls));
              shares == old(shares)[id := db] && calls == c && result == outcome
    {
      keys := RowList(shares[id]);
      var fetched := FetchChunkKeys(id, w);
      if fetched.None? {
        return Failed, keys;
      }
      keys := fetched.value;
      var removed := RemoveBlobs(id, fetched.value, w);
      if !removed {
        return Failed, keys;
      }
      calls := calls + 1;
      if w.locked(calls - 1) {
        return Gone, keys;
      }
      var o := w.outcome(calls - 1);
      if !o.Lost? {
        shares := shares[id := FinalizeDestroy(shares[id], now, |fetched.value|)];
      }
      return if o.Applied? then Processed else Failed, keys;
    }

    /**
     * `sweepOnce`. With everything working it finalises exactly the shares the query picked; in any weather it
     * touches no other share, parts no blob from its row, and leaves each share finalised or with its rows as they were.
     */
    method SweepOnce(now: int, w: Weather) returns (processed: nat, skipped: nat, failed: nat, ghost picked: seq<string>)
      modifies this
      ensures shares.Keys == old(shares).Keys
      ensures forall id :: id in old(shares) && id !in picked ==> shares[id] == old(shares)[id]
      ensures forall id :: id in old(shares) ==> Orphans(shares[id]) == Orphans(old(shares)[id])
      ensures picked == [] || IsAnswer(old(shares), now, batchSize, picked)
      ensures processed + skipped + failed <= |picked|
      ensures forall id :: id in old(shares) && id in shares ==> IsDone(old(shares)[id], shares[id]) || IsKept(old(shares)[id], shares[id])
      ensures Working(w) ==>
        && IsAnswer(old(shares), now, batchSize, picked)
        && processed == |picked| && shares == SweptShares(old(shares), now, Members(picked))
    {
      hide Reapable, Finalised, Orphans, Reaped, NotAfter, IsDone;
      processed, skipped, failed, picked := 0, 0, 0, [];
      var candidates := FetchReapable(now, w);
      if candidates.None? {
        return;
      }
      picked := candidates.value;
      for k := 0 to |candidates.value|
        invariant shares.Keys == old(shares).Keys
        invariant forall id :: id in old(shares) && id !in candidates.value[..k] ==> shares[id] == old(shares)[id]
        invariant forall id :: id in old(shares) ==> Orphans(shares[id]) == Orphans(old(shares)[id])
        invariant forall id :: id in old(shares) && id in shares ==> IsDone(old(shares)[id], shares[id]) || IsKept(old(shares)[id], shares[id])
        invariant processed + skipped + failed == k
        invariant Working(w) ==> processed == k
        invariant Working(w) ==> forall id :: id in old(shares) && id in candidates.value[..k] ==> shares[id] == Finalised(old(shares)[id], now)
      {
        if w.cancelled(calls) {
          return;
        }
        var id := candidates.value[k];
        assert id in Candidates(old(shares), now) && id !in candidates.value[..k];
        ghost var before := shares[id];
        ghost var c := calls;
        var result, keys := ReapOne(id, now, w);
        ReapedKeepsOrphans(before, now, keys, w, c);
        ReapedIsDoneOrKept(before, now, keys, w, c);
        if Working(w) {
          ReapedWhenWorking(before, now, keys, w, c);
        }
        match result
        case Processed => processed := processed + 1;
        case Gone => skipped := skipped + 1;
        case Failed => failed := failed + 1;
      }
      assert candidates.value[..|candidates.value|] == candidates.value;
    }

    /**
     * `Run` up to its `ticks`-th tick: one sweep at once and one for each tick, the k-th at `clock(k)`. With
     * everything working and nothing newly due, the backlog shrinks by a whole batch each time: it is empty
     * exactly when there have been as many sweeps as batches in it, every share of it is then finalised with one
     * reaper entry, and no other share was touched.
     */
    method Run(ticks: nat, clock: nat -> int, w: Weather)
      modifies this
      ensures shares.Keys == old(shares).Keys
      ensures forall id :: id in old(shares) ==> Orphans(shares[id]) == Orphans(old(shares)[id])
      ensures Working(w) && NothingNewlyDue(old(shares), clock) ==>
        && BacklogWithout(old(shares), shares, Candidates(shares, clock(0)), clock)
        && |Candidates(shares, clock(0))| == Backlog(|Candidates(old(shares), clock(0))|, batchSize, ticks + 1)
        && (batchSize > 0 ==>
              (Candidates(shares, clock(0)) == {} <==> ticks + 1 >= ChunkCount(|Candidates(old(shares), clock(0))|, batchSize)))
      ensures Working(w) && batchSize > 0 && AllWellKept(old(shares)) && NothingComesDue(old(shares), clock) ==>
        && (ticks + 1 >= ChunkCount(|DueAndLeft(old(shares), clock(0))|, batchSize) <==>
              forall id :: id in old(shares) && id in shares && R.Due(old(shares)[id], clock(0)) ==> IsErased(old(shares)[id], shares[id]))
        && (forall id :: id in old(shares) && !R.Due(old(shares)[id], clock(0)) ==> shares[id] == old(shares)[id])
    {
      hide Reapable, Finalised, Orphans, IsAnswer, NotAfter;
      var steady := Working(w) && NothingNewlyDue(old(shares), clock);
      var n := |Candidates(old(shares), clock(0))|;
      for k := 0 to ticks + 1
        invariant shares.Keys == old(shares).Keys
        invariant forall id :: id in old(shares) ==> Orphans(shares[id]) == Orphans(old(shares)[id])
        invariant steady ==> BacklogWithout(old(shares), shares, Candidates(shares, clock(0)), clock)
        invariant steady ==> |Candidates(shares, clock(0))| == Backlog(n, batchSize, k)
      {
        ghost var before := shares;
        var _, _, _, picked := SweepOnce(clock(k), w);
        if steady {
          SweepShrinksBacklog(old(shares), before, clock, k, batchSize, picked);
        }
      }
      if batchSize > 0 {
        BacklogIsEmpty(n, batchSize, ticks + 1);
        if Working(w) && AllWellKept(old(shares)) && NothingComesDue(old(shares), clock) {
          NothingDueIsNoCandidate(old(shares), clock);
          OwnersView(old(shares), shares, clock);
        }
      }
    }
  }

  // ---- For the owner ----

  /** Rows as every run leaves them. */
  ghost predicate AllWellKept(shares: Shares)
  {
    forall id :: id in shares ==> R.WellKept(shares[id])
  }

  /** The clock does not go back behind the first sweep, and no share comes due after it. */
  ghost predicate NothingComesDue(shares: Shares, clock: nat -> int)
  {
    && (forall k: nat :: clock(0) <= clock(k))
    && (forall k: nat, id :: id in shares && R.Due(shares[id], clock(k)) ==> R.Due(shares[id], clock(0)))
  }

  /** The shares to be swept. */
  function DueAndLeft(shares: Shares, now: int): (r: set<string>)
  {
    set id | id in shares && R.Due(shares[id], now) && R.IsLeft(shares[id])
  }

  /** The share is gone, with every row and every blob a row was there for. */
  predicate IsErased(db: Db, db': Db)
  {
    (db'.share.state == Destroyed || db'.share.state == Expired) && db'.chunks == map[] && db'.blobs.Keys == Orphans(db)
  }

  lemma CandidatesAreDueAndLeft(shares: Shares, now: int)
    requires AllWellKept(shares)
    ensures Candidates(shares, now) == DueAndLeft(shares, now)
  {
    hide Reapable, R.Due, R.IsLeft, R.WellKept;
    forall id | id in shares
      ensures Reapable(shares[id], now) <==> R.Due(shares[id], now) && R.IsLeft(shares[id])
    {
      R.CandidateExactly(shares[id], now);
    }
  }

  lemma NothingDueIsNoCandidate(shares: Shares, clock: nat -> int)
    requires AllWellKept(shares) && NothingComesDue(shares, clock)
    ensures NothingNewlyDue(shares, clock)
  {
    hide Reapable, R.Due, R.IsLeft, R.WellKept;
    forall k: nat, id | id in shares && Reapable(shares[id], clock(k))
      ensures Reapable(shares[id], clock(0))
    {
      R.CandidateExactly(shares[id], clock(k));
      R.CandidateExactly(shares[id], clock(0));
    }
  }

  /** A due share of which nothing is left is erased; one of which something is left is not. */
  lemma LeftOrErased(db: Db)
    ensures IsErased(db, db) <==> !R.IsLeft(db)
  {
    if db.chunks == map[] {
      assert Orphans(db) == db.blobs.Keys;
    }
  }

  lemma DoneIsErased(db: Db, db': Db)
    requires IsDone(db, db')
    ensures IsErased(db, db')
  {
  }

  /** An empty backlog is, for the owners, that every due share is erased; and no other share was touched. */
  lemma OwnersView(first: Shares, shares: Shares, clock: nat -> int)
    requires AllWellKept(first) && BacklogWithout(first, shares, Candidates(shares, clock(0)), clock)
    ensures Candidates(first, clock(0)) == DueAndLeft(first, clock(0))
    ensures Candidates(shares, clock(0)) == {} <==>
      forall id :: id in first && id in shares && R.Due(first[id], clock(0)) ==> IsErased(first[id], shares[id])
    ensures forall id :: id in first && !R.Due(first[id], clock(0)) ==> shares[id] == first[id]
  {
    hide Reapable, R.Due, R.IsLeft, IsDone, IsErased, AllWellKept;
    CandidatesAreDueAndLeft(first, clock(0));
    var left := Candidates(shares, clock(0));
    forall id | id in first && id in shares && R.Due(first[id], clock(0))
      ensures IsErased(first[id], shares[id]) <==> id !in left
    {
      LeftOrErased(first[id]);
      if id in Candidates(first, clock(0)) - left {
        DoneIsErased(first[id], shares[id]);
      }
    }
  }

  // ---- Progress ----

  /** How many of `n` due shares are left after `k` sweeps of `b`. */
  function Backlog(n: nat, b: nat, k: nat): (r: nat)
  {
    if k == 0 then n else Backlog(n, b, k - 1) - Min(b, Backlog(n, b, k - 1))
  }

  lemma {:induction false} BacklogInClosedForm(n: nat, b: nat, k: nat)
    ensures Backlog(n, b, k) == if n >= k * b then n - k * b else 0
  {
    if k > 0 {
      BacklogInClosedForm(n, b, k - 1);
      assert k * b == (k - 1) * b + b;
    }
  }

  lemma BacklogIsEmpty(n: nat, b: nat, k: nat)
    requires b > 0
    ensures Backlog(n, b, k) == 0 <==> k >= ChunkCount(n, b)
  {
    BacklogInClosedForm(n, b, k);
    ChunkCountIsLeast(n, b, k);
  }

  /** The clock does not go back behind the first sweep, and no share becomes due after it. */
  ghost predicate NothingNewlyDue(shares: Shares, clock: nat -> int)
  {
    && (forall k: nat :: clock(0) <= clock(k))
    && (forall k: nat, id :: id in shares && Reapable(shares[id], clock(k)) ==> Reapable(shares[id], clock(0)))
  }

  lemma DueStaysDue(db: Db, now: int, later: int)
    requires Reapable(db, now) && now <= later
    ensures Reapable(db, later)
  {
  }

  /** What a sweep leaves of a share it picked. */
  ghost predicate IsDone(db: Db, db': Db)
  {
    && db'.chunks == map[] && db'.blobs.Keys == Orphans(db) && db'.share.state == Destroyed
    && ReaperEntries(db'.audit) == ReaperEntries(db.audit) + 1
    && forall now :: !Reapable(db', now)
  }

  /** What a failure leaves of it: its row, its chunk rows and its entries, some blobs perhaps gone. */
  ghost predicate IsKept(db: Db, db': Db)
  {
    db' == db.(blobs := db'.blobs)
  }

  /** Between `first` and `shares`, exactly the due shares outside `due` were finalised. */
  ghost predicate BacklogWithout(first: Shares, shares: Shares, due: set<string>, clock: nat -> int)
  {
    && shares.Keys == first.Keys && due <= Candidates(first, clock(0))
    && forall id :: id in first && id in shares ==>
         if id in Candidates(first, clock(0)) - due then IsDone(first[id], shares[id]) else shares[id] == first[id]
  }

  lemma FinalisedIsIsDone(db: Db, now: int)
    ensures IsDone(db, Finalised(db, now))
  {
    hide Finalised, Reapable;
    forall later
      ensures !Reapable(Finalised(db, now), later)
    {
      FinalisedIsDone(db, now, later);
    }
    FinalisedIsDone(db, now, now);
  }

  /** A sweep takes a whole batch out of the candidates, or all of them; at any moment, exactly the picked are gone. */
  lemma SweepRemovesABatch(shares: Shares, now: int, later: int, limit: nat, picked: seq<string>)
    requires IsAnswer(shares, now, limit, picked)
    ensures Candidates(SweptShares(shares, now, Members(picked)), later) == Candidates(shares, later) - Members(picked)
    ensures Members(picked) <= Candidates(shares, now) && |Members(picked)| == Min(limit, |Candidates(shares, now)|)
    ensures |Candidates(SweptShares(shares, now, Members(picked)), now)| == |Candidates(shares, now)| - Min(limit, |Candidates(shares, now)|)
  {
    hide Reapable, Finalised;
    DistinctSize(picked);
    var swept := SweptShares(shares, now, Members(picked));
    forall id | id in Members(picked)
      ensures id in swept && !Reapable(swept[id], later) && !Reapable(swept[id], now)
    {
      FinalisedIsDone(shares[id], now, later);
      FinalisedIsDone(shares[id], now, now);
    }
    forall id
      ensures id in Candidates(swept, later) <==> id in Candidates(shares, later) - Members(picked)
      ensures id in Candidates(swept, now) <==> id in Candidates(shares, now) - Members(picked)
    {
    }
    assert Candidates(swept, later) == Candidates(shares, later) - Members(picked);
    assert Candidates(swept, now) == Candidates(shares, now) - Members(picked);
  }

  /** While nothing is newly due, the candidates at the k-th sweep are those that were due at the first. */
  lemma SameCandidates(first: Shares, shares: Shares, clock: nat -> int, k: nat)
    requires NothingNewlyDue(first, clock) && BacklogWithout(first, shares, Candidates(shares, clock(0)), clock)
    ensures Candidates(shares, clock(k)) == Candidates(shares, clock(0))
  {
    hide Reapable, Orphans;
    forall id
      ensures id in Candidates(shares, clock(k)) <==> id in Candidates(shares, clock(0))
    {
      if id in shares && shares[id] == first[id] && Reapable(first[id], clock(0)) {
        DueStaysDue(first[id], clock(0), clock(k));
      }
    }
  }

  lemma SweepShrinksBacklog(first: Shares, shares: Shares, clock: nat -> int, k: nat, limit: nat, picked: seq<string>)
    requires NothingNewlyDue(first, clock) && BacklogWithout(first, shares, Candidates(shares, clock(0)), clock)
    requires IsAnswer(shares, clock(k), limit, picked)
    ensures
      var swept := SweptShares(shares, clock(k), Members(picked));
      && BacklogWithout(first, swept, Candidates(swept, clock(0)), clock)
      && |Candidates(swept, clock(0))| == |Candidates(shares, clock(0))| - Min(limit, |Candidates(shares, clock(0))|)
  {
    hide Reapable, Finalised, IsAnswer, IsDone;
    var swept := SweptShares(shares, clock(k), Members(picked));
    SameCandidates(first, shares, clock, k);
    SweepRemovesABatch(shares, clock(k), clock(0), limit, picked);
    assert Candidates(swept, clock(0)) == Candidates(shares, clock(0)) - Members(picked);
    assert |Candidates(shares, clock(0)) - Members(picked)| == |Candidates(shares, clock(0))| - |Members(picked)|;
    forall id | id in first
      ensures if id in Candidates(first, clock(0)) - Candidates(swept, clock(0)) then IsDone(first[id], swept[id]) else swept[id] == first[id]
    {
      if id in Members(picked) {
        assert id in Candidates(shares, clock(0));
        assert shares[id] == first[id];
        FinalisedIsIsDone(first[id], clock(k));
      }
    }
  }

  lemma HasElement(s: set<int>)
    requires s != {}
    ensures exists x: int :: x in s
  {
    if forall x: int :: x !in s {
      assert false;
    }
  }

  /** The rows of a share in some order. */
  ghost function RowList(db: Db): (keys: seq<int>)
    ensures ListsRows(keys, db)
  {
    AnyOrder(db.chunks.Keys)
  }

  ghost function AnyOrder(s: set<int>): (keys: seq<int>)
    ensures |keys| == |s| && (set k | k in keys) == s
    decreases |s|
  {
    if s == {} then []
    else
      HasElement(s);
      var x: int :| x in s;
      var rest := AnyOrder(s - {x});
      assert (set k | k in [x] + rest) == {x} + (set k | k in rest);
      [x] + rest
  }

  lemma {:induction false} RemovedKeepsOrphans(db: Db, keys: seq<int>, w: Weather, c: nat)
    requires OnlyLeft(db, keys) && NamesNoOrphan(db, keys)
    ensures
      var (db', _, removed) := Removed(db, keys, w, c);
      && Orphans(db') == Orphans(db) && db' == db.(blobs := db'.blobs)
      && (removed ==> OnlyLeft(db', []))
    decreases |keys|
  {
    hide OnlyLeft, NamesNoOrphan, Orphans, RemoveBlob;
    if keys != [] {
      RemovalKeepsOrphans(db, keys);
      RemovalIsLocal(db, keys[0]);
      if !w.cancelled(c) && w.outcome(c).Applied? {
        RemovedKeepsOrphans(RemoveBlob(db, keys[0]), keys[1..], w, c + 1);
      }
    }
  }

  /** Whatever fails, and wherever, reaping a share makes no orphan and removes none. */
  lemma ReapedKeepsOrphans(db: Db, now: int, keys: seq<int>, w: Weather, c: nat)
    requires ListsRows(keys, db)
    ensures Orphans(Reaped(db, now, keys, w, c).0) == Orphans(db)
  {
    hide OnlyLeft, NamesNoOrphan, Orphans, RemoveBlob, Removed, FinalizeDestroy;
    FetchedKeysCoverTheRows(keys, db);
    RemovedKeepsOrphans(db, keys, w, c + 1);
    var (db', _, removed) := Removed(db, keys, w, c + 1);
    if removed {
      FinalizeKeepsOrphans(db', now, |keys|);
    }
  }

  /** Reaping is all or nothing as far as the database goes, whatever fails. */
  lemma ReapedIsDoneOrKept(db: Db, now: int, keys: seq<int>, w: Weather, c: nat)
    requires ListsRows(keys, db)
    ensures IsDone(db, Reaped(db, now, keys, w, c).0) || IsKept(db, Reaped(db, now, keys, w, c).0)
  {
    hide OnlyLeft, NamesNoOrphan, Orphans, Removed, FinalizeDestroy, IsDone;
    FetchedKeysCoverTheRows(keys, db);
    RemovedKeepsOrphans(db, keys, w, c + 1);
    var (db', _, removed) := Removed(db, keys, w, c + 1);
    if removed {
      FinalizedIsDone(db, db', now, |keys|);
    }
  }

  /** What is reported is what happened: a share reported processed is done, and one that was locked is left with its rows. */
  lemma ReportIsTrue(db: Db, now: int, keys: seq<int>, w: Weather, c: nat)
    requires ListsRows(keys, db)
    ensures
      var (db', _, result) := Reaped(db, now, keys, w, c);
      && (result == Processed ==> IsDone(db, db'))
      && (result == Gone ==> IsKept(db, db'))
      && ((forall n: nat :: w.locked(n)) || (forall n: nat :: w.outcome(n).Lost?) ==> result != Processed && IsKept(db, db'))
      && ((forall n: nat :: w.cancelled(n)) && keys != [] ==> result == Failed && db' == db)
  {
    hide OnlyLeft, NamesNoOrphan, Orphans, FinalizeDestroy, IsDone, ShareModel.RemoveBlob;
    FetchedKeysCoverTheRows(keys, db);
    RemovedKeepsOrphans(db, keys, w, c + 1);
    var (db', _, removed) := Removed(db, keys, w, c + 1);
    if removed {
      FinalizedIsDone(db, db', now, |keys|);
    }
  }

  lemma FinalizedIsDone(db: Db, db': Db, now: int, n: int)
    requires IsKept(db, db') && Orphans(db') == Orphans(db) && OnlyLeft(db', [])
    ensures IsDone(db, FinalizeDestroy(db', now, n))
  {
    hide ReaperEntries, Reapable, ClassifyReason;
    var done := FinalizeDestroy(db', now, n);
    Appended(db.audit, ShareDestroyed(ShareModel.Reaper, ClassifyReason(db'.share), Some(n)));
    forall later
      ensures !Reapable(done, later)
    {
      NotReapable(done, later);
    }
    forall i
      ensures i in done.blobs.Keys <==> i in Orphans(db)
    {
      assert i in db'.blobs.Keys <==> i in Orphans(db') || (i in db'.chunks && i in db'.blobs);
    }
  }
}
