/**
 * The sweeps when some shares fail again and again: the order of the query and its limit decide whether the others
 * are reached.
 */
module ReaperProgress {
  import opened ShareModel
  import opened Slicing
  import opened Reaper

  /** A sweep in which at most the `stuck` shares fail. */
  ghost predicate PartlySwept(before: Shares, after: Shares, picked: seq<string>, stuck: set<string>)
  {
    && after.Keys == before.Keys
    && forall id :: id in before && id in after ==>
         if id !in picked then after[id] == before[id]
         else IsDone(before[id], after[id]) || (id in stuck && IsKept(before[id], after[id]))
  }

  /** Sweeps one after the other, the k-th at `clock(k)`. */
  ghost predicate Sweeps(worlds: seq<Shares>, picks: seq<seq<string>>, clock: nat -> int, limit: nat, stuck: set<string>)
  {
    && |worlds| == |picks| + 1
    && forall k: nat :: k < |picks| ==>
         IsAnswer(worlds[k], clock(k), limit, picks[k]) && PartlySwept(worlds[k], worlds[k + 1], picks[k], stuck)
  }

  /** Since the first sweep every share is as it was, up to its blobs, or done for good. */
  ghost predicate Settles(first: Shares, shares: Shares)
  {
    && shares.Keys == first.Keys
    && forall id :: id in first && id in shares ==>
         IsKept(first[id], shares[id]) || forall now :: !Reapable(shares[id], now)
  }

  lemma KeptIsAsDue(db: Db, db': Db, now: int)
    requires IsKept(db, db')
    ensures Reapable(db', now) <==> Reapable(db, now)
  {
  }

  lemma SweepSettles(first: Shares, before: Shares, after: Shares, picked: seq<string>, stuck: set<string>)
    requires Settles(first, before) && PartlySwept(before, after, picked, stuck)
    ensures Settles(first, after)
  {
    hide Reapable;
    forall id | id in first && id in after
      ensures IsKept(first[id], after[id]) || forall now :: !Reapable(after[id], now)
    {
      if after[id] != before[id] && IsKept(before[id], after[id]) && !IsKept(first[id], before[id]) {
        forall now
          ensures !Reapable(after[id], now)
        {
          KeptIsAsDue(before[id], after[id], now);
        }
      }
    }
  }

  /** With nothing newly due, who is due at the k-th sweep was due at the first. */
  lemma SettledCandidates(first: Shares, shares: Shares, clock: nat -> int, k: nat)
    requires Settles(first, shares) && NothingNewlyDue(first, clock)
    ensures Candidates(shares, clock(k)) == Candidates(shares, clock(0))
  {
    hide Reapable;
    forall id
      ensures id in Candidates(shares, clock(k)) <==> id in Candidates(shares, clock(0))
    {
      if id in shares && IsKept(first[id], shares[id]) {
        KeptIsAsDue(first[id], shares[id], clock(k));
        KeptIsAsDue(first[id], shares[id], clock(0));
        if Reapable(first[id], clock(0)) {
          DueStaysDue(first[id], clock(0), clock(k));
        }
      }
    }
  }

  /** The due shares that do not fail. */
  function Healthy(shares: Shares, now: int, stuck: set<string>): (r: set<string>)
  {
    Candidates(shares, now) - stuck
  }

  lemma SubsetSize<T>(a: set<T>, b: set<T>)
    requires a <= b
    ensures |a| <= |b|
  {
    assert |b - a| == |b| - |a|;
  }

  /** A full answer has room for all but the stuck; a short one names everybody. */
  lemma AnswerReachesTheHealthy(due: set<string>, picked: set<string>, limit: nat, stuck: set<string>)
    requires picked <= due && |picked| == Min(limit, |due|) && |stuck| < limit
    ensures |(due - stuck) * picked| >= Min(limit - |stuck|, |due - stuck|)
  {
    var healthy := due - stuck;
    if |due| <= limit {
      assert |due - picked| == |due| - |picked|;
      assert picked == due;
      assert healthy * picked == healthy;
    } else {
      assert picked == healthy * picked + stuck * picked;
      assert |picked| == |healthy * picked| + |stuck * picked|;
      SubsetSize(stuck * picked, stuck);
    }
  }

  /** One sweep takes a batch less the stuck out of the healthy, or all of them. */
  lemma SweepReachesTheHealthy(
      before: Shares, after: Shares, now: int, due: int, limit: nat, picked: seq<string>, stuck: set<string>)
    requires IsAnswer(before, now, limit, picked) && PartlySwept(before, after, picked, stuck) && |stuck| < limit
    requires Candidates(before, now) == Candidates(before, due)
    ensures |Healthy(after, due, stuck)| <= |Healthy(before, due, stuck)| - Min(limit - |stuck|, |Healthy(before, due, stuck)|)
  {
    hide Reapable, IsKept;
    DistinctSize(picked);
    assert Members(picked) <= Candidates(before, now);
    AnswerReachesTheHealthy(Candidates(before, now), Members(picked), limit, stuck);
    var healthy := Healthy(before, due, stuck);
    forall id | id in Healthy(after, due, stuck)
      ensures id in healthy - Members(picked)
    {
    }
    SubsetSize(Healthy(after, due, stuck), healthy - Members(picked));
    assert |healthy - Members(picked)| == |healthy| - |healthy * Members(picked)|;
  }

  lemma {:induction false} SweepsReachTheHealthy(
      worlds: seq<Shares>, picks: seq<seq<string>>, clock: nat -> int, limit: nat, stuck: set<string>, k: nat)
    requires Sweeps(worlds, picks, clock, limit, stuck) && k < |worlds| && |stuck| < limit && NothingNewlyDue(worlds[0], clock)
    ensures Settles(worlds[0], worlds[k])
    ensures |Healthy(worlds[k], clock(0), stuck)| <= Backlog(|Healthy(worlds[0], clock(0), stuck)|, limit - |stuck|, k)
  {
    hide IsAnswer, PartlySwept, Settles, NothingNewlyDue;
    if k == 0 {
      SettledAtFirst(worlds[0]);
    } else {
      SweepsReachTheHealthy(worlds, picks, clock, limit, stuck, k - 1);
      SettledCandidates(worlds[0], worlds[k - 1], clock, k - 1);
      assert PartlySwept(worlds[k - 1], worlds[k - 1 + 1], picks[k - 1], stuck);
      SweepReachesTheHealthy(worlds[k - 1], worlds[k], clock(k - 1), clock(0), limit, picks[k - 1], stuck);
      SweepSettles(worlds[0], worlds[k - 1], worlds[k], picks[k - 1], stuck);
    }
  }

  lemma SettledAtFirst(shares: Shares)
    ensures Settles(shares, shares)
  {
  }

  /**
   * Progress in spite of failures: while fewer due shares fail than a batch holds, and nothing is newly due, the
   * others are all finalised after as many sweeps as there are batches, less the failing shares, among them.
   */
  lemma FewFailuresOnlyDelay(
      worlds: seq<Shares>, picks: seq<seq<string>>, clock: nat -> int, limit: nat, stuck: set<string>, k: nat)
    requires Sweeps(worlds, picks, clock, limit, stuck) && k < |worlds| && |stuck| < limit && NothingNewlyDue(worlds[0], clock)
    requires k >= ChunkCount(|Healthy(worlds[0], clock(0), stuck)|, limit - |stuck|)
    ensures Candidates(worlds[k], clock(0)) <= stuck
  {
    hide Sweeps, NothingNewlyDue;
    SweepsReachTheHealthy(worlds, picks, clock, limit, stuck, k);
    BacklogIsEmpty(|Healthy(worlds[0], clock(0), stuck)|, limit - |stuck|, k);
    assert Healthy(worlds[k], clock(0), stuck) == {};
    forall id | id in Candidates(worlds[k], clock(0))
      ensures id in stuck
    {
      assert id !in Healthy(worlds[k], clock(0), stuck);
    }
  }

  // ---- A failing batch at the head ----

  /** The stuck shares are due at every sweep, stand before every other due share, and fill a batch. */
  ghost predicate HoldTheHead(shares: Shares, clock: nat -> int, limit: nat, stuck: set<string>)
  {
    && |stuck| >= limit && stuck <= shares.Keys
    && (forall f, k: nat :: f in stuck && f in shares ==> Reapable(shares[f], clock(k)))
    && (forall f, other :: f in stuck && other in shares && other !in stuck && f in shares ==>
          !NotAfter(shares[other].share, shares[f].share))
  }

  /** None of them gets through. */
  ghost predicate AllFail(before: Shares, after: Shares, stuck: set<string>)
  {
    forall id :: id in stuck && id in before && id in after ==> IsKept(before[id], after[id])
  }

  lemma SomebodyIsLeftOut<T>(stuck: set<T>, picked: set<T>, outsider: T) returns (f: T)
    requires |picked| <= |stuck| && outsider in picked && outsider !in stuck
    ensures f in stuck && f !in picked
  {
    SubsetSize(stuck * picked, picked - {outsider});
    assert |stuck - picked| == |stuck| - |stuck * picked|;
    f :| f in stuck - picked;
  }

  lemma AnswerKeepsTheOrder(shares: Shares, now: int, limit: nat, picked: seq<string>, id: string, other: string)
    requires IsAnswer(shares, now, limit, picked) && id in picked && other in Candidates(shares, now) && other !in picked
    ensures id in shares && other in shares && NotAfter(shares[id].share, shares[other].share)
  {
    hide NotAfter;
    assert id in Candidates(shares, now);
  }

  lemma AnswerIsShort(shares: Shares, now: int, limit: nat, picked: seq<string>)
    requires IsAnswer(shares, now, limit, picked)
    ensures |Members(picked)| <= limit && forall id :: id in picked ==> id in shares
  {
    DistinctSize(picked);
    assert forall id :: id in picked ==> id in Candidates(shares, now);
  }

  lemma HeadIsDueAndFirst(shares: Shares, clock: nat -> int, k: nat, limit: nat, stuck: set<string>, f: string, other: string)
    requires HoldTheHead(shares, clock, limit, stuck) && f in stuck && other in shares && other !in stuck
    ensures f in shares && f in Candidates(shares, clock(k)) && !NotAfter(shares[other].share, shares[f].share)
  {
    hide Reapable, NotAfter;
    assert f in shares.Keys;
  }

  /** A batch at the head leaves no room for anybody else. */
  lemma HeadFillsTheAnswer(shares: Shares, clock: nat -> int, k: nat, limit: nat, picked: seq<string>, stuck: set<string>)
    requires HoldTheHead(shares, clock, limit, stuck) && IsAnswer(shares, clock(k), limit, picked)
    ensures forall id :: id in picked ==> id in stuck
  {
    assert limit <= |stuck|;
    hide *;
    AnswerIsShort(shares, clock(k), limit, picked);
    forall other | other in picked
      ensures other in stuck
    {
      if other !in stuck {
        assert other in Members(picked) by { IsMember(picked, other); }
        var f := SomebodyIsLeftOut(stuck, Members(picked), other);
        assert f !in picked by { NotMember(picked, f); }
        HeadIsDueAndFirst(shares, clock, k, limit, stuck, f, other);
        AnswerKeepsTheOrder(shares, clock(k), limit, picked, other, f);
      }
    }
  }

  lemma IsMember<T>(s: seq<T>, x: T)
    requires x in s
    ensures x in Members(s)
  {
  }

  lemma NotMember<T>(s: seq<T>, x: T)
    requires x !in Members(s)
    ensures x !in s
  {
  }

  lemma KeptHoldTheHead(before: Shares, after: Shares, clock: nat -> int, limit: nat, stuck: set<string>)
    requires HoldTheHead(before, clock, limit, stuck) && AllFail(before, after, stuck) && after.Keys == before.Keys
    requires forall id :: id in before && id in after && id !in stuck ==> after[id] == before[id]
    ensures HoldTheHead(after, clock, limit, stuck)
  {
    hide Reapable, NotAfter;
    forall f, k: nat | f in stuck && f in after
      ensures Reapable(after[f], clock(k))
    {
      assert f in before.Keys;
      KeptIsAsDue(before[f], after[f], clock(k));
    }
    forall f, other | f in stuck && other in after && other !in stuck && f in after
      ensures !NotAfter(after[other].share, after[f].share)
    {
      assert f in before.Keys && other in before.Keys;
      assert IsKept(before[f], after[f]);
    }
  }

  /**
   * And starvation: when a whole batch of due shares at the head of the order fails at every sweep, no other share
   * is ever touched, however many sweeps there are.
   */
  lemma {:induction false} FailingHeadStarvesTheRest(
      worlds: seq<Shares>, picks: seq<seq<string>>, clock: nat -> int, limit: nat, stuck: set<string>, k: nat)
    requires Sweeps(worlds, picks, clock, limit, stuck) && k < |worlds| && HoldTheHead(worlds[0], clock, limit, stuck)
    requires forall j: nat :: j < |picks| ==> AllFail(worlds[j], worlds[j + 1], stuck)
    ensures HoldTheHead(worlds[k], clock, limit, stuck) && worlds[k].Keys == worlds[0].Keys
    ensures forall id :: id in worlds[0] && id in worlds[k] && id !in stuck ==> worlds[k][id] == worlds[0][id]
  {
    hide IsAnswer, HoldTheHead, AllFail, IsDone, IsKept;
    if k > 0 {
      FailingHeadStarvesTheRest(worlds, picks, clock, limit, stuck, k - 1);
      var before, after := worlds[k - 1], worlds[k];
      assert PartlySwept(before, worlds[k - 1 + 1], picks[k - 1], stuck) && AllFail(before, worlds[k - 1 + 1], stuck);
      HeadFillsTheAnswer(before, clock, k - 1, limit, picks[k - 1], stuck);
      KeptHoldTheHead(before, after, clock, limit, stuck);
    }
  }
}
