/** The ingest service's limiter, services/ingest/Services/ValkeyRateLimiter.cs: one atomic script that counts, then adds. */
module IngestLimiter {
  import opened Wrappers
  import opened Valkey
  import opened RateLog

  /** `AcquireScript`: evict, count, add and refresh the deadline only when admitted. */
  function Acquire(z: ZSet, now: int, cutoff: int, limit: int, ttl: int, m: Member): (r: (ZSet, bool))
  {
    var kept := RemoveRange(Live(z, now), None, cutoff);
    if |kept.scores| >= limit then (kept, false) else (PExpire(Add(kept, now, m), now, ttl), true)
  }

  class ValkeyRateLimiter {
    const server: Server

    constructor (server: Server)
      ensures this.server == server
    {
      this.server := server;
    }

    /** `TryAcquireAsync` with a server that answers; a limit or window that is not positive switches it off. */
    method TryAcquireAsync(bucket: string, limit: int, windowSeconds: int, nowMs: int, guid: string) returns (admitted: bool)
      modifies server
      ensures limit <= 0 || windowSeconds <= 0 ==> admitted && server.keys == old(server.keys)
      ensures limit > 0 && windowSeconds > 0 ==>
        var key := "ratelimit:" + bucket;
        var (z, ok) := Acquire(
          old(server.At(key)), nowMs, nowMs - windowSeconds * 1000, limit, (windowSeconds + 5) * 1000, Member(nowMs, guid));
        admitted == ok && server.keys == old(server.keys)[key := z]
    {
      if limit <= 0 || windowSeconds <= 0 {
        return true;
      }
      var key := "ratelimit:" + bucket;
      var windowMs := windowSeconds * 1000;
      var cutoff := nowMs - windowMs;
      var ttlMs := (windowSeconds + 5) * 1000;
      server.ZRemRangeByScore(key, nowMs, None, cutoff);
      var count := server.ZCard(key, nowMs);
      if count >= limit {
        return false;
      }
      server.ZAdd(key, nowMs, nowMs, Member(nowMs, guid));
      server.PExpireKey(key, nowMs, ttlMs);
      return true;
    }
  }

  /** The script run for every request of a log on one bucket. */
  function AcquireAll(log: seq<Member>, limit: int, windowSeconds: int): (r: (ZSet, seq<bool>))
    ensures |r.1| == |log|
  {
    if log == [] then (EMPTY, [])
    else
      var k := |log| - 1;
      var (z, before) := AcquireAll(log[..k], limit, windowSeconds);
      var (z', ok) := Acquire(z, log[k].at, log[k].at - windowSeconds * 1000, limit, (windowSeconds + 5) * 1000, log[k]);
      (z', before + [ok])
  }

  /** The stored set is the admitted part of the log, as far back as the window of the last request reaches. */
  ghost predicate Holds(z: ZSet, log: seq<Member>, marked: seq<bool>, window: int)
    requires |log| == |marked|
  {
    && Outlives(z, window)
    && (log == [] ==> z.scores == map[])
    && (log != [] ==>
          var cutoff := log[|log| - 1].at - window;
          Above(z.scores, cutoff) == Above(Marked(log, marked), cutoff))
  }

  /** What the script finds in the window of a request is what the log has there. */
  lemma FindsTheLog(z: ZSet, log: seq<Member>, marked: seq<bool>, window: int, now: int)
    requires |log| == |marked| && Holds(z, log, marked, window) && Distinct(log)
    requires log != [] ==> log[|log| - 1].at <= now
    ensures Above(Live(z, now).scores, now - window) == Above(Marked(log, marked), now - window)
    ensures |Above(Live(z, now).scores, now - window)| == InWindow(log, marked, now - window)
  {
    hide Live, Above, Outlives, Marked, InWindow;
    ExpiryIsInvisible(z, now, window);
    MarkedCount(log, marked, now - window);
    if log != [] {
      AboveAbove(z.scores, Marked(log, marked), log[|log| - 1].at - window, now - window);
    }
  }

  lemma AboveTwice(scores: map<Member, int>, cutoff: int)
    ensures Above(Above(scores, cutoff), cutoff) == Above(scores, cutoff)
  {
  }

  lemma {:induction false} AcquireAllHolds(log: seq<Member>, limit: int, windowSeconds: int)
    requires InOrder(log) && Distinct(log) && limit > 0 && windowSeconds > 0
    ensures AcquireAll(log, limit, windowSeconds).1 == LogDecisions(log, limit, windowSeconds * 1000)
    ensures Holds(AcquireAll(log, limit, windowSeconds).0, log, LogDecisions(log, limit, windowSeconds * 1000), windowSeconds * 1000)
  {
    hide Acquire, Above, Outlives, InWindow;
    if log == [] {
      NoScoresOutlive(windowSeconds * 1000);
    } else {
      var k := |log| - 1;
      AcquireAllHolds(log[..k], limit, windowSeconds);
      var (z, before) := AcquireAll(log[..k], limit, windowSeconds);
      assert LogDecisions(log, limit, windowSeconds * 1000)[..k] == before;
      AcquireFollowsLog(z, log, before, limit, windowSeconds);
    }
  }

  /** One run of the script: it decides as the log does, and again holds the admitted part of it. */
  lemma {:induction false} AcquireFollowsLog(z: ZSet, log: seq<Member>, before: seq<bool>, limit: int, windowSeconds: int)
    requires InOrder(log) && Distinct(log) && log != [] && |before| == |log| - 1 && limit > 0 && windowSeconds > 0
    requires Holds(z, log[..|log| - 1], before, windowSeconds * 1000)
    ensures
      var k := |log| - 1;
      var m := log[k];
      var window := windowSeconds * 1000;
      var r := Acquire(z, m.at, m.at - window, limit, (windowSeconds + 5) * 1000, m);
      && r.1 == (InWindow(log[..k], before, m.at - window) < limit)
      && Holds(r.0, log, before + [r.1], window)
  {
    hide Live, RemoveRange, Above, Outlives, InWindow, Marked, InOrder, Distinct;
    var window := windowSeconds * 1000;
    var k := |log| - 1;
    var m := log[k];
    LogPrefix(log, k);
    FindsTheLog(z, log[..k], before, window, m.at);
    KeptIsTheWindow(z, m.at, window);
    var kept := RemoveRange(Live(z, m.at), None, m.at - window);
    NotAfter(log[..k], before, m.at, m.at - window);
    MarkedOneMore(log, before, |kept.scores| < limit);
    if |kept.scores| < limit {
      AddKeepsHolding(kept, Marked(log[..k], before), m, window);
    }
  }

  /** After the eviction exactly the window is left, and it outlives itself. */
  lemma KeptIsTheWindow(z: ZSet, now: int, window: int)
    requires Outlives(z, window)
    ensures
      var kept := RemoveRange(Live(z, now), None, now - window);
      && kept.scores == Above(Live(z, now).scores, now - window)
      && Above(kept.scores, now - window) == kept.scores && Outlives(kept, window)
  {
    hide Live, RemoveRange, Above, Outlives;
    ExpiryIsInvisible(z, now, window);
    TrimLeavesTheWindow(Live(z, now), None, now - window);
    TrimOutlives(Live(z, now), None, now - window, window);
    AboveTwice(Live(z, now).scores, now - window);
  }

  lemma MarkedOneMore(log: seq<Member>, before: seq<bool>, last: bool)
    requires log != [] && |before| == |log| - 1
    ensures
      var k := |log| - 1;
      var marked := Marked(log[..k], before);
      Marked(log, before + [last]) == if last then marked[log[k] := log[k].at] else marked
  {
    assert (before + [last])[..|log| - 1] == before;
  }

  lemma NotAfter(log: seq<Member>, marked: seq<bool>, at: int, cutoff: int)
    requires |log| == |marked| && forall j :: 0 <= j < |log| ==> log[j].at <= at
    ensures forall x :: x in Above(Marked(log, marked), cutoff) ==> Above(Marked(log, marked), cutoff)[x] <= at
  {
    hide Marked;
  }

  lemma NoScoresOutlive(window: int)
    ensures Outlives(EMPTY, window)
  {
  }

  /** Adding one request to both sides keeps them equal in its window, and its deadline outlives everything. */
  lemma AddKeepsHolding(kept: ZSet, log: map<Member, int>, m: Member, window: int)
    requires Above(kept.scores, m.at - window) == Above(log, m.at - window) == kept.scores
    requires m !in log && window > 0 && Outlives(kept, window)
    requires forall x :: x in kept.scores ==> kept.scores[x] <= m.at
    ensures
      var z := PExpire(Add(kept, m.at, m), m.at, window + 5000);
      Outlives(z, window) && Above(z.scores, m.at - window) == Above(log[m := m.at], m.at - window)
  {
    AboveAdd(log, m, m.at, m.at - window);
    assert m !in Above(log, m.at - window);
    AboveAdd(kept.scores, m, m.at, m.at - window);
    var scores := kept.scores[m := m.at];
    assert m in scores;
    assert scores != map[];
  }

  /**
   * The limiter is the plain log: with a clock that does not go back, evicting, expiring and counting admits
   * exactly the requests that find fewer than `limit` earlier admissions in the last window; hence no window
   * ever holds more than `limit` admissions.
   */
  lemma IngestRefinesTheLog(log: seq<Member>, limit: nat, windowSeconds: nat, t: int)
    requires InOrder(log) && Distinct(log) && limit > 0 && windowSeconds > 0
    ensures AcquireAll(log, limit, windowSeconds).1 == LogDecisions(log, limit, windowSeconds * 1000)
    ensures InWindowAt(log, AcquireAll(log, limit, windowSeconds).1, t, windowSeconds * 1000) <= limit
  {
    AcquireAllHolds(log, limit, windowSeconds);
    LogBoundsEveryWindow(log, limit, windowSeconds * 1000, t);
  }
}
