/**
 * What a sliding window means: a plain log of requests, oldest first, and who among them was let in. Both rate
 * limiters are compared with it.
 */
module RateLog {
  import opened Wrappers
  import opened Valkey

  ghost predicate InOrder(log: seq<Member>)
  {
    forall j, k :: 0 <= j < k < |log| ==> log[j].at <= log[k].at
  }

  ghost predicate Distinct(log: seq<Member>)
  {
    forall j, k :: 0 <= j < k < |log| ==> log[j] != log[k]
  }

  lemma LogPrefix(log: seq<Member>, k: nat)
    requires InOrder(log) && Distinct(log) && k < |log|
    ensures InOrder(log[..k]) && Distinct(log[..k]) && log[k] !in log[..k]
    ensures forall j :: 0 <= j < k ==> log[..k][j].at <= log[k].at
  {
  }

  /** How many of the marked requests of the log are later than `cutoff`. */
  function InWindow(log: seq<Member>, marked: seq<bool>, cutoff: int): (n: nat)
    requires |log| == |marked|
  {
    if log == [] then 0
    else
      var k := |log| - 1;
      InWindow(log[..k], marked[..k], cutoff) + if marked[k] && log[k].at > cutoff then 1 else 0
  }

  /** How many of the marked requests lie in the window of length `window` that ends at `t`. */
  function InWindowAt(log: seq<Member>, marked: seq<bool>, t: int, window: int): (n: nat)
    requires |log| == |marked|
  {
    if log == [] then 0
    else
      var k := |log| - 1;
      InWindowAt(log[..k], marked[..k], t, window) + if marked[k] && t - window < log[k].at <= t then 1 else 0
  }

  /** A window holds no more than what is later than any moment before it. */
  lemma {:induction false} WindowIsLater(log: seq<Member>, marked: seq<bool>, t: int, window: int, cutoff: int)
    requires |log| == |marked| && cutoff <= t - window
    ensures InWindowAt(log, marked, t, window) <= InWindow(log, marked, cutoff)
  {
    if log != [] {
      var k := |log| - 1;
      WindowIsLater(log[..k], marked[..k], t, window, cutoff);
    }
  }

  // ---- The plain log limiter ----

  /** Let a request in when fewer than `limit` of those let in before it are less than `window` old. */
  function LogDecisions(log: seq<Member>, limit: int, window: int): (r: seq<bool>)
    ensures |r| == |log|
  {
    if log == [] then []
    else
      var k := |log| - 1;
      var before := LogDecisions(log[..k], limit, window);
      before + [InWindow(log[..k], before, log[k].at - window) < limit]
  }

  /** So no window of that length ever holds more than `limit` of them. */
  lemma {:induction false} LogBoundsEveryWindow(log: seq<Member>, limit: nat, window: int, t: int)
    ensures InWindowAt(log, LogDecisions(log, limit, window), t, window) <= limit
  {
    if log != [] {
      var k := |log| - 1;
      var before := LogDecisions(log[..k], limit, window);
      LogBoundsEveryWindow(log[..k], limit, window, t);
      assert LogDecisions(log, limit, window)[..k] == before;
      if log[k].at <= t {
        WindowIsLater(log[..k], before, t, window, log[k].at - window);
      }
    }
  }

  // ---- The log as a set of members ----

  /** The marked requests with their times. */
  function Marked(log: seq<Member>, marked: seq<bool>): (r: map<Member, int>)
    requires |log| == |marked|
    ensures forall m :: m in r ==> m in log && r[m] == m.at
  {
    if log == [] then map[]
    else
      var k := |log| - 1;
      var before := Marked(log[..k], marked[..k]);
      if marked[k] then before[log[k] := log[k].at] else before
  }

  lemma AboveAdd(scores: map<Member, int>, m: Member, score: int, cutoff: int)
    requires m !in scores
    ensures Above(scores[m := score], cutoff) == if score > cutoff then Above(scores, cutoff)[m := score] else Above(scores, cutoff)
  {
  }

  /** With distinct members the set counts what the log counts. */
  lemma {:induction false} MarkedCount(log: seq<Member>, marked: seq<bool>, cutoff: int)
    requires |log| == |marked| && Distinct(log)
    ensures |Above(Marked(log, marked), cutoff)| == InWindow(log, marked, cutoff)
  {
    if log != [] {
      var k := |log| - 1;
      MarkedCount(log[..k], marked[..k], cutoff);
      if marked[k] {
        var before := Marked(log[..k], marked[..k]);
        assert log[k] !in log[..k];
        AboveAdd(before, log[k], log[k].at, cutoff);
        assert log[k] !in Above(before, cutoff);
      }
    }
  }
}
