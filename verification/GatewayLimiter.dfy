/** The gateway's limiter, `evaluate` of apps/api-gateway/src/middleware/rateLimit.ts: add, then count, rule after rule. */
module GatewayLimiter {
  import opened Wrappers
  import opened Valkey
  import opened RateLog
  import I = IngestLimiter

  datatype Rule = Rule(bucket: string, windowMs: int, max: int)

  function Key(bucket: string, identity: string): (r: string)
  {
    "rl:" + bucket + ":" + identity
  }

  /** Keys of different buckets or identities differ, as long as no bucket name holds a colon. */
  lemma KeyInjective(a: string, i: string, b: string, j: string)
    requires ':' !in a && ':' !in b && Key(a, i) == Key(b, j)
    ensures a == b && i == j
  {
    KeyParts(a, i);
    KeyParts(b, j);
  }

  /** The bucket is what stands before the first colon after the prefix. */
  lemma KeyParts(a: string, i: string)
    ensures var k := Key(a, i);
      |k| == |a| + |i| + 4 && k[3 + |a|] == ':' && a == k[3..3 + |a|] && i == k[4 + |a|..]
      && forall n :: 0 <= n < |a| ==> k[3 + n] == a[n]
  {
  }

  function At(keys: map<string, ZSet>, key: string): (z: ZSet)
  {
    if key in keys then keys[key] else EMPTY
  }

  /** The pipeline of one rule: trim, add, count, expire; and whether the count stays within the rule. */
  function Attempt(z: ZSet, now: int, rule: Rule, m: Member): (r: (ZSet, bool))
  {
    var added := Add(RemoveRange(Live(z, now), Some(0), now - rule.windowMs), now, m);
    (PExpire(added, now, rule.windowMs), |added.scores| <= rule.max)
  }

  /** `evaluate`: every rule in order up to the first that trips. */
  function EvaluateRules(keys: map<string, ZSet>, identity: string, rules: seq<Rule>, requestId: string, now: int)
    : (r: (map<string, ZSet>, Option<Rule>))
    decreases |rules|
  {
    if rules == [] then (keys, None)
    else
      var key := Key(rules[0].bucket, identity);
      var (z, within) := Attempt(At(keys, key), now, rules[0], Member(now, requestId));
      if !within then (keys[key := z], Some(rules[0]))
      else EvaluateRules(keys[key := z], identity, rules[1..], requestId, now)
  }

  lemma LiveAfterTrim(z: ZSet, now: int, cutoff: int, score: int, m: Member)
    ensures
      var trimmed := RemoveRange(Live(z, now), Some(0), cutoff);
      Live(trimmed, now) == trimmed && Live(Add(trimmed, score, m), now) == Add(trimmed, score, m)
  {
  }

  /** One turn of the loop of `evaluate`: the pipeline of a rule, and its count. */
  method RunPipeline(server: Server, key: string, rule: Rule, member: Member, nowMs: int) returns (count: nat)
    modifies server
    ensures var (z, within) := Attempt(old(server.At(key)), nowMs, rule, member);
            server.keys == old(server.keys)[key := z] && (count <= rule.max <==> within)
  {
    hide Live, RemoveRange, PExpire;
    var cutoff := nowMs - rule.windowMs;
    LiveAfterTrim(server.At(key), nowMs, cutoff, nowMs, member);
    server.ZRemRangeByScore(key, nowMs, Some(0), cutoff);
    server.ZAdd(key, nowMs, nowMs, member);
    count := server.ZCard(key, nowMs);
    server.PExpireKey(key, nowMs, rule.windowMs);
  }

  /** `evaluate` against a server that answers. */
  method Evaluate(server: Server, identity: string, rules: seq<Rule>, requestId: string, nowMs: int)
    returns (tripped: Option<Rule>)
    modifies server
    ensures (server.keys, tripped) == EvaluateRules(old(server.keys), identity, rules, requestId, nowMs)
  {
    hide Attempt, Key;
    for k := 0 to |rules|
      invariant EvaluateRules(old(server.keys), identity, rules, requestId, nowMs)
             == EvaluateRules(server.keys, identity, rules[k..], requestId, nowMs)
    {
      assert rules[k..][0] == rules[k] && rules[k..][1..] == rules[k + 1..];
      var rule := rules[k];
      var count := RunPipeline(server, Key(rule.bucket, identity), rule, Member(nowMs, requestId), nowMs);
      if count > rule.max {
        return Some(rule);
      }
    }
    tripped := None;
  }

  // ---- One rule, one identity: the log of all attempts ----

  function AllMarked(n: nat): (r: seq<bool>)
    ensures |r| == n
  {
    seq(n, _ => true)
  }

  /** Let a request in when at most `max` attempts, itself included, are less than a window old. */
  function AttemptDecisions(log: seq<Member>, rule: Rule): (r: seq<bool>)
    ensures |r| == |log|
  {
    if log == [] then []
    else
      var k := |log| - 1;
      AttemptDecisions(log[..k], rule) + [InWindow(log[..k], AllMarked(k), log[k].at - rule.windowMs) + 1 <= rule.max]
  }

  function AttemptAll(log: seq<Member>, rule: Rule): (r: (ZSet, seq<bool>))
    ensures |r.1| == |log|
  {
    if log == [] then (EMPTY, [])
    else
      var k := |log| - 1;
      var (z, before) := AttemptAll(log[..k], rule);
      var (z', ok) := Attempt(z, log[k].at, rule, log[k]);
      (z', before + [ok])
  }

  ghost predicate SinceTheEpoch(log: seq<Member>)
  {
    forall k :: 0 <= k < |log| ==> log[k].at >= 0
  }

  /** Every stored stamp lies between the epoch and `now`. */
  ghost predicate StampedBefore(z: ZSet, now: int)
  {
    forall m :: m in z.scores ==> 0 <= z.scores[m] <= now
  }

  /** One attempt on a set that outlives its window: what is counted, and what is left. */
  lemma AttemptSummary(z: ZSet, now: int, rule: Rule, m: Member)
    requires Outlives(z, rule.windowMs) && StampedBefore(z, now) && rule.windowMs > 0 && now >= 0
    ensures
      var (z', within) := Attempt(z, now, rule, m);
      && Outlives(z', rule.windowMs) && StampedBefore(z', now)
      && z'.scores == Above(z.scores, now - rule.windowMs)[m := now]
      && (within <==> |z'.scores| <= rule.max)
  {
    hide Above, Outlives;
    var window := rule.windowMs;
    ExpiryIsInvisible(z, now, window);
    var live := Live(z, now);
    TrimLeavesTheWindow(live, Some(0), now - window);
    var kept := RemoveRange(live, Some(0), now - window);
    assert StampedBefore(kept, now) by { AboveIsStamped(live, kept, now, now - window); }
    AddOutlives(kept, now, window, m);
  }

  lemma AboveIsStamped(z: ZSet, kept: ZSet, now: int, cutoff: int)
    requires StampedBefore(z, now) && kept.scores == Above(z.scores, cutoff)
    ensures StampedBefore(kept, now)
  {
  }

  lemma AddOutlives(kept: ZSet, now: int, window: int, m: Member)
    requires StampedBefore(kept, now) && window > 0 && now >= 0
    ensures
      var z := PExpire(Add(kept, now, m), now, window);
      Outlives(z, window) && StampedBefore(z, now) && z.scores == kept.scores[m := now]
  {
    assert m in Add(kept, now, m).scores;
  }

  // ---- One rule, one identity: agreement with the log ----

  /** One more attempt on a set that holds `earlier` inside the window. */
  lemma AttemptCounts(z: ZSet, earlier: map<Member, int>, m: Member, rule: Rule)
    requires Outlives(z, rule.windowMs) && StampedBefore(z, m.at) && rule.windowMs > 0 && m.at >= 0 && m !in earlier
    requires Above(z.scores, m.at - rule.windowMs) == Above(earlier, m.at - rule.windowMs)
    ensures
      var (z', within) := Attempt(z, m.at, rule, m);
      var cutoff := m.at - rule.windowMs;
      && Outlives(z', rule.windowMs) && StampedBefore(z', m.at)
      && Above(z'.scores, cutoff) == Above(earlier[m := m.at], cutoff)
      && (within <==> |Above(earlier, cutoff)| + 1 <= rule.max)
  {
    AttemptSummary(z, m.at, rule, m);
    hide Attempt, Above, Outlives, StampedBefore;
    var cutoff := m.at - rule.windowMs;
    AboveAdd(earlier, m, m.at, cutoff);
    AboveIsSubset(earlier, cutoff, m);
    I.AboveTwice(earlier, cutoff);
    AboveAdd(Above(earlier, cutoff), m, m.at, cutoff);
  }

  lemma {:induction false} AttemptAllHolds(log: seq<Member>, rule: Rule)
    requires InOrder(log) && Distinct(log) && SinceTheEpoch(log) && rule.windowMs > 0
    ensures AttemptAll(log, rule).1 == AttemptDecisions(log, rule)
    ensures I.Holds(AttemptAll(log, rule).0, log, AllMarked(|log|), rule.windowMs)
    ensures log != [] ==> StampedBefore(AttemptAll(log, rule).0, log[|log| - 1].at)
  {
    hide Attempt, Above, Outlives, InWindow, StampedBefore;
    if log == [] {
      I.NoScoresOutlive(rule.windowMs);
    } else {
      var k := |log| - 1;
      AttemptAllHolds(log[..k], rule);
      AttemptAllStep(AttemptAll(log[..k], rule).0, log, rule);
    }
  }

  lemma AttemptAllStep(z: ZSet, log: seq<Member>, rule: Rule)
    requires InOrder(log) && Distinct(log) && SinceTheEpoch(log) && rule.windowMs > 0 && log != []
    requires
      var k := |log| - 1;
      I.Holds(z, log[..k], AllMarked(k), rule.windowMs) && (k > 0 ==> StampedBefore(z, log[k - 1].at))
    ensures
      var k := |log| - 1;
      var (z', within) := Attempt(z, log[k].at, rule, log[k]);
      && I.Holds(z', log, AllMarked(|log|), rule.windowMs) && StampedBefore(z', log[k].at)
      && (within <==> InWindow(log[..k], AllMarked(k), log[k].at - rule.windowMs) + 1 <= rule.max)
  {
    hide *;
    var k := |log| - 1;
    var m := log[k];
    var earlier := Marked(log[..k], AllMarked(k));
    HoldsUntil(z, log, rule.windowMs);
    MarkedCount(log[..k], AllMarked(k), m.at - rule.windowMs);
    AttemptCounts(z, earlier, m, rule);
    HoldsAgain(Attempt(z, m.at, rule, m).0, log, rule.windowMs);
  }

  lemma MarkedSnoc(log: seq<Member>)
    requires log != []
    ensures var k := |log| - 1; Marked(log, AllMarked(|log|)) == Marked(log[..k], AllMarked(k))[log[k] := log[k].at]
  {
    var k := |log| - 1;
    assert AllMarked(k + 1)[..k] == AllMarked(k);
  }

  lemma HoldsUntil(z: ZSet, log: seq<Member>, window: int)
    requires InOrder(log) && Distinct(log) && SinceTheEpoch(log) && log != []
    requires
      var k := |log| - 1;
      I.Holds(z, log[..k], AllMarked(k), window) && (k > 0 ==> StampedBefore(z, log[k - 1].at))
    ensures
      var k := |log| - 1;
      var m := log[k];
      && Distinct(log[..k]) && m !in Marked(log[..k], AllMarked(k)) && m.at >= 0
      && Outlives(z, window) && StampedBefore(z, m.at)
      && Above(z.scores, m.at - window) == Above(Marked(log[..k], AllMarked(k)), m.at - window)
  {
    hide Above, Outlives, Marked;
    var k := |log| - 1;
    if k > 0 {
      assert log[..k][k - 1] == log[k - 1];
      AboveAbove(z.scores, Marked(log[..k], AllMarked(k)), log[k - 1].at - window, log[k].at - window);
    } else {
      assert Marked(log[..0], AllMarked(0)) == map[] by { NothingMarked(); }
    }
  }

  lemma NothingMarked()
    ensures Marked([], []) == map[]
    ensures AllMarked(0) == []
  {
  }

  lemma HoldsAgain(z: ZSet, log: seq<Member>, window: int)
    requires log != [] && Outlives(z, window)
    requires
      var k := |log| - 1;
      Above(z.scores, log[k].at - window) == Above(Marked(log[..k], AllMarked(k))[log[k] := log[k].at], log[k].at - window)
    ensures I.Holds(z, log, AllMarked(|log|), window)
  {
    hide Above, Outlives, Marked;
    MarkedSnoc(log);
  }

  lemma AboveIsSubset(scores: map<Member, int>, cutoff: int, m: Member)
    requires m !in scores
    ensures m !in Above(scores, cutoff)
  {
  }

  /** The gateway counts attempts where the ingest service counts admissions, so it never admits more. */
  lemma {:induction false} AttemptsOutnumberAdmissions(log: seq<Member>, marked: seq<bool>, cutoff: int)
    requires |log| == |marked|
    ensures InWindow(log, marked, cutoff) <= InWindow(log, AllMarked(|log|), cutoff)
  {
    if log != [] {
      var k := |log| - 1;
      assert AllMarked(k + 1)[..k] == AllMarked(k);
      AttemptsOutnumberAdmissions(log[..k], marked[..k], cutoff);
    }
  }

  lemma {:induction false} AttemptImpliesLog(log: seq<Member>, rule: Rule, j: nat)
    requires j < |log| && AttemptDecisions(log, rule)[j]
    ensures LogDecisions(log, rule.max, rule.windowMs)[j]
  {
    var k := |log| - 1;
    if j < k {
      AttemptImpliesLog(log[..k], rule, j);
    } else {
      AttemptsOutnumberAdmissions(log[..k], LogDecisions(log[..k], rule.max, rule.windowMs), log[k].at - rule.windowMs);
    }
  }

  /**
   * On one request stream, with one rule on both sides and a clock that does not go back: the gateway admits a
   * request exactly when fewer than `max` earlier attempts are less than a window old, and every request it
   * admits the ingest limiter admits too.
   */
  lemma GatewayIsStricter(log: seq<Member>, bucket: string, limit: nat, windowSeconds: nat, j: nat)
    requires InOrder(log) && Distinct(log) && SinceTheEpoch(log) && limit > 0 && windowSeconds > 0 && j < |log|
    ensures
      var rule := Rule(bucket, windowSeconds * 1000, limit);
      && AttemptAll(log, rule).1 == AttemptDecisions(log, rule)
      && (AttemptAll(log, rule).1[j] ==> I.AcquireAll(log, limit, windowSeconds).1[j])
  {
    var rule := Rule(bucket, windowSeconds * 1000, limit);
    AttemptAllHolds(log, rule);
    I.AcquireAllHolds(log, limit, windowSeconds);
    if AttemptDecisions(log, rule)[j] {
      AttemptImpliesLog(log, rule, j);
    }
  }
}
