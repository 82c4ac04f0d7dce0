/**
 * The gateway's limiter with all its rules at once, and with the pipeline commands of different requests
 * interleaved.
 */
module GatewayRules {
  import opened Wrappers
  import opened Valkey
  import opened RateLog
  import opened GatewayLimiter

  // ---- Requests served one after the other ----

  datatype Request = Request(identity: string, member: Member)

  /** Bucket names are distinct and hold no colon, as those of the source. */
  ghost predicate BucketsApart(rules: seq<Rule>)
  {
    && (forall j, k :: 0 <= j < k < |rules| ==> rules[j].bucket != rules[k].bucket)
    && (forall k :: 0 <= k < |rules| ==> ':' !in rules[k].bucket && rules[k].windowMs > 0)
  }

  /** `evaluate` for each request in turn, from an empty server. */
  function ServeAll(rules: seq<Rule>, requests: seq<Request>): (r: (map<string, ZSet>, seq<bool>))
    ensures |r.1| == |requests|
  {
    if requests == [] then (map[], [])
    else
      var k := |requests| - 1;
      var q := requests[k];
      var (keys, before) := ServeAll(rules, requests[..k]);
      var (keys', tripped) := EvaluateRules(keys, q.identity, rules, q.member.id, q.member.at);
      (keys', before + [tripped.None?])
  }

  function Members(requests: seq<Request>): (r: seq<Member>)
    ensures |r| == |requests|
  {
    if requests == [] then [] else Members(requests[..|requests| - 1]) + [requests[|requests| - 1].member]
  }

  /** Which requests were admitted for one identity. */
  function AdmittedFor(requests: seq<Request>, admitted: seq<bool>, identity: string): (r: seq<bool>)
    requires |requests| == |admitted|
    ensures |r| == |requests|
  {
    if requests == [] then []
    else
      var k := |requests| - 1;
      AdmittedFor(requests[..k], admitted[..k], identity) + [admitted[k] && requests[k].identity == identity]
  }

  lemma {:induction false} MembersAt(requests: seq<Request>, j: nat)
    requires j < |requests|
    ensures Members(requests)[j] == requests[j].member
  {
    if j < |requests| - 1 {
      MembersAt(requests[..|requests| - 1], j);
    }
  }

  /** Rules of other buckets leave a key alone. */
  lemma {:induction false} OtherKeysStay(keys: map<string, ZSet>, identity: string, rules: seq<Rule>, id: string, now: int, key: string)
    requires forall k :: 0 <= k < |rules| ==> key != Key(rules[k].bucket, identity)
    ensures At(EvaluateRules(keys, identity, rules, id, now).0, key) == At(keys, key)
    decreases |rules|
  {
    hide Attempt, Key;
    if rules != [] {
      var own := Key(rules[0].bucket, identity);
      var (z, within) := Attempt(At(keys, own), now, rules[0], Member(now, id));
      assert forall k :: 0 <= k < |rules[1..]| ==> rules[1..][k] == rules[k + 1];
      if within {
        OtherKeysStay(keys[own := z], identity, rules[1..], id, now, key);
      }
    }
  }

  /** What `evaluate` does to the key of its r-th rule: one attempt or, when an earlier rule trips, nothing. */
  lemma {:induction false} RuleSummary(keys: map<string, ZSet>, identity: string, rules: seq<Rule>, id: string, now: int, r: nat)
    requires BucketsApart(rules) && r < |rules|
    ensures
      var (keys', tripped) := EvaluateRules(keys, identity, rules, id, now);
      var key := Key(rules[r].bucket, identity);
      var (z, within) := Attempt(At(keys, key), now, rules[r], Member(now, id));
      && (At(keys', key) == At(keys, key) || At(keys', key) == z)
      && (tripped.None? ==> At(keys', key) == z && within)
    decreases |rules|
  {
    hide Attempt, Key;
    var own := Key(rules[0].bucket, identity);
    var (z, within) := Attempt(At(keys, own), now, rules[0], Member(now, id));
    var rest := rules[1..];
    assert forall k :: 0 <= k < |rest| ==> rest[k] == rules[k + 1];
    assert BucketsApart(rest);
    if within {
      forall k | 0 <= k < |rest|
        ensures own != Key(rest[k].bucket, identity)
      {
        if own == Key(rest[k].bucket, identity) {
          KeyInjective(rules[0].bucket, identity, rest[k].bucket, identity);
        }
      }
      if r == 0 {
        OtherKeysStay(keys[own := z], identity, rest, id, now, own);
      } else {
        RuleSummary(keys[own := z], identity, rest, id, now, r - 1);
      }
    } else if r > 0 && own == Key(rules[r].bucket, identity) {
      KeyInjective(rules[0].bucket, identity, rules[r].bucket, identity);
    }
  }

  /** The key holds every admitted request of the last window, and outlives it. */
  ghost predicate Covers(z: ZSet, admitted: map<Member, int>, window: int, now: int)
  {
    && Outlives(z, window) && StampedBefore(z, now)
    && forall m :: m in admitted && admitted[m] > now - window ==> m in z.scores && z.scores[m] == admitted[m]
  }

  lemma CoversLater(z: ZSet, admitted: map<Member, int>, window: int, now: int, later: int)
    requires Covers(z, admitted, window, now) && now <= later
    ensures Covers(z, admitted, window, later)
  {
  }

  lemma CoversAttempt(z: ZSet, admitted: map<Member, int>, rule: Rule, m: Member)
    requires Covers(z, admitted, rule.windowMs, m.at) && rule.windowMs > 0 && m.at >= 0 && m !in admitted
    ensures
      var (z', within) := Attempt(z, m.at, rule, m);
      && Covers(z', admitted, rule.windowMs, m.at) && Covers(z', admitted[m := m.at], rule.windowMs, m.at)
      && (within ==> |Above(admitted[m := m.at], m.at - rule.windowMs)| <= rule.max)
  {
    hide Attempt, Outlives, StampedBefore;
    AttemptSummary(z, m.at, rule, m);
    var (z', within) := Attempt(z, m.at, rule, m);
    var recent := Above(admitted[m := m.at], m.at - rule.windowMs);
    assert recent.Keys <= z'.scores.Keys;
    assert |recent.Keys| <= |z'.scores.Keys| by { SubsetSize(recent.Keys, z'.scores.Keys); }
    assert |recent| == |recent.Keys| && |z'.scores| == |z'.scores.Keys|;
  }

  lemma SubsetSize<T>(a: set<T>, b: set<T>)
    requires a <= b
    ensures |a| <= |b|
  {
    assert |b - a| == |b| - |a|;
  }

  /** The time of the last request, or of none. */
  function LastAt(requests: seq<Request>): (r: int)
  {
    if requests == [] then 0 else requests[|requests| - 1].member.at
  }

  /** The stream of requests is stamped by a clock that does not go back, and no two requests share a member. */
  ghost predicate ProperStream(requests: seq<Request>)
  {
    InOrder(Members(requests)) && Distinct(Members(requests)) && SinceTheEpoch(Members(requests))
  }

  lemma ProperPrefix(requests: seq<Request>)
    requires ProperStream(requests) && requests != []
    ensures
      var k := |requests| - 1;
      var m := requests[k].member;
      && ProperStream(requests[..k]) && LastAt(requests[..k]) <= m.at && m.at >= 0
      && Members(requests)[..k] == Members(requests[..k]) && m !in Members(requests[..k]) && Distinct(Members(requests))
  {
    hide InOrder, Distinct, SinceTheEpoch;
    var k := |requests| - 1;
    var log := Members(requests);
    assert log[..k] == Members(requests[..k]) && log[k] == requests[k].member;
    if k > 0 {
      MembersAt(requests[..k], k - 1);
      assert log[..k][k - 1] == requests[k - 1].member;
    }
    LogPrefix(log, k);
    PrefixSinceTheEpoch(log, k);
  }

  lemma PrefixSinceTheEpoch(log: seq<Member>, k: nat)
    requires SinceTheEpoch(log) && k < |log|
    ensures SinceTheEpoch(log[..k]) && log[k].at >= 0
  {
  }

  /** The admitted requests of an identity, each at its time. */
  function AdmittedSet(requests: seq<Request>, admitted: seq<bool>, identity: string): (r: map<Member, int>)
    requires |requests| == |admitted|
  {
    Marked(Members(requests), AdmittedFor(requests, admitted, identity))
  }

  lemma AdmittedSnoc(requests: seq<Request>, admitted: seq<bool>, identity: string)
    requires |requests| == |admitted| && requests != []
    ensures
      var k := |requests| - 1;
      var q := requests[k];
      var before := AdmittedSet(requests[..k], admitted[..k], identity);
      AdmittedSet(requests, admitted, identity)
        == if admitted[k] && q.identity == identity then before[q.member := q.member.at] else before
  {
    var k := |requests| - 1;
    assert Members(requests)[..k] == Members(requests[..k]);
    assert AdmittedFor(requests, admitted, identity)[..k] == AdmittedFor(requests[..k], admitted[..k], identity);
  }

  /** The key of every rule covers what was admitted. */
  lemma {:induction false} KeysCover(rules: seq<Rule>, requests: seq<Request>, r: nat, identity: string)
    requires BucketsApart(rules) && r < |rules| && ProperStream(requests)
    ensures
      var (keys, admitted) := ServeAll(rules, requests);
      Covers(At(keys, Key(rules[r].bucket, identity)), AdmittedSet(requests, admitted, identity), rules[r].windowMs, LastAt(requests))
  {
    if requests == [] {
      assert AdmittedSet([], [], identity) == map[];
    } else {
      var k := |requests| - 1;
      ProperPrefix(requests);
      KeysCover(rules, requests[..k], r, identity);
      CoveredStep(rules, requests, r, identity);
    }
  }

  /** One more request, for the identity or another. */
  lemma {:induction false} CoveredStep(rules: seq<Rule>, requests: seq<Request>, r: nat, identity: string)
    requires BucketsApart(rules) && r < |rules| && ProperStream(requests) && requests != []
    requires
      var k := |requests| - 1;
      var (keys, admitted) := ServeAll(rules, requests[..k]);
      Covers(At(keys, Key(rules[r].bucket, identity)), AdmittedSet(requests[..k], admitted, identity), rules[r].windowMs, LastAt(requests[..k]))
    ensures
      var k := |requests| - 1;
      var q := requests[k];
      var (keys, admitted) := ServeAll(rules, requests);
      && Covers(At(keys, Key(rules[r].bucket, identity)), AdmittedSet(requests, admitted, identity), rules[r].windowMs, q.member.at)
      && (admitted[k] && q.identity == identity ==>
            |Above(AdmittedSet(requests, admitted, identity), q.member.at - rules[r].windowMs)| <= rules[r].max)
  {
    hide Covers, Attempt, Key, EvaluateRules, AdmittedSet, Above;
    var k := |requests| - 1;
    var q := requests[k];
    var m := q.member;
    ProperPrefix(requests);
    var (keys, before) := ServeAll(rules, requests[..k]);
    var (keys', admitted) := ServeAll(rules, requests);
    assert admitted[..k] == before;
    var key := Key(rules[r].bucket, identity);
    var held := AdmittedSet(requests[..k], before, identity);
    AdmittedSnoc(requests, admitted, identity);
    CoversLater(At(keys, key), held, rules[r].windowMs, LastAt(requests[..k]), m.at);
    if q.identity == identity {
      assert m !in held by { HeldIsLogged(requests[..k], before, identity, m); }
      RuleSummary(keys, identity, rules, m.id, m.at, r);
      CoversAttempt(At(keys, key), held, rules[r], m);
    } else {
      forall j | 0 <= j < |rules|
        ensures key != Key(rules[j].bucket, q.identity)
      {
        if key == Key(rules[j].bucket, q.identity) {
          KeyInjective(rules[r].bucket, identity, rules[j].bucket, q.identity);
        }
      }
      OtherKeysStay(keys, q.identity, rules, m.id, m.at, key);
    }
  }

  lemma HeldIsLogged(requests: seq<Request>, admitted: seq<bool>, identity: string, m: Member)
    requires |requests| == |admitted| && m !in Members(requests)
    ensures m !in AdmittedSet(requests, admitted, identity)
  {
  }

  /**
   * Every rule at once: whatever the rules and whoever calls, for each rule and each identity no window of the
   * rule's length ever holds more than its `max` admitted requests.
   */
  lemma {:induction false} EveryRuleBoundsItsWindows(rules: seq<Rule>, requests: seq<Request>, r: nat, identity: string, t: int)
    requires BucketsApart(rules) && r < |rules| && rules[r].max >= 0 && ProperStream(requests)
    ensures
      var admitted := ServeAll(rules, requests).1;
      InWindowAt(Members(requests), AdmittedFor(requests, admitted, identity), t, rules[r].windowMs) <= rules[r].max
  {
    hide *;
    if requests == [] {
      assert InWindowAt(Members(requests), AdmittedFor(requests, ServeAll(rules, requests).1, identity), t, rules[r].windowMs) == 0 by {
        NoRequests(rules, identity, t, rules[r].windowMs);
      }
    } else {
      ProperPrefix(requests);
      EveryRuleBoundsItsWindows(rules, requests[..|requests| - 1], r, identity, t);
      KeysCover(rules, requests[..|requests| - 1], r, identity);
      CoveredStep(rules, requests, r, identity);
      OneMoreRequest(rules, requests, rules[r], identity, t);
    }
  }

  lemma NoRequests(rules: seq<Rule>, identity: string, t: int, window: int)
    ensures InWindowAt(Members([]), AdmittedFor([], ServeAll(rules, []).1, identity), t, window) == 0
  {
  }

  /** A window whose last request was just admitted holds no more than what that request was counted with. */
  lemma {:induction false} OneMoreRequest(rules: seq<Rule>, requests: seq<Request>, rule: Rule, identity: string, t: int)
    requires requests != [] && Distinct(Members(requests))
    requires
      var k := |requests| - 1;
      var q := requests[k];
      var admitted := ServeAll(rules, requests).1;
      && InWindowAt(Members(requests[..k]), AdmittedFor(requests[..k], ServeAll(rules, requests[..k]).1, identity), t, rule.windowMs) <= rule.max
      && (admitted[k] && q.identity == identity ==>
            |Above(AdmittedSet(requests, admitted, identity), q.member.at - rule.windowMs)| <= rule.max)
    ensures InWindowAt(Members(requests), AdmittedFor(requests, ServeAll(rules, requests).1, identity), t, rule.windowMs) <= rule.max
  {
    hide EvaluateRules, Above, Distinct;
    var k := |requests| - 1;
    var admitted := ServeAll(rules, requests).1;
    var log, marks := Members(requests), AdmittedFor(requests, admitted, identity);
    assert admitted[..k] == ServeAll(rules, requests[..k]).1;
    assert log[..k] == Members(requests[..k]) && marks[..k] == AdmittedFor(requests[..k], admitted[..k], identity);
    if marks[k] && t - rule.windowMs < log[k].at <= t {
      WindowIsLater(log, marks, t, rule.windowMs, log[k].at - rule.windowMs);
      MarkedCount(log, marks, log[k].at - rule.windowMs);
    }
  }
}
