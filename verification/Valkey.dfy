/** The sorted sets of Valkey, as far as the two rate limiters use them: scored members, a deadline, four commands. */
module Valkey {
  import opened Wrappers

  /** What a limiter stores for one request: its time stamp, and the id that tells it from others of the same moment. */
  datatype Member = Member(at: int, id: string)

  /** The value of one key; no scores means that there is no key. */
  datatype ZSet = ZSet(scores: map<Member, int>, deadline: Option<int>)

  const EMPTY: ZSet := ZSet(map[], None)

  /** What a command finds: a key past its deadline is gone. */
  function Live(z: ZSet, now: int): (r: ZSet)
  {
    if z.deadline.Some? && now > z.deadline.value then EMPTY else z
  }

  /** ZREMRANGEBYSCORE key min max; a set left empty takes its deadline with it. */
  function RemoveRange(z: ZSet, min: Option<int>, max: int): (r: ZSet)
  {
    var kept := map m | m in z.scores && !((min.None? || min.value <= z.scores[m]) && z.scores[m] <= max) :: z.scores[m];
    if kept == map[] then EMPTY else z.(scores := kept)
  }

  /** ZADD key score member. */
  function Add(z: ZSet, score: int, m: Member): (r: ZSet)
  {
    z.(scores := z.scores[m := score])
  }

  /** PEXPIRE key ttl. */
  function PExpire(z: ZSet, now: int, ttl: int): (r: ZSet)
  {
    if z.scores == map[] || ttl <= 0 then EMPTY else z.(deadline := Some(now + ttl))
  }

  /** The keys of a server, its commands run one at a time. */
  class Server {
    var keys: map<string, ZSet>

    constructor ()
      ensures keys == map[]
    {
      keys := map[];
    }

    ghost function At(key: string): (z: ZSet)
      reads this
    {
      if key in keys then keys[key] else EMPTY
    }

    method Find(key: string, now: int) returns (z: ZSet)
      ensures z == Live(At(key), now)
    {
      z := if key in keys then keys[key] else EMPTY;
      if z.deadline.Some? && now > z.deadline.value {
        z := EMPTY;
      }
    }

    method ZRemRangeByScore(key: string, now: int, min: Option<int>, max: int)
      modifies this
      ensures keys == old(keys)[key := RemoveRange(Live(old(At(key)), now), min, max)]
    {
      var z := Find(key, now);
      keys := keys[key := RemoveRange(z, min, max)];
    }

    method ZAdd(key: string, now: int, score: int, m: Member)
      modifies this
      ensures keys == old(keys)[key := Add(Live(old(At(key)), now), score, m)]
    {
      var z := Find(key, now);
      keys := keys[key := z.(scores := z.scores[m := score])];
    }

    method ZCard(key: string, now: int) returns (n: nat)
      ensures n == |Live(At(key), now).scores|
    {
      var z := Find(key, now);
      n := |z.scores|;
    }

    method PExpireKey(key: string, now: int, ttl: int)
      modifies this
      ensures keys == old(keys)[key := PExpire(Live(old(At(key)), now), now, ttl)]
    {
      var z := Find(key, now);
      keys := keys[key := PExpire(z, now, ttl)];
    }
  }

  // ---- What lies in a window ----

  /** The members scored above `cutoff`. */
  function Above(scores: map<Member, int>, cutoff: int): (r: map<Member, int>)
  {
    map m | m in scores && scores[m] > cutoff :: scores[m]
  }

  lemma AboveAbove(a: map<Member, int>, b: map<Member, int>, low: int, high: int)
    requires Above(a, low) == Above(b, low) && low <= high
    ensures Above(a, high) == Above(b, high)
  {
    forall m
      ensures m in Above(a, high) <==> m in Above(b, high)
      ensures m in Above(a, high) ==> Above(a, high)[m] == Above(b, high)[m]
    {
      assert m in Above(a, low) <==> m in Above(b, low);
      if m in Above(a, low) {
        assert Above(a, low)[m] == Above(b, low)[m];
      }
    }
  }

  /** Every member outlives its window: the key's deadline is at least `window` after each score. */
  ghost predicate Outlives(z: ZSet, window: int)
  {
    forall m :: m in z.scores ==> z.deadline.Some? && z.scores[m] + window <= z.deadline.value
  }

  /** Expiry changes nothing inside the window: what a dead key loses lies before it. */
  lemma ExpiryIsInvisible(z: ZSet, now: int, window: int)
    requires Outlives(z, window)
    ensures Above(Live(z, now).scores, now - window) == Above(z.scores, now - window)
    ensures Outlives(Live(z, now), window)
  {
  }

  /** Trimming leaves the window, and nothing before it when the scores reach no further back than `min`. */
  lemma TrimLeavesTheWindow(z: ZSet, min: Option<int>, cutoff: int)
    requires min.Some? ==> forall m :: m in z.scores ==> z.scores[m] >= min.value
    ensures RemoveRange(z, min, cutoff).scores == Above(z.scores, cutoff)
  {
  }

  lemma TrimOutlives(z: ZSet, min: Option<int>, cutoff: int, window: int)
    requires Outlives(z, window)
    ensures Outlives(RemoveRange(z, min, cutoff), window)
  {
  }
}
