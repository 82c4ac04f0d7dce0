/**
 * The gateway's limiter with the commands of different requests interleaved: the pipeline is not a transaction,
 * so the server may run other requests' commands between any two of one request's.
 */
module GatewayRaces {
  import opened Wrappers
  import opened Valkey
  import opened GatewayLimiter
  import opened GatewayRules

  datatype Phase = Trim | AddSelf | Count | Expire | Done(admitted: bool)

  /** One request in `evaluate`: the counts of the rules it has counted so far, and the next command of its rule. */
  datatype Call = Call(counts: seq<nat>, phase: Phase)

  /** The rules, and the request behind each call id. */
  datatype Traffic = Traffic(rules: seq<Rule>, request: int -> Request)

  datatype State = State(keys: map<string, ZSet>, clock: int, calls: map<int, Call>)

  datatype Step = Arrive(id: int) | Command(id: int) | Tick(d: nat)

  function RuleKey(tr: Traffic, r: nat, identity: string): (k: string)
    requires r < |tr.rules|
  {
    Key(tr.rules[r].bucket, identity)
  }

  /** The rule a call is working on. */
  function Current(c: Call): (r: int)
  {
    if c.phase.Expire? then |c.counts| - 1 else |c.counts|
  }

  /** The next command of a call, at the server's clock. */
  function RunCommand(tr: Traffic, s: State, id: int): (r: State)
  {
    if id !in s.calls || s.calls[id].phase.Done? || !(0 <= Current(s.calls[id]) < |tr.rules|) then s
    else
      var c := s.calls[id];
      var q := tr.request(id);
      var rule := tr.rules[Current(c)];
      var key := Key(rule.bucket, q.identity);
      var z := Live(At(s.keys, key), s.clock);
      match c.phase
      case Trim =>
        s.(keys := s.keys[key := RemoveRange(z, Some(0), q.member.at - rule.windowMs)], calls := s.calls[id := c.(phase := AddSelf)])
      case AddSelf => s.(keys := s.keys[key := Add(z, q.member.at, q.member)], calls := s.calls[id := c.(phase := Count)])
      case Count => s.(calls := s.calls[id := Call(c.counts + [|z.scores|], Expire)])
      case Expire =>
        s.(keys := s.keys[key := PExpire(z, s.clock, rule.windowMs)],
           calls := s.calls[id := c.(phase :=
             if c.counts[Current(c)] > rule.max then Done(false)
             else if |c.counts| == |tr.rules| then Done(true)
             else Trim)])
  }

  function Next(tr: Traffic, s: State, step: Step): (r: State)
  {
    match step
    case Arrive(id) =>
      if id in s.calls then s
      else s.(calls := s.calls[id := Call([], if tr.rules == [] then Done(true) else Trim)])
    case Command(id) => RunCommand(tr, s, id)
    case Tick(d) => s.(clock := s.clock + d)
  }

  function Exec(tr: Traffic, s: State, run: seq<Step>): (r: State)
    decreases |run|
  {
    if run == [] then s else Exec(tr, Next(tr, s, run[0]), run[1..])
  }

  // ---- The method's pipeline is a run of this machine ----

  /** All commands of one call for `n` rules, with nobody between. */
  function Pipeline(id: int, n: nat): (r: seq<Step>)
    decreases n
  {
    if n == 0 then [] else [Command(id), Command(id), Command(id), Command(id)] + Pipeline(id, n - 1)
  }

  lemma FourCommands(tr: Traffic, s: State, id: int, rest: seq<Step>)
    ensures
      var s1 := RunCommand(tr, s, id);
      var s2 := RunCommand(tr, s1, id);
      var s3 := RunCommand(tr, s2, id);
      Exec(tr, s, [Command(id), Command(id), Command(id), Command(id)] + rest) == Exec(tr, RunCommand(tr, s3, id), rest)
  {
    hide RunCommand;
    var run := [Command(id), Command(id), Command(id), Command(id)] + rest;
    assert run[1..] == [Command(id), Command(id), Command(id)] + rest;
    assert run[1..][1..] == [Command(id), Command(id)] + rest;
    assert run[1..][1..][1..] == [Command(id)] + rest;
    assert run[1..][1..][1..][1..] == rest;
    var s1 := RunCommand(tr, s, id);
    var s2 := RunCommand(tr, s1, id);
    assert Exec(tr, s, run) == Exec(tr, s1, run[1..]) == Exec(tr, s2, run[1..][1..]);
    var s3 := RunCommand(tr, s2, id);
    assert Exec(tr, s2, run[1..][1..]) == Exec(tr, s3, run[1..][1..][1..]) == Exec(tr, RunCommand(tr, s3, id), rest);
  }

  /** What a request leaves under a rule's key when its trim and its add run together at the server's clock. */
  function TrimmedAndAdded(tr: Traffic, s: State, id: int, r: nat): (z: ZSet)
    requires r < |tr.rules|
  {
    var q := tr.request(id);
    var live := Live(At(s.keys, RuleKey(tr, r, q.identity)), s.clock);
    Add(RemoveRange(live, Some(0), q.member.at - tr.rules[r].windowMs), q.member.at, q.member)
  }

  /** The first two commands of a rule. */
  lemma TrimAndAdd(tr: Traffic, s: State, id: int)
    requires id in s.calls && s.calls[id].phase == Trim && |s.calls[id].counts| < |tr.rules|
    ensures
      var c := s.calls[id];
      var key := RuleKey(tr, |c.counts|, tr.request(id).identity);
      var added := TrimmedAndAdded(tr, s, id, |c.counts|);
      && Live(added, s.clock) == added
      && RunCommand(tr, RunCommand(tr, s, id), id) == State(s.keys[key := added], s.clock, s.calls[id := Call(c.counts, Count)])
  {
    hide Live, RemoveRange, Add, Key;
    var c := s.calls[id];
    var q := tr.request(id);
    var key := RuleKey(tr, |c.counts|, q.identity);
    var cutoff := q.member.at - tr.rules[|c.counts|].windowMs;
    LiveAfterTrim(At(s.keys, key), s.clock, cutoff, q.member.at, q.member);
    var s1 := RunCommand(tr, s, id);
    var trimmed := RemoveRange(Live(At(s.keys, key), s.clock), Some(0), cutoff);
    assert s1 == State(s.keys[key := trimmed], s.clock, s.calls[id := Call(c.counts, AddSelf)]);
    var added := Add(trimmed, q.member.at, q.member);
    assert s1.keys[key := added] == s.keys[key := added];
    assert s1.calls[id := Call(c.counts, Count)] == s.calls[id := Call(c.counts, Count)];
  }

  /** The four commands of one rule, run together at the server's clock. */
  lemma {:induction false} OnePipeline(tr: Traffic, s: State, id: int)
    requires id in s.calls && s.calls[id].phase == Trim && |s.calls[id].counts| < |tr.rules|
    ensures
      var r := |s.calls[id].counts|;
      var key := RuleKey(tr, r, tr.request(id).identity);
      var added := TrimmedAndAdded(tr, s, id, r);
      var s4 := RunCommand(tr, RunCommand(tr, RunCommand(tr, RunCommand(tr, s, id), id), id), id);
      && s4.keys == s.keys[key := PExpire(added, s.clock, tr.rules[r].windowMs)] && s4.clock == s.clock
      && id in s4.calls && s4.calls.Keys == s.calls.Keys
      && (forall k :: k in s.calls && k != id ==> k in s4.calls && s4.calls[k] == s.calls[k])
      && |s4.calls[id].counts| == r + 1
      && s4.calls[id].phase
           == if |added.scores| > tr.rules[r].max then Done(false) else if r + 1 == |tr.rules| then Done(true) else Trim
  {
    hide RunCommand, TrimmedAndAdded, Live, PExpire, Key;
    TrimAndAdd(tr, s, id);
    CountAndExpire(tr, s, RunCommand(tr, RunCommand(tr, s, id), id), id, TrimmedAndAdded(tr, s, id, |s.calls[id].counts|));
  }

  /** The last two commands of a rule. */
  lemma CountAndExpire(tr: Traffic, s: State, s2: State, id: int, added: ZSet)
    requires id in s.calls && |s.calls[id].counts| < |tr.rules| && Live(added, s.clock) == added
    requires
      var c := s.calls[id];
      s2 == State(s.keys[RuleKey(tr, |c.counts|, tr.request(id).identity) := added], s.clock, s.calls[id := Call(c.counts, Count)])
    ensures
      var c := s.calls[id];
      var r := |c.counts|;
      var s4 := RunCommand(tr, RunCommand(tr, s2, id), id);
      && s4.keys == s.keys[RuleKey(tr, r, tr.request(id).identity) := PExpire(added, s.clock, tr.rules[r].windowMs)]
      && s4.clock == s.clock && id in s4.calls && s4.calls.Keys == s.calls.Keys && |s4.calls[id].counts| == r + 1
      && (forall k :: k in s.calls && k != id ==> k in s4.calls && s4.calls[k] == s.calls[k])
      && s4.calls[id].phase
           == if |added.scores| > tr.rules[r].max then Done(false) else if r + 1 == |tr.rules| then Done(true) else Trim
  {
    hide Live, PExpire, Key;
    var c := s.calls[id];
    var s3 := RunCommand(tr, s2, id);
    assert s3.keys == s2.keys && s3.calls[id] == Call(c.counts + [|added.scores|], Expire);
  }

  /** At the request's own time that is `Attempt`. */
  lemma AttemptIsThePipeline(tr: Traffic, s: State, id: int, r: nat)
    requires r < |tr.rules| && s.clock == tr.request(id).member.at
    ensures
      var q := tr.request(id);
      var added := TrimmedAndAdded(tr, s, id, r);
      Attempt(At(s.keys, RuleKey(tr, r, q.identity)), q.member.at, tr.rules[r], q.member)
        == (PExpire(added, s.clock, tr.rules[r].windowMs), |added.scores| <= tr.rules[r].max)
  {
    hide Live, RemoveRange, Add, PExpire, Key;
  }

  lemma {:induction false} StaysDone(tr: Traffic, s: State, id: int, n: nat)
    requires id in s.calls && s.calls[id].phase.Done?
    ensures Exec(tr, s, Pipeline(id, n)) == s
    decreases n
  {
    if n > 0 {
      FourCommands(tr, s, id, Pipeline(id, n - 1));
      StaysDone(tr, s, id, n - 1);
    }
  }

  /** `evaluate` undisturbed, with its own clock as the server's: the same keys and the same verdict. */
  lemma {:induction false} EvaluateIsAMachineRun(tr: Traffic, s: State, id: int, n: nat)
    requires id in s.calls && s.calls[id].phase == Trim && |s.calls[id].counts| + n == |tr.rules| && n > 0
    requires s.clock == tr.request(id).member.at
    ensures
      var q := tr.request(id);
      var (keys, tripped) := EvaluateRules(s.keys, q.identity, tr.rules[|s.calls[id].counts|..], q.member.id, q.member.at);
      var s' := Exec(tr, s, Pipeline(id, n));
      s'.keys == keys && id in s'.calls && s'.calls[id].phase == Done(tripped.None?)
    decreases n
  {
    hide RunCommand, Attempt, Key, TrimmedAndAdded, PExpire;
    var q := tr.request(id);
    var r := |s.calls[id].counts|;
    var rules := tr.rules[r..];
    assert rules[0] == tr.rules[r] && rules[1..] == tr.rules[r + 1..];
    assert q.member == Member(q.member.at, q.member.id);
    AttemptIsThePipeline(tr, s, id, r);
    OnePipeline(tr, s, id);
    FourCommands(tr, s, id, Pipeline(id, n - 1));
    var s4 := RunCommand(tr, RunCommand(tr, RunCommand(tr, RunCommand(tr, s, id), id), id), id);
    if s4.calls[id].phase.Done? {
      StaysDone(tr, s4, id, n - 1);
      if n == 1 {
        assert rules[1..] == [];
      }
    } else {
      EvaluateIsAMachineRun(tr, s4, id, n - 1);
    }
  }

  // ---- A group of admitted requests in one window ----

  /** The call has recorded itself under the rule. */
  predicate Added(c: Call, r: nat)
  {
    |c.counts| > r || (|c.counts| == r && c.phase.Count?)
  }

  predicate Counted(c: Call, r: nat)
  {
    |c.counts| > r
  }

  /** Some call of the group is yet to count itself under the rule. */
  ghost predicate Counting(s: State, group: set<int>, r: nat)
  {
    exists g :: g in group && !(g in s.calls && Counted(s.calls[g], r))
  }

  /** Calls of one identity, stamped inside the window of the r-th rule that ends at `t`, with distinct members. */
  ghost predicate IsGroup(tr: Traffic, group: set<int>, r: nat, identity: string, t: int)
  {
    && r < |tr.rules|
    && (forall g :: g in group ==>
          tr.request(g).identity == identity && t - tr.rules[r].windowMs < tr.request(g).member.at <= t)
    && (forall g, h :: g in group && h in group && g != h ==> tr.request(g).member != tr.request(h).member)
  }

  /**
   * The step would reach into the group: it runs a command on the group's key after the key's deadline, or it
   * trims that key for a request stamped later than the window.
   */
  predicate Disturbs(tr: Traffic, s: State, step: Step, r: nat, identity: string, t: int)
  {
    && step.Command? && step.id in s.calls && !s.calls[step.id].phase.Done?
    && Current(s.calls[step.id]) == r && r < |tr.rules| && tr.request(step.id).identity == identity
    && (|| Live(At(s.keys, RuleKey(tr, r, identity)), s.clock) != At(s.keys, RuleKey(tr, r, identity))
        || (s.calls[step.id].phase.Trim? && tr.request(step.id).member.at > t))
  }

  /** Some call of the group has recorded itself, and some is yet to count. */
  ghost predicate UnderWay(s: State, group: set<int>, r: nat)
  {
    Counting(s, group, r) && exists g :: g in group && g in s.calls && Added(s.calls[g], r)
  }

  /** Nothing reaches into the group between its first add and its last count; before and after, anything may happen. */
  ghost predicate Undisturbed(tr: Traffic, s: State, run: seq<Step>, group: set<int>, r: nat, identity: string, t: int)
    decreases |run|
  {
    run == [] || (!(UnderWay(s, group, r) && Disturbs(tr, s, run[0], r, identity, t))
                  && Undisturbed(tr, Next(tr, s, run[0]), run[1..], group, r, identity, t))
  }

  predicate Stored(z: ZSet, m: Member)
  {
    m in z.scores && z.scores[m] == m.at
  }

  /** Until the last count every recorded member of the group is stored; that count has seen them all. */
  ghost predicate GroupHeld(tr: Traffic, s: State, group: set<int>, r: nat, identity: string)
    requires r < |tr.rules|
  {
    if Counting(s, group, r) then
      forall g :: g in group && g in s.calls && Added(s.calls[g], r) ==> Stored(At(s.keys, RuleKey(tr, r, identity)), tr.request(g).member)
    else
      group == {} || exists g :: g in group && g in s.calls && Counted(s.calls[g], r) && s.calls[g].counts[r] >= |group|
  }

  /** A call that is not tripped has counted within every rule behind it. */
  ghost predicate CallOk(tr: Traffic, c: Call)
  {
    && |c.counts| <= |tr.rules|
    && (c.phase.Trim? || c.phase.AddSelf? || c.phase.Count? ==> |c.counts| < |tr.rules|)
    && (c.phase.Expire? ==> |c.counts| > 0)
    && (c.phase == Done(true) ==> |c.counts| == |tr.rules|)
    && (c.phase.Done? && !c.phase.admitted ==> |c.counts| > 0)
    && (forall k :: 0 <= k < |c.counts| && (c.phase != Done(false) && (c.phase.Expire? ==> k < |c.counts| - 1)) ==> c.counts[k] <= tr.rules[k].max)
  }

  ghost predicate CallsOk(tr: Traffic, s: State)
  {
    forall id :: id in s.calls ==> CallOk(tr, s.calls[id])
  }

  lemma StepKeepsCallsOk(tr: Traffic, s: State, step: Step)
    requires CallsOk(tr, s)
    ensures CallsOk(tr, Next(tr, s, step))
  {
    hide Live, RemoveRange, PExpire, Key, At;
    if step.Command? && step.id in s.calls {
      assert CallOk(tr, s.calls[step.id]);
    }
  }

  lemma HasElement(group: set<int>)
    requires group != {}
    ensures exists g: int :: g in group
  {
    if forall g: int :: g !in group {
      assert false;
    }
  }

  /** Distinct members in a set are no more than the set. */
  lemma {:induction false} GroupFits(tr: Traffic, group: set<int>, z: ZSet)
    requires forall g :: g in group ==> Stored(z, tr.request(g).member)
    requires forall g, h :: g in group && h in group && g != h ==> tr.request(g).member != tr.request(h).member
    ensures |group| <= |z.scores|
    decreases group
  {
    if group != {} {
      HasElement(group);
      var g: int :| g in group;
      var m := tr.request(g).member;
      var rest := z.(scores := map x | x in z.scores && x != m :: z.scores[x]);
      GroupFits(tr, group - {g}, rest);
      assert z.scores == rest.scores[m := m.at];
      assert |z.scores| == |rest.scores| + 1;
    }
  }

  lemma CommandOfOtherKey(tr: Traffic, s: State, id: int, r: nat, identity: string)
    requires BucketsApart(tr.rules) && r < |tr.rules|
    requires id in s.calls && !s.calls[id].phase.Done? && 0 <= Current(s.calls[id]) < |tr.rules|
    requires Current(s.calls[id]) != r || tr.request(id).identity != identity
    ensures At(RunCommand(tr, s, id).keys, RuleKey(tr, r, identity)) == At(s.keys, RuleKey(tr, r, identity))
  {
    hide Live, RemoveRange, PExpire, Key;
    var k := Current(s.calls[id]);
    if RuleKey(tr, k, tr.request(id).identity) == RuleKey(tr, r, identity) {
      KeyInjective(tr.rules[k].bucket, tr.request(id).identity, tr.rules[r].bucket, identity);
    }
  }

  /** How one command moves its own call, and that it moves no other. */
  lemma CommandMovesItsCall(tr: Traffic, s: State, id: int)
    requires id in s.calls && !s.calls[id].phase.Done? && 0 <= Current(s.calls[id]) < |tr.rules|
    ensures
      var s' := RunCommand(tr, s, id);
      var c := s.calls[id];
      var z := Live(At(s.keys, RuleKey(tr, Current(c), tr.request(id).identity)), s.clock);
      && s'.calls.Keys == s.calls.Keys && (forall k :: k in s.calls && k != id ==> s'.calls[k] == s.calls[k])
      && s'.calls[id].counts == (if c.phase.Count? then c.counts + [|z.scores|] else c.counts)
      && (s'.calls[id].phase.Count? <==> c.phase.AddSelf?)
  {
    hide Live, RemoveRange, PExpire, Key;
  }

  lemma CountedStays(tr: Traffic, s: State, step: Step, group: set<int>, r: nat, identity: string)
    requires r < |tr.rules| && GroupHeld(tr, s, group, r, identity) && !Counting(s, group, r)
    ensures GroupHeld(tr, Next(tr, s, step), group, r, identity) && !Counting(Next(tr, s, step), group, r)
  {
    hide Live, RemoveRange, PExpire, Key, At;
  }

  /** A command on the group's own key keeps what is stored of the group. */
  lemma CommandKeepsStored(tr: Traffic, s: State, id: int, group: set<int>, r: nat, identity: string, t: int, g: int)
    requires IsGroup(tr, group, r, identity, t) && g in group && tr.rules[r].windowMs > 0
    requires id in s.calls && !s.calls[id].phase.Done? && Current(s.calls[id]) == r && tr.request(id).identity == identity
    requires !Disturbs(tr, s, Command(id), r, identity, t)
    requires Stored(At(s.keys, RuleKey(tr, r, identity)), tr.request(g).member)
    ensures Stored(At(RunCommand(tr, s, id).keys, RuleKey(tr, r, identity)), tr.request(g).member)
  {
    hide Key, Live;
    var key := RuleKey(tr, r, identity);
    var z := At(s.keys, key);
    var m := tr.request(g).member;
    assert Live(z, s.clock) == z;
    if s.calls[id].phase.Trim? {
      var cutoff := tr.request(id).member.at - tr.rules[r].windowMs;
      assert m in RemoveRange(z, Some(0), cutoff).scores;
    }
  }

  lemma AddStores(tr: Traffic, s: State, id: int, r: nat, identity: string)
    requires id in s.calls && s.calls[id].phase.AddSelf? && Current(s.calls[id]) == r < |tr.rules| && tr.request(id).identity == identity
    ensures Stored(At(RunCommand(tr, s, id).keys, RuleKey(tr, r, identity)), tr.request(id).member)
  {
    hide Key, Live;
  }

  lemma CommandKeepsGroup(tr: Traffic, s: State, id: int, group: set<int>, r: nat, identity: string, t: int)
    requires BucketsApart(tr.rules) && IsGroup(tr, group, r, identity, t)
    requires GroupHeld(tr, s, group, r, identity) && Counting(s, group, r)
    requires !(UnderWay(s, group, r) && Disturbs(tr, s, Command(id), r, identity, t))
    requires id in s.calls && !s.calls[id].phase.Done? && 0 <= Current(s.calls[id]) < |tr.rules|
    ensures Counting(RunCommand(tr, s, id), group, r) ==> GroupHeld(tr, RunCommand(tr, s, id), group, r, identity)
  {
    hide RunCommand, Live, Stored, Key, At, Disturbs;
    var s' := RunCommand(tr, s, id);
    CommandMovesItsCall(tr, s, id);
    if Counting(s', group, r) {
      forall g | g in group && g in s'.calls && Added(s'.calls[g], r)
        ensures Stored(At(s'.keys, RuleKey(tr, r, identity)), tr.request(g).member)
      {
        if Current(s.calls[id]) != r || tr.request(id).identity != identity {
          CommandOfOtherKey(tr, s, id, r, identity);
        } else if g == id && s.calls[id].phase.AddSelf? {
          AddStores(tr, s, id, r, identity);
        } else {
          assert g in s.calls && Added(s.calls[g], r);
          CommandKeepsStored(tr, s, id, group, r, identity, t, g);
        }
      }
    }
  }

  /** The last count of the group sees the whole group. */
  lemma LastCountSeesAll(tr: Traffic, s: State, id: int, group: set<int>, r: nat, identity: string, t: int)
    requires BucketsApart(tr.rules) && IsGroup(tr, group, r, identity, t)
    requires GroupHeld(tr, s, group, r, identity) && Counting(s, group, r)
    requires !(UnderWay(s, group, r) && Disturbs(tr, s, Command(id), r, identity, t))
    requires id in s.calls && !s.calls[id].phase.Done? && 0 <= Current(s.calls[id]) < |tr.rules|
    requires !Counting(RunCommand(tr, s, id), group, r)
    ensures GroupHeld(tr, RunCommand(tr, s, id), group, r, identity)
  {
    hide RunCommand, Live, Stored, Key, At;
    var s' := RunCommand(tr, s, id);
    CommandMovesItsCall(tr, s, id);
    var g :| g in group && !(g in s.calls && Counted(s.calls[g], r));
    assert g in s'.calls && Counted(s'.calls[g], r);
    assert g == id && s.calls[id].phase.Count? && |s.calls[id].counts| == r;
    var z := At(s.keys, RuleKey(tr, r, identity));
    assert Live(z, s.clock) == z;
    forall h | h in group
      ensures Stored(z, tr.request(h).member)
    {
      assert h in s'.calls && Counted(s'.calls[h], r);
      assert h in s.calls && Added(s.calls[h], r);
    }
    GroupFits(tr, group, z);
    assert s'.calls[id].counts[r] == |z.scores|;
  }

  lemma StepKeepsGroup(tr: Traffic, s: State, step: Step, group: set<int>, r: nat, identity: string, t: int)
    requires BucketsApart(tr.rules) && IsGroup(tr, group, r, identity, t) && CallsOk(tr, s)
    requires GroupHeld(tr, s, group, r, identity) && !(UnderWay(s, group, r) && Disturbs(tr, s, step, r, identity, t))
    ensures GroupHeld(tr, Next(tr, s, step), group, r, identity)
  {
    hide RunCommand, Stored, At, RuleKey, Disturbs, CallsOk;
    if !Counting(s, group, r) {
      CountedStays(tr, s, step, group, r, identity);
    } else {
      match step
      case Command(id) =>
        if id in s.calls && !s.calls[id].phase.Done? && 0 <= Current(s.calls[id]) < |tr.rules| {
          if Counting(RunCommand(tr, s, id), group, r) {
            CommandKeepsGroup(tr, s, id, group, r, identity, t);
          } else {
            LastCountSeesAll(tr, s, id, group, r, identity, t);
          }
        } else {
          IdleCommand(tr, s, id);
        }
      case Arrive(id) =>
        var s' := Next(tr, s, step);
        var g :| g in group && !(g in s.calls && Counted(s.calls[g], r));
        assert !(g in s'.calls && Counted(s'.calls[g], r));
      case Tick(_) =>
        var g :| g in group && !(g in s.calls && Counted(s.calls[g], r));
        assert Counting(Next(tr, s, step), group, r);
    }
  }

  lemma IdleCommand(tr: Traffic, s: State, id: int)
    requires id !in s.calls || s.calls[id].phase.Done? || !(0 <= Current(s.calls[id]) < |tr.rules|)
    ensures RunCommand(tr, s, id) == s
  {
  }

  lemma {:induction false} RunKeepsGroup(tr: Traffic, s: State, run: seq<Step>, group: set<int>, r: nat, identity: string, t: int)
    requires BucketsApart(tr.rules) && IsGroup(tr, group, r, identity, t) && CallsOk(tr, s)
    requires GroupHeld(tr, s, group, r, identity) && Undisturbed(tr, s, run, group, r, identity, t)
    ensures GroupHeld(tr, Exec(tr, s, run), group, r, identity) && CallsOk(tr, Exec(tr, s, run))
    decreases |run|
  {
    hide Next, GroupHeld, CallsOk, IsGroup, UnderWay, Disturbs;
    if run != [] {
      StepKeepsGroup(tr, s, run[0], group, r, identity, t);
      StepKeepsCallsOk(tr, s, run[0]);
      RunKeepsGroup(tr, Next(tr, s, run[0]), run[1..], group, r, identity, t);
    }
  }

  /**
   * The bound survives interleaving: however the commands of all requests are shuffled and whenever the server's
   * clock ticks, any group of admitted requests of one identity that lies in one window of a rule has at most
   * `max` members, provided their members are distinct and, from the group's first add to its last count, its key
   * is not used past its deadline and not trimmed for a request stamped after the window.
   */
  lemma LimitSurvivesInterleaving(tr: Traffic, clock: int, run: seq<Step>, group: set<int>, r: nat, identity: string, t: int)
    requires BucketsApart(tr.rules) && IsGroup(tr, group, r, identity, t) && tr.rules[r].max >= 0
    requires Undisturbed(tr, State(map[], clock, map[]), run, group, r, identity, t)
    requires
      var s := Exec(tr, State(map[], clock, map[]), run);
      forall g :: g in group ==> g in s.calls && s.calls[g].phase == Done(true)
    ensures |group| <= tr.rules[r].max
  {
    hide Exec, Undisturbed, Next, BucketsApart;
    var s0 := State(map[], clock, map[]);
    if group != {} {
      HasElement(group);
    }
    RunKeepsGroup(tr, s0, run, group, r, identity, t);
    var s := Exec(tr, s0, run);
    assert forall g :: g in group ==> g in s.calls && CallOk(tr, s.calls[g]);
    assert !Counting(s, group, r);
  }

  // ---- Each condition is needed ----

  lemma {:induction false} ExecAppend(tr: Traffic, s: State, a: seq<Step>, b: seq<Step>)
    ensures Exec(tr, s, a + b) == Exec(tr, Exec(tr, s, a), b)
    decreases |a|
  {
    hide Next;
    if a == [] {
      assert a + b == b;
    } else {
      assert (a + b)[1..] == a[1..] + b;
      ExecAppend(tr, Next(tr, s, a[0]), a[1..], b);
    }
  }

  lemma ExecFrom(tr: Traffic, s: State, run: seq<Step>, k: nat)
    requires k < |run|
    ensures Exec(tr, s, run[k..]) == Exec(tr, Next(tr, s, run[k]), run[k + 1..])
  {
    assert run[k..][0] == run[k] && run[k..][1..] == run[k + 1..];
  }

  lemma EmptyRun(tr: Traffic, s: State)
    ensures Exec(tr, s, []) == s
  {
  }

  /** A request arrives and makes its one rule's four commands. */
  function Visit(id: int): (run: seq<Step>)
  {
    [Arrive(id)] + Pipeline(id, 1)
  }

  lemma VisitIsOnePipeline(tr: Traffic, s: State, id: int)
    requires |tr.rules| == 1 && id !in s.calls
    ensures
      var added := TrimmedAndAdded(tr, s, id, 0);
      var s' := Exec(tr, s, Visit(id));
      && s'.keys == s.keys[RuleKey(tr, 0, tr.request(id).identity) := PExpire(added, s.clock, tr.rules[0].windowMs)]
      && s'.clock == s.clock && id in s'.calls && s'.calls[id].phase == Done(|added.scores| <= tr.rules[0].max)
      && s'.calls.Keys == s.calls.Keys + {id} && (forall k :: k in s.calls ==> s'.calls[k] == s.calls[k])
  {
    hide Exec, RunCommand, TrimmedAndAdded, PExpire, Key;
    var run := Visit(id);
    assert run[0..] == run && run[1..] == Pipeline(id, 1);
    ExecFrom(tr, s, run, 0);
    var s1 := Next(tr, s, run[0]);
    OnePipeline(tr, s1, id);
    assert TrimmedAndAdded(tr, s1, id, 0) == TrimmedAndAdded(tr, s, id, 0) by { OnlyKeysAndClock(tr, s1, s, id); }
    assert Pipeline(id, 1) == [Command(id), Command(id), Command(id), Command(id)] + Pipeline(id, 0);
    FourCommands(tr, s1, id, Pipeline(id, 0));
    EmptyRun(tr, RunCommand(tr, RunCommand(tr, RunCommand(tr, RunCommand(tr, s1, id), id), id), id));
  }

  lemma OnlyKeysAndClock(tr: Traffic, s: State, s': State, id: int)
    requires |tr.rules| == 1 && s.keys == s'.keys && s.clock == s'.clock
    ensures TrimmedAndAdded(tr, s, id, 0) == TrimmedAndAdded(tr, s', id, 0)
  {
  }

  /** What the commands of these runs do to a set of one entry. */
  lemma OneEntry(m: Member, d: int)
    ensures var z := ZSet(map[m := 10], Some(20));
      && PExpire(Add(EMPTY, 10, m), 10, 10) == z && Live(z, 10) == z && Live(z, 15) == z && Live(z, 20) == z && Live(z, 21) == EMPTY
      && RemoveRange(z, Some(0), 0) == z && RemoveRange(z, Some(0), 5) == z && RemoveRange(z, Some(0), 10) == EMPTY
      && Add(z, 10, m).scores == map[m := 10]
    ensures RemoveRange(EMPTY, Some(0), d) == EMPTY && Live(EMPTY, d) == EMPTY
    ensures Live(Add(EMPTY, d, m), d) == Add(EMPTY, d, m) && Add(EMPTY, d, m).scores == map[m := d]
    ensures |Add(EMPTY, d, m).scores| == 1
    ensures Live(Add(EMPTY, d, m), 20) == Add(EMPTY, d, m)
  {
    var z := ZSet(map[m := 10], Some(20));
    assert m in Add(EMPTY, 10, m).scores;
    assert RemoveRange(z, Some(0), 5).scores == z.scores && RemoveRange(z, Some(0), 0).scores == z.scores;
  }

  /** One rule of one request in ten milliseconds, and three requests of one identity stamped 10, 15 and 20. */
  function ThreeRequests(): (tr: Traffic)
  {
    Traffic([Rule("read", 10, 1)], id => Request("x", Member(5 + 5 * id, "")))
  }

  /** One request in, call `c`, and its entry stored until 20. */
  function OneIn(c: Call): (s: State)
  {
    State(map[Key("read", "x") := ZSet(map[Member(10, "") := 10], Some(20))], 10, map[1 := c])
  }

  /** After a first visit at its own time the key holds that request until its window ends. */
  lemma FirstVisit(tr: Traffic) returns (c: Call)
    requires tr.rules == [Rule("read", 10, 1)] && tr.request(1) == Request("x", Member(10, ""))
    ensures Exec(tr, State(map[], 10, map[]), Visit(1)) == OneIn(c) && c.phase == Done(true)
  {
    hide Exec, Key, RemoveRange, Live, PExpire, Add;
    OneEntry(Member(10, ""), 0);
    OneEntry(Member(10, ""), 10);
    VisitIsOnePipeline(tr, State(map[], 10, map[]), 1);
    var s := Exec(tr, State(map[], 10, map[]), Visit(1));
    c := s.calls[1];
    assert s.calls.Keys == {1};
    assert s.calls == map[1 := c] && s.keys == OneIn(c).keys;
  }

  /** The second request trims, then the third trims at 20, and only then the second adds and counts. */
  function LateTrim(): (run: seq<Step>)
  {
    [Tick(5), Arrive(2), Command(2), Tick(5), Arrive(3), Command(3), Command(2), Command(2), Command(2)]
  }

  function TrimmedBySecond(c: Call): (s: State)
  {
    State(OneIn(c).keys, 15, map[1 := c, 2 := Call([], AddSelf)])
  }

  /** The third's trim has taken the first's entry. */
  function TrimmedByThird(c: Call): (s: State)
  {
    State(map[Key("read", "x") := EMPTY], 20, map[1 := c, 2 := Call([], AddSelf), 3 := Call([], AddSelf)])
  }

  lemma SecondTrims(c: Call)
    ensures Exec(ThreeRequests(), OneIn(c), LateTrim()) == Exec(ThreeRequests(), TrimmedBySecond(c), LateTrim()[3..])
  {
    hide Exec, Key, RemoveRange, Live, PExpire, Add;
    var tr, run := ThreeRequests(), LateTrim();
    OneEntry(Member(10, ""), 0);
    var s0 := OneIn(c);
    var s1 := Next(tr, s0, run[0]);
    var s2 := Next(tr, s1, run[1]);
    var s3 := Next(tr, s2, run[2]);
    assert s3.keys == TrimmedBySecond(c).keys && s3.calls == TrimmedBySecond(c).calls;
    assert run[0..] == run;
    ExecFrom(tr, s0, run, 0);
    ExecFrom(tr, s1, run, 1);
    ExecFrom(tr, s2, run, 2);
  }

  /** The third has arrived, at 20, before its trim. */
  function ThirdArrived(c: Call): (s: State)
  {
    State(OneIn(c).keys, 20, map[1 := c, 2 := Call([], AddSelf), 3 := Call([], Trim)])
  }

  lemma ThirdTrimsAtTwenty(c: Call)
    ensures RunCommand(ThreeRequests(), ThirdArrived(c), 3) == TrimmedByThird(c)
  {
    hide Key, RemoveRange, Live, PExpire, Add;
    OneEntry(Member(10, ""), 0);
    var s := RunCommand(ThreeRequests(), ThirdArrived(c), 3);
    assert s.keys == TrimmedByThird(c).keys && s.calls == TrimmedByThird(c).calls;
  }

  lemma ThirdTrims(c: Call)
    ensures Exec(ThreeRequests(), TrimmedBySecond(c), LateTrim()[3..]) == Exec(ThreeRequests(), TrimmedByThird(c), LateTrim()[6..])
  {
    hide Exec, RunCommand, Key, TrimmedByThird;
    var tr, run := ThreeRequests(), LateTrim();
    var s3 := TrimmedBySecond(c);
    var s4 := Next(tr, s3, run[3]);
    var s5 := Next(tr, s4, run[4]);
    assert s5.calls == ThirdArrived(c).calls;
    ThirdTrimsAtTwenty(c);
    ExecFrom(tr, s3, run, 3);
    ExecFrom(tr, s4, run, 4);
    ExecFrom(tr, s5, run, 5);
  }

  lemma SecondIsAdmitted(c: Call)
    ensures
      var s := Exec(ThreeRequests(), TrimmedByThird(c), LateTrim()[6..]);
      1 in s.calls && s.calls[1] == c && 2 in s.calls && s.calls[2].phase == Done(true)
  {
    hide Exec, Key, RemoveRange, Live, PExpire, Add;
    var tr, run := ThreeRequests(), LateTrim();
    OneEntry(Member(15, ""), 15);
    OneEntry(Member(15, ""), 20);
    var s6 := TrimmedByThird(c);
    var s7 := Next(tr, s6, run[6]);
    assert s7.keys == map[Key("read", "x") := Add(EMPTY, 15, Member(15, ""))];
    var s8 := Next(tr, s7, run[7]);
    assert s8.calls[2] == Call([1], Expire);
    var s9 := Next(tr, s8, run[8]);
    ExecFrom(tr, s6, run, 6);
    ExecFrom(tr, s7, run, 7);
    ExecFrom(tr, s8, run, 8);
    assert run[9..] == [];
    EmptyRun(tr, s9);
  }

  /** Two calls of a state are admitted. */
  predicate BothAdmitted(s: State)
  {
    1 in s.calls && s.calls[1].phase == Done(true) && 2 in s.calls && s.calls[2].phase == Done(true)
  }

  /** A late trim: a request stamped after the window trims between another's trim and add, and two are admitted where one may be. */
  lemma LateTrimAdmitsTwo()
    ensures
      var tr := ThreeRequests();
      && IsGroup(tr, {1, 2}, 0, "x", 15) && BucketsApart(tr.rules) && tr.rules[0].max == 1
      && BothAdmitted(Exec(tr, State(map[], 10, map[]), Visit(1) + LateTrim()))
  {
    hide Exec, Key, LateTrim, OneIn, TrimmedBySecond, TrimmedByThird, Visit;
    ExecAppend(ThreeRequests(), State(map[], 10, map[]), Visit(1), LateTrim());
    var c := FirstVisit(ThreeRequests());
    SecondTrims(c);
    ThirdTrims(c);
    SecondIsAdmitted(c);
  }

  /**
   * A lapsed key: the second request, stamped five milliseconds after the first, reaches the server after the
   * key's deadline, and both are admitted where one may be.
   */
  lemma LapsedKeyAdmitsTwo()
    ensures
      var tr := ThreeRequests();
      && IsGroup(tr, {1, 2}, 0, "x", 15) && BucketsApart(tr.rules) && tr.rules[0].max == 1
      && BothAdmitted(Exec(tr, State(map[], 10, map[]), Visit(1) + ([Tick(11)] + Visit(2))))
  {
    hide Exec, Key, PExpire, Visit, OneIn, TrimmedAndAdded;
    var tr, rest := ThreeRequests(), [Tick(11)] + Visit(2);
    ExecAppend(tr, State(map[], 10, map[]), Visit(1), rest);
    var c := FirstVisit(tr);
    assert rest[0..] == rest && rest[1..] == Visit(2);
    ExecFrom(tr, OneIn(c), rest, 0);
    AloneAfterTheDeadline(c);
    VisitIsOnePipeline(tr, Next(tr, OneIn(c), Tick(11)), 2);
  }

  lemma AloneAfterTheDeadline(c: Call)
    ensures
      var s := Next(ThreeRequests(), OneIn(c), Tick(11));
      2 !in s.calls && 1 in s.calls && s.calls[1] == c && |TrimmedAndAdded(ThreeRequests(), s, 2, 0).scores| == 1
  {
    hide Key, RemoveRange, Live, Add;
    OneEntry(Member(10, ""), 5);
    OneEntry(Member(15, ""), 15);
  }

  /** Two requests of one identity with one stamp and one id. */
  function Twins(): (tr: Traffic)
  {
    Traffic([Rule("read", 10, 1)], id => Request("x", Member(10, "")))
  }

  /** Equal members: the second add overwrites the first, and both are admitted where one may be. */
  lemma EqualMembersAdmitTwo()
    ensures
      var tr := Twins();
      && tr.request(1) == tr.request(2) && BucketsApart(tr.rules) && tr.rules[0].max == 1
      && BothAdmitted(Exec(tr, State(map[], 10, map[]), Visit(1) + Visit(2)))
  {
    hide Exec, Key, RemoveRange, Live, PExpire, Add, Visit;
    var tr := Twins();
    ExecAppend(tr, State(map[], 10, map[]), Visit(1), Visit(2));
    var c := FirstVisit(tr);
    VisitIsOnePipeline(tr, OneIn(c), 2);
    OneEntry(Member(10, ""), 10);
    assert |Add(ZSet(map[Member(10, "") := 10], Some(20)), 10, Member(10, "")).scores| == 1;
  }
}
