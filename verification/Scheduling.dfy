/**
The scheduling policy over the request queue: oldest first, or cache-ready first within a fairness limit.

`Decide` is the decision as a function of the scheduler's state; class `Scheduler` takes the same
decision by loops over the candidates and is proved to agree with it.
*/
module Scheduling {

  import opened Core

  datatype Policy = Fifo | CacheAwareFifo

  datatype Reason = FifoOldest | CacheAffinity | FairnessFifo | NoEligibleRequest | CapacityUnavailable

  datatype Candidate = Candidate(id: string, queuedAt: real, cacheReady: bool)

  datatype Decision = Decision(chosen: Option<string>, policy: Policy, reason: Reason, eligibleCount: nat)

  datatype SchedulerState = SchedulerState(
    bypass: map<string, nat>, fairnessBypasses: nat, affinityCandidates: nat, last: Option<Decision>)

  function Bypassed(bypass: map<string, nat>, id: string): nat {
    if id in bypass then bypass[id] else 0
  }

  /** min by queued_at: the first candidate no other is older than. */
  function OldestIndex(cs: seq<Candidate>): (r: nat)
    requires cs != []
    ensures r < |cs|
    ensures forall j :: 0 <= j < |cs| ==> cs[r].queuedAt <= cs[j].queuedAt
    ensures forall j :: 0 <= j < r ==> cs[r].queuedAt < cs[j].queuedAt
  {
    var n := |cs| - 1;
    if n == 0 then 0
    else
      var r := OldestIndex(cs[..n]);
      assert forall j :: 0 <= j < n ==> cs[..n][j] == cs[j];
      if cs[n].queuedAt < cs[r].queuedAt then n else r
  }

  /** The first cache-ready candidate in queue order. */
  function FirstReady(cs: seq<Candidate>): (r: Option<nat>)
    ensures r.Some? ==> r.value < |cs| && cs[r.value].cacheReady && forall j :: 0 <= j < r.value ==> !cs[j].cacheReady
    ensures r.None? ==> forall j :: 0 <= j < |cs| ==> !cs[j].cacheReady
  {
    if cs == [] then None
    else
      var n := |cs| - 1;
      var r := FirstReady(cs[..n]);
      assert forall j :: 0 <= j < n ==> cs[..n][j] == cs[j];
      if r.Some? then r else if cs[n].cacheReady then Some(n) else None
  }

  function ReadyCount(cs: seq<Candidate>): nat {
    if cs == [] then 0 else ReadyCount(cs[..|cs|-1]) + if cs[|cs|-1].cacheReady then 1 else 0
  }

  /** One more bypass for every candidate older than the chosen time stamp. */
  function Bump(bypass: map<string, nat>, cs: seq<Candidate>, at: real): map<string, nat> {
    if cs == [] then bypass
    else
      var m, c := Bump(bypass, cs[..|cs|-1], at), cs[|cs|-1];
      if c.queuedAt < at then m[c.id := Bypassed(m, c.id) + 1] else m
  }

  function OlderCount(cs: seq<Candidate>, at: real): nat {
    if cs == [] then 0 else OlderCount(cs[..|cs|-1], at) + if cs[|cs|-1].queuedAt < at then 1 else 0
  }

  /** With distinct ids the bump adds exactly one to the older candidates and leaves every other count alone. */
  lemma {:induction false} BumpPointwise(bypass: map<string, nat>, cs: seq<Candidate>, at: real, id: string)
    requires forall i, j :: 0 <= i < j < |cs| ==> cs[i].id != cs[j].id
    ensures Bypassed(Bump(bypass, cs, at), id) ==
      Bypassed(bypass, id) + if exists i :: 0 <= i < |cs| && cs[i].id == id && cs[i].queuedAt < at then 1 else 0
  {
    if cs != [] {
      var n := |cs| - 1;
      assert forall i :: 0 <= i < n ==> cs[..n][i] == cs[i];
      BumpPointwise(bypass, cs[..n], at, id);
      if cs[n].id == id {
        assert !exists i :: 0 <= i < n && cs[..n][i].id == id && cs[..n][i].queuedAt < at;
      } else if exists i :: 0 <= i < |cs| && cs[i].id == id && cs[i].queuedAt < at {
        var i :| 0 <= i < |cs| && cs[i].id == id && cs[i].queuedAt < at;
        assert cs[..n][i].id == id && cs[..n][i].queuedAt < at;
      }
    }
  }

  /** The cache-aware choice: which candidate, why, and whether older ones are counted as bypassed. */
  datatype Choice = Choice(index: nat, reason: Reason)

  function ChooseCacheAware(bypass: map<string, nat>, maxBypass: nat, cs: seq<Candidate>): (c: Choice)
    requires cs != []
    ensures c.index < |cs|
  {
    var oldest := OldestIndex(cs);
    if Bypassed(bypass, cs[oldest].id) >= maxBypass then Choice(oldest, FairnessFifo)
    else
      match FirstReady(cs)
      case None => Choice(oldest, FifoOldest)
      case Some(r) => if cs[r].id == cs[oldest].id then Choice(oldest, FifoOldest) else Choice(r, CacheAffinity)
  }

  function ChooseIndex(policy: Policy, bypass: map<string, nat>, maxBypass: nat, cs: seq<Candidate>): (c: Choice)
    requires cs != []
    ensures c.index < |cs|
  {
    if policy == Fifo then Choice(OldestIndex(cs), FifoOldest) else ChooseCacheAware(bypass, maxBypass, cs)
  }

  function Settle(policy: Policy, s: SchedulerState, cs: seq<Candidate>, c: Choice): SchedulerState
    requires c.index < |cs|
  {
    var d := Decision(Some(cs[c.index].id), policy, c.reason, |cs|);
    if c.reason == CacheAffinity then
      SchedulerState(Bump(s.bypass, cs, cs[c.index].queuedAt),
                     s.fairnessBypasses + OlderCount(cs, cs[c.index].queuedAt), ReadyCount(cs), Some(d))
    else s.(affinityCandidates := ReadyCount(cs), last := Some(d))
  }

  /** Scheduler.choose_next */
  function Decide(policy: Policy, maxBypass: nat, s: SchedulerState, cs: seq<Candidate>, capacity: bool)
    : (Decision, SchedulerState)
  {
    if !capacity then
      var d := Decision(None, policy, CapacityUnavailable, |cs|); (d, s.(last := Some(d)))
    else if cs == [] then
      var d := Decision(None, policy, NoEligibleRequest, 0); (d, s.(last := Some(d)))
    else
      var c := ChooseIndex(policy, s.bypass, maxBypass, cs);
      (Decision(Some(cs[c.index].id), policy, c.reason, |cs|), Settle(policy, s, cs, c))
  }

  function Forget(s: SchedulerState, id: string): SchedulerState {
    s.(bypass := s.bypass - {id})
  }

  /** Under FIFO the chosen candidate is the oldest; its predecessors in the queue are all strictly newer. */
  lemma FifoChoosesOldest(policy: Policy, bypass: map<string, nat>, maxBypass: nat, cs: seq<Candidate>, j: nat)
    requires policy == Fifo && j < |cs|
    ensures var i := ChooseIndex(policy, bypass, maxBypass, cs).index;
      cs[i].queuedAt <= cs[j].queuedAt && (j < i ==> cs[i].queuedAt < cs[j].queuedAt)
  {}

  /**
  Whatever the policy, a candidate is passed over by a newer one only for cache affinity and only below the limit.
  */
  lemma PassedOverOnlyBelowLimit(policy: Policy, bypass: map<string, nat>, maxBypass: nat, cs: seq<Candidate>)
    requires cs != []
    ensures var c := ChooseIndex(policy, bypass, maxBypass, cs);
      c.index != OldestIndex(cs) ==>
        && c.reason == CacheAffinity && cs[c.index].cacheReady
        && Bypassed(bypass, cs[OldestIndex(cs)].id) < maxBypass
        && cs[c.index].id != cs[OldestIndex(cs)].id
  {}

  /** Passing over the oldest candidate is counted against it exactly when it is strictly older than the chosen one. */
  lemma CountedExactlyWhenOlder(policy: Policy, maxBypass: nat, s: SchedulerState, cs: seq<Candidate>)
    requires cs != [] && forall i, j :: 0 <= i < j < |cs| ==> cs[i].id != cs[j].id
    ensures var oldest, c := OldestIndex(cs), ChooseIndex(policy, s.bypass, maxBypass, cs);
            var before, after := Bypassed(s.bypass, cs[oldest].id),
                Bypassed(Settle(policy, s, cs, c).bypass, cs[oldest].id);
      c.index != oldest ==> (after == before + 1 <==> cs[oldest].queuedAt < cs[c.index].queuedAt)
  {
    var oldest, c := OldestIndex(cs), ChooseIndex(policy, s.bypass, maxBypass, cs);
    PassedOverOnlyBelowLimit(policy, s.bypass, maxBypass, cs);
    BumpPointwise(s.bypass, cs, cs[c.index].queuedAt, cs[oldest].id);
  }

  lemma {:induction false} NobodyOlder(bypass: map<string, nat>, cs: seq<Candidate>, at: real)
    requires forall i :: 0 <= i < |cs| ==> at <= cs[i].queuedAt
    ensures Bump(bypass, cs, at) == bypass
  {
    if cs != [] {
      NobodyOlder(bypass, cs[..|cs|-1], at);
    }
  }

  /** A decision leaves the bypass counts alone exactly when nobody is strictly older than the chosen candidate. */
  lemma TiesEscapeTheLimit(policy: Policy, maxBypass: nat, s: SchedulerState, cs: seq<Candidate>)
    requires cs != [] && forall i, j :: 0 <= i < j < |cs| ==> cs[i].id != cs[j].id
    ensures var oldest, c := OldestIndex(cs), ChooseIndex(policy, s.bypass, maxBypass, cs);
      Settle(policy, s, cs, c).bypass == s.bypass <==> cs[oldest].queuedAt == cs[c.index].queuedAt
  {
    var oldest, c := OldestIndex(cs), ChooseIndex(policy, s.bypass, maxBypass, cs);
    if cs[oldest].queuedAt == cs[c.index].queuedAt {
      NobodyOlder(s.bypass, cs, cs[c.index].queuedAt);
    } else {
      PassedOverOnlyBelowLimit(policy, s.bypass, maxBypass, cs);
      BumpPointwise(s.bypass, cs, cs[c.index].queuedAt, cs[oldest].id);
    }
  }

  /**
  Every candidate older than the chosen one is counted, at the limit or not: the limit is read for the oldest alone.
  */
  lemma LimitProtectsOldestOnly(policy: Policy, maxBypass: nat, s: SchedulerState, cs: seq<Candidate>, k: nat)
    requires k < |cs| && forall i, j :: 0 <= i < j < |cs| ==> cs[i].id != cs[j].id
    ensures var c := ChooseIndex(policy, s.bypass, maxBypass, cs);
      Bypassed(Settle(policy, s, cs, c).bypass, cs[k].id) ==
        Bypassed(s.bypass, cs[k].id) + if cs[k].queuedAt < cs[c.index].queuedAt then 1 else 0
  {
    var c := ChooseIndex(policy, s.bypass, maxBypass, cs);
    PassedOverOnlyBelowLimit(policy, s.bypass, maxBypass, cs);
    BumpPointwise(s.bypass, cs, cs[c.index].queuedAt, cs[k].id);
  }

  lemma {:induction false} ReadyCountIs(cs: seq<Candidate>)
    ensures ReadyCount(cs) == |set i | 0 <= i < |cs| && cs[i].cacheReady|
  {
    var all := set i | 0 <= i < |cs| && cs[i].cacheReady;
    if cs == [] {
      assert all == {};
    } else {
      var n := |cs| - 1;
      var front := set i | 0 <= i < n && cs[..n][i].cacheReady;
      ReadyCountIs(cs[..n]);
      assert all == front + if cs[n].cacheReady then {n} else {};
    }
  }

  lemma {:induction false} OlderCountIs(cs: seq<Candidate>, at: real)
    ensures OlderCount(cs, at) == |set i | 0 <= i < |cs| && cs[i].queuedAt < at|
  {
    var all := set i | 0 <= i < |cs| && cs[i].queuedAt < at;
    if cs == [] {
      assert all == {};
    } else {
      var n := |cs| - 1;
      var front := set i | 0 <= i < n && cs[..n][i].queuedAt < at;
      OlderCountIs(cs[..n], at);
      assert all == front + if cs[n].queuedAt < at then {n} else {};
    }
  }

  /** Candidate `k` is taken because nobody older is there, or, if it is not the oldest, for its cache. */
  ghost predicate Picks(policy: Policy, bypass: map<string, nat>, maxBypass: nat, cs: seq<Candidate>, k: nat,
                        why: Reason)
    requires cs != [] && k < |cs|
  {
    var o, r := OldestIndex(cs), FirstReady(cs);
    var spent := Bypassed(bypass, cs[o].id) >= maxBypass;
    match policy
    case Fifo => k == o && why == FifoOldest
    case CacheAwareFifo =>
      if spent then k == o && why == FairnessFifo
      else if r == None || cs[r.value].id == cs[o].id then k == o && why == FifoOldest
      else k == r.value && why == CacheAffinity
  }

  /** Every decision, with the candidate it takes, why, and everything it notes. */
  lemma DecideExactly(policy: Policy, maxBypass: nat, s: SchedulerState, cs: seq<Candidate>, capacity: bool)
    requires forall i, j :: 0 <= i < j < |cs| ==> cs[i].id != cs[j].id
    ensures var (d, n) := Decide(policy, maxBypass, s, cs, capacity);
      && d.policy == policy && d.eligibleCount == |cs| && n.last == Some(d)
      && (!capacity ==> d.chosen == None && d.reason == CapacityUnavailable && n == s.(last := Some(d)))
      && (capacity && cs == [] ==> d.chosen == None && d.reason == NoEligibleRequest && n == s.(last := Some(d)))
      && (capacity && cs != [] ==>
            exists k :: 0 <= k < |cs| && d.chosen == Some(cs[k].id)
              && Picks(policy, s.bypass, maxBypass, cs, k, d.reason)
              && Notes(s, cs, cs[k].queuedAt, d.reason == CacheAffinity, n))
  {
    if capacity && cs != [] {
      var c := ChooseIndex(policy, s.bypass, maxBypass, cs);
      ReadyCountIs(cs);
      OlderCountIs(cs, cs[c.index].queuedAt);
      forall id ensures Bypassed(Bump(s.bypass, cs, cs[c.index].queuedAt), id) == Bypassed(s.bypass, id) +
        if exists i :: 0 <= i < |cs| && cs[i].id == id && cs[i].queuedAt < cs[c.index].queuedAt then 1 else 0
      {
        BumpPointwise(s.bypass, cs, cs[c.index].queuedAt, id);
      }
      assert Picks(policy, s.bypass, maxBypass, cs, c.index, c.reason);
      hide OldestIndex, FirstReady, Bump, ReadyCount, OlderCount, ChooseIndex, Picks;
      assert Notes(s, cs, cs[c.index].queuedAt, c.reason == CacheAffinity, Settle(policy, s, cs, c));
    }
  }

  /**
  The notes of a decision: who is cache-ready, and, when older candidates are passed over, one more bypass for each.
  */
  ghost predicate Notes(s: SchedulerState, cs: seq<Candidate>, at: real, passing: bool, n: SchedulerState) {
    && n.affinityCandidates == |set i | 0 <= i < |cs| && cs[i].cacheReady|
    && n.fairnessBypasses == s.fairnessBypasses +
         (if passing then |set i | 0 <= i < |cs| && cs[i].queuedAt < at| else 0)
    && forall id :: Bypassed(n.bypass, id) == Bypassed(s.bypass, id) +
         if passing && exists i :: 0 <= i < |cs| && cs[i].id == id && cs[i].queuedAt < at then 1 else 0
  }

  class Scheduler {
    var bypassCounts: map<string, nat>
    var fairnessBypasses: nat
    var cacheAffinityCandidates: nat
    var lastDecision: Option<Decision>

    ghost function State(): SchedulerState reads this {
      SchedulerState(bypassCounts, fairnessBypasses, cacheAffinityCandidates, lastDecision)
    }

    constructor ()
      ensures State() == SchedulerState(map[], 0, 0, None)
    {
      bypassCounts, fairnessBypasses, cacheAffinityCandidates, lastDecision := map[], 0, 0, None;
    }

    method FindOldest(cs: seq<Candidate>) returns (r: nat)
      requires cs != []
      ensures r == OldestIndex(cs)
    {
      r := 0;
      for i := 1 to |cs|
        invariant r == OldestIndex(cs[..i])
      {
        assert cs[..i+1][..i] == cs[..i];
        if cs[i].queuedAt < cs[r].queuedAt {
          r := i;
        }
      }
      assert cs[..|cs|] == cs;
    }

    method FindReady(cs: seq<Candidate>) returns (r: Option<nat>)
      ensures r == FirstReady(cs)
    {
      for i := 0 to |cs|
        invariant FirstReady(cs[..i]) == None
      {
        assert cs[..i+1][..i] == cs[..i];
        if cs[i].cacheReady {
          ReadyStays(cs, i + 1);
          return Some(i);
        }
      }
      assert cs[..|cs|] == cs;
      return None;
    }

    /** The loop that counts a bypass for every candidate older than the chosen one. */
    method CountBypasses(cs: seq<Candidate>, at: real)
      modifies this
      ensures State() == old(State()).(
        bypass := Bump(old(bypassCounts), cs, at), fairnessBypasses := old(fairnessBypasses) + OlderCount(cs, at))
    {
      for i := 0 to |cs|
        invariant cacheAffinityCandidates == old(cacheAffinityCandidates) && lastDecision == old(lastDecision)
        invariant bypassCounts == Bump(old(bypassCounts), cs[..i], at)
        invariant fairnessBypasses == old(fairnessBypasses) + OlderCount(cs[..i], at)
      {
        assert cs[..i+1][..i] == cs[..i];
        if cs[i].queuedAt < at {
          bypassCounts := bypassCounts[cs[i].id := Bypassed(bypassCounts, cs[i].id) + 1];
          fairnessBypasses := fairnessBypasses + 1;
        }
      }
      assert cs[..|cs|] == cs;
    }

    method CountReady(cs: seq<Candidate>) returns (n: nat)
      ensures n == ReadyCount(cs)
    {
      n := 0;
      for i := 0 to |cs|
        invariant n == ReadyCount(cs[..i])
      {
        assert cs[..i+1][..i] == cs[..i];
        if cs[i].cacheReady {
          n := n + 1;
        }
      }
      assert cs[..|cs|] == cs;
    }

    method ChooseNext(policy: Policy, maxBypass: nat, cs: seq<Candidate>, capacity: bool) returns (d: Decision)
      modifies this
      ensures (d, State()) == Decide(policy, maxBypass, old(State()), cs, capacity)
    {
      if !capacity {
        d := Decision(None, policy, CapacityUnavailable, |cs|);
        lastDecision := Some(d);
        return;
      }
      if cs == [] {
        d := Decision(None, policy, NoEligibleRequest, 0);
        lastDecision := Some(d);
        return;
      }
      cacheAffinityCandidates := CountReady(cs);
      var oldest := FindOldest(cs);
      if policy == Fifo {
        d := Decision(Some(cs[oldest].id), policy, FifoOldest, |cs|);
      } else if Bypassed(bypassCounts, cs[oldest].id) >= maxBypass {
        d := Decision(Some(cs[oldest].id), policy, FairnessFifo, |cs|);
      } else {
        var ready := FindReady(cs);
        if ready == None || cs[ready.value].id == cs[oldest].id {
          d := Decision(Some(cs[oldest].id), policy, FifoOldest, |cs|);
        } else {
          CountBypasses(cs, cs[ready.value].queuedAt);
          d := Decision(Some(cs[ready.value].id), policy, CacheAffinity, |cs|);
        }
      }
      lastDecision := Some(d);
    }

    method RemoveRequest(id: string)
      modifies this
      ensures State() == Forget(old(State()), id)
    {
      bypassCounts := bypassCounts - {id};
    }
  }

  lemma {:induction false} ReadyStays(cs: seq<Candidate>, n: nat)
    requires n <= |cs| && FirstReady(cs[..n]).Some?
    ensures FirstReady(cs) == FirstReady(cs[..n])
    decreases |cs| - n
  {
    if n == |cs| {
      assert cs[..n] == cs;
    } else {
      assert cs[..n+1][..n] == cs[..n];
      ReadyStays(cs, n + 1);
    }
  }
}
