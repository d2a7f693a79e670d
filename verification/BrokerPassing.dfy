/**
Two more readings of the bypass limit: one for brokers without lane ceilings, one that assumes nothing about stamps.
*/
module BrokerPassing {
  import opened Core
  import opened Runtime
  import opened RequestQueues
  import opened Broker
  import opened BrokerSafety
  import opened BrokerOrder
  import opened BrokerFairness
  import Scheduling

  // ---------------------------------------------------------------------------
  // No lane has a ceiling
  // ---------------------------------------------------------------------------

  /** Without ceilings an entry has room exactly when there is a free slot. */
  lemma NoCeilingNoLane(cfg: Config, s: Setting, b: State, e: Entry)
    requires Owned(cfg, b) && cfg.ceilings == map[] && e in b.queue.deque
    ensures LaneRoom(s, b.ledger, e) <==> GlobalRoom(s, b.ledger)
  {
    assert e.laneMax == LaneMax(cfg, e.lane) == None;
    hide Owned, Ledger.ActiveJobs, Ledger.ActiveJobsFor;
  }

  lemma GrantAllEligible(cfg: Config, s: Setting, b: State, x: Id)
    requires Owned(cfg, b) && cfg.ceilings == map[] && s.now == b.now && Grants(s, b, x)
    ensures AllEligible(GrantLog(s, b, x)[0])
  {
    hide Owned, GlobalRoom, LaneRoom, Eligible, Chosen;
    forall e | e in b.queue.deque && !Expired(b.now, e) ensures e in Eligible(s, b.ledger, b.queue.deque) {
      NoCeilingNoLane(cfg, s, b, e);
      EligibleExactly(s, b.ledger, b.queue.deque, e);
    }
  }

  /** Every grant a step adds to the log is the one its poll made. */
  lemma NextGrants(cfg: Config, b: State, ev: Event)
    requires Owned(cfg, b)
    ensures Next(cfg, b, ev).grants == b.grants ||
      (ev.Poll? && ev.id in b.waiting && ev.id in b.entries &&
       var s := SettingOf(cfg, b, ev.ready, ev.env);
       Grants(s, b, ev.id) && Next(cfg, b, ev).grants == b.grants + [GrantLog(s, b, ev.id)[0]])
  {
    hide PollStep, ChatStep, Owned, Grants, Chosen, Eligible;
    match ev {
      case Poll(id, ready, env) =>
        if id in b.waiting && id in b.entries {
          var s := SettingOf(cfg, b, ready, env);
          PollLogs(cfg, s, b, id);
          GrantIsNew(cfg, s, b, id);
          assert Grants(s, b, id) ==> GrantLog(s, b, id) == [GrantLog(s, b, id)[0]];
          assert !Grants(s, b, id) ==> b.grants + GrantLog(s, b, id) == b.grants;
        }
      case Chat(id, _, _, _, _, _, _, _) => if id !in b.ledger.records { ChatFrame(cfg, b, ev); }
      case _ =>
    }
  }

  lemma {:induction false} AlwaysAllEligible(cfg: Config, evs: seq<Event>)
    requires cfg.ceilings == map[]
    ensures forall g :: g in Exec(cfg, evs).grants ==> AllEligible(g)
  {
    if evs != [] {
      var front, ev := evs[..|evs|-1], evs[|evs|-1];
      var b := Exec(cfg, front);
      AlwaysAllEligible(cfg, front);
      AlwaysOwned(cfg, front);
      NextGrants(cfg, b, ev);
      hide Next, Owned, AllEligible, Grants, GrantLog;
      if Next(cfg, b, ev).grants != b.grants {
        GrantAllEligible(cfg, SettingOf(cfg, b, ev.ready, ev.env), b, ev.id);
      }
    }
  }

  /**
  Where no lane has a ceiling and stamps strictly increase, at most `maxBypass` later arrivals are granted before any
  request that is still within its deadline.
  */
  lemma BoundedWithoutCeilings(cfg: Config, evs: seq<Event>, x: Id)
    requires cfg.ceilings == map[] && StampsOrdered(evs, true) && x in Exec(cfg, evs).entries
    ensures TimesOvertaken(Exec(cfg, evs).grants, Exec(cfg, evs).entries[x]) <= cfg.maxBypass
  {
    AlwaysAllEligible(cfg, evs);
    hide AllEligible, Exec, StampsOrdered;
    BoundedOvertaking(cfg, evs);
  }

  // ---------------------------------------------------------------------------
  // Any stamps
  // ---------------------------------------------------------------------------

  /** `e` is the scheduler's oldest candidate: the first with the least stamp. */
  ghost predicate Leads(es: seq<Entry>, e: Entry) {
    exists k :: 0 <= k < |es| && es[k] == e && LeadsAt(es, k)
  }

  ghost predicate LeadsAt(es: seq<Entry>, k: nat) {
    && k < |es| && (forall j :: 0 <= j < |es| ==> es[k].enqueuedAt <= es[j].enqueuedAt)
    && (forall j :: 0 <= j < k ==> es[k].enqueuedAt < es[j].enqueuedAt)
  }

  /** `e` was the scheduler's oldest candidate, and a strictly later one was granted. */
  ghost predicate PassesOlder(g: Grant, e: Entry) { Leads(g.eligible, e) && e.enqueuedAt < g.entry.enqueuedAt }

  ghost function TimesPassedOlder(grants: seq<Grant>, e: Entry): nat {
    if grants == [] then 0
    else TimesPassedOlder(grants[..|grants|-1], e) + if PassesOlder(grants[|grants|-1], e) then 1 else 0
  }

  lemma LeaderIsOldest(s: Setting, es: seq<Entry>, e: Entry)
    requires es != [] && Leads(es, e)
    ensures es[Scheduling.OldestIndex(Candidates(s, es))] == e
  {
    var cs := Candidates(s, es);
    hide Candidates;
    var k :| 0 <= k < |es| && es[k] == e && LeadsAt(es, k);
    var r := Scheduling.OldestIndex(cs);
    assert cs[r].queuedAt <= cs[k].queuedAt;
    assert cs[r].queuedAt == es[r].enqueuedAt && cs[k].queuedAt == es[k].enqueuedAt;
  }

  /** Passing over the scheduler's oldest candidate for a strictly later one is counted, and happens below the limit. */
  lemma PassedOlderIsCounted(cfg: Config, s: Setting, b: State, x: Id, e: Entry)
    requires Owned(cfg, b) && Grants(s, b, x) && PassesOlder(GrantLog(s, b, x)[0], e)
    ensures e in b.queue.deque && Bumped(s, b, x, e) && Count(b, e) < s.maxBypass
  {
    var es := Eligible(s, b.ledger, b.queue.deque);
    assert e in es;
    EligibleExactly(s, b.ledger, b.queue.deque, e);
    LeaderIsOldest(s, es, e);
    hide Owned, Eligible, Leads;
    var cs := Candidates(s, es);
    assert cs[Scheduling.OldestIndex(cs)].id == e.id;
    Scheduling.PassedOverOnlyBelowLimit(s.policy, b.queue.scheduler.bypass, s.maxBypass, cs);
  }

  /** Counts cover the strict pass-overs, which stay within the limit. */
  ghost predicate Counted(cfg: Config, b: State) {
    && Booked(b)
    && (forall e :: e in b.queue.deque ==> TimesPassedOlder(b.grants, e) <= Count(b, e))
    && (forall x :: x in b.entries ==> TimesPassedOlder(b.grants, b.entries[x]) <= cfg.maxBypass)
  }

  lemma PassedOlderNext(grants: seq<Grant>, g: Grant, e: Entry)
    ensures TimesPassedOlder(grants + [g], e) == TimesPassedOlder(grants, e) + if PassesOlder(g, e) then 1 else 0
  {
    assert (grants + [g])[..|grants|] == grants;
  }

  lemma CountedBooks(cfg: Config, b: State, n: State, bumped: Entry -> bool, passed: Entry -> bool)
    requires Counted(cfg, b) && Booked(n) && n.entries == b.entries
    requires forall e :: e in n.queue.deque ==>
      e in b.queue.deque && Count(n, e) == Count(b, e) + if bumped(e) then 1 else 0
    requires forall e :: TimesPassedOlder(n.grants, e) == TimesPassedOlder(b.grants, e) + if passed(e) then 1 else 0
    requires forall e :: passed(e) ==> e in b.queue.deque && bumped(e) && Count(b, e) < cfg.maxBypass
    ensures Counted(cfg, n)
  {
    hide TimesPassedOlder, Count, Booked;
  }

  lemma PollCounted(cfg: Config, s: Setting, b: State, x: Id)
    requires Owned(cfg, b) && Counted(cfg, b) && s.maxBypass == cfg.maxBypass && s.now == b.now
    requires x in b.waiting && x in b.entries && b.entries[x].id == x
    ensures Counted(cfg, PollStep(s, b, x))
  {
    var n := PollStep(s, b, x);
    PollLogs(cfg, s, b, x);
    assert Booked(b);
    PollCounts(cfg, s, b, x);
    GrantIsNew(cfg, s, b, x);
    hide Owned, Counted, Bumped, Grants, Count, PollStep, PassesOlder, GrantLog, Booked;
    if Grants(s, b, x) {
      var g := GrantLog(s, b, x)[0];
      assert n.grants == b.grants + [g];
      forall e
        ensures TimesPassedOlder(n.grants, e) == TimesPassedOlder(b.grants, e) + if PassesOlder(g, e) then 1 else 0
        ensures PassesOlder(g, e) ==> e in b.queue.deque && Bumped(s, b, x, e) && Count(b, e) < cfg.maxBypass
      {
        PassedOlderNext(b.grants, g, e);
        if PassesOlder(g, e) { PassedOlderIsCounted(cfg, s, b, x, e); }
      }
      CountedBooks(cfg, b, n, e => Bumped(s, b, x, e), e => PassesOlder(g, e));
    } else {
      assert b.grants + [] == b.grants;
      CountedBooks(cfg, b, n, e => Bumped(s, b, x, e), e => false);
    }
  }

  lemma {:induction false} NeverLed(grants: seq<Grant>, e: Entry)
    requires forall g :: g in grants ==> e !in g.eligible
    ensures TimesPassedOlder(grants, e) == 0
  {
    if grants != [] {
      NeverLed(grants[..|grants|-1], e);
      assert grants[|grants|-1] in grants;
    }
  }

  lemma EnqueueCounted(cfg: Config, b: State, ev: Event)
    requires Owned(cfg, b) && Archived(b) && Counted(cfg, b) && ev.Chat? && ev.id !in b.ledger.records
    ensures Counted(cfg, Enqueue(b, NewEntry(cfg, b, ev.id, ev.lane, ev.stamp)))
  {
    var e := NewEntry(cfg, b, ev.id, ev.lane, ev.stamp);
    var n := Enqueue(b, e);
    NeverLed(b.grants, e);
    assert e.id == ev.id && ev.id !in b.entries by { assert Legal(ViewOf(b, ev.id)); }
    HoldsAfterAppend(b.queue.deque, e);
    hide TimesPassedOlder, Archived, Owned, NewEntry;
    assert Booked(n);
  }

  lemma CountedFrame(cfg: Config, b: State, n: State)
    requires Counted(cfg, b) && n.grants == b.grants && n.queue == b.queue && n.entries == b.entries
    ensures Counted(cfg, n)
  {}

  lemma NextCounted(cfg: Config, b: State, ev: Event)
    requires Owned(cfg, b) && Archived(b) && Counted(cfg, b)
    ensures Counted(cfg, Next(cfg, b, ev))
  {
    hide PollStep, ChatStep, Enqueue, NewEntry, Archived, Counted;
    match ev {
      case Poll(id, ready, env) =>
        if id in b.waiting && id in b.entries { PollCounted(cfg, SettingOf(cfg, b, ready, env), b, id); }
      case Chat(id, _, _, _, _, _, _, _) =>
        if id !in b.ledger.records {
          ChatFrame(cfg, b, ev);
          EnqueueCounted(cfg, b, ev);
          if Next(cfg, b, ev).queue == b.queue && Next(cfg, b, ev).entries == b.entries {
            CountedFrame(cfg, b, Next(cfg, b, ev));
          }
        }
      case _ => CountedFrame(cfg, b, Next(cfg, b, ev));
    }
  }

  /**
  Over every run, whatever the stamps and the lanes: a request is passed over for a strictly later one at most
  `maxBypass` times while it is the scheduler's oldest candidate.
  */
  lemma {:induction false} StrictPassOversBounded(cfg: Config, evs: seq<Event>)
    ensures Counted(cfg, Exec(cfg, evs))
    ensures forall x :: x in Exec(cfg, evs).entries ==>
      TimesPassedOlder(Exec(cfg, evs).grants, Exec(cfg, evs).entries[x]) <= cfg.maxBypass
  {
    if evs != [] {
      var front, ev := evs[..|evs|-1], evs[|evs|-1];
      StrictPassOversBounded(cfg, front);
      AlwaysOwned(cfg, front);
      AlwaysArchived(cfg, front);
      NextCounted(cfg, Exec(cfg, front), ev);
    }
  }
}
