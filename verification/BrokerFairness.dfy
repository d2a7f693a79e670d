/** Bounded overtaking: how often later arrivals may be granted before a waiting request. */
module BrokerFairness {
  import opened Core
  import opened Runtime
  import opened RequestQueues
  import opened Broker
  import opened BrokerSafety
  import opened BrokerOrder
  import Scheduling

  /** `g` was given to a later arrival while `e` was queued and within its deadline. */
  ghost predicate Overtakes(g: Grant, e: Entry) {
    e in g.deque && e.ticket < g.entry.ticket && !Expired(g.at, e)
  }

  /** `e` was the oldest candidate of the selection, and another entry was granted. */
  ghost predicate PassesOver(g: Grant, e: Entry) {
    g.eligible != [] && g.eligible[0] == e && g.entry != e
  }

  ghost function TimesOvertaken(grants: seq<Grant>, e: Entry): nat {
    if grants == [] then 0
    else TimesOvertaken(grants[..|grants|-1], e) + if Overtakes(grants[|grants|-1], e) then 1 else 0
  }

  ghost function TimesPassedOver(grants: seq<Grant>, e: Entry): nat {
    if grants == [] then 0
    else TimesPassedOver(grants[..|grants|-1], e) + if PassesOver(grants[|grants|-1], e) then 1 else 0
  }

  /** Every queued entry within its deadline was eligible: no lane held anyone back. */
  ghost predicate AllEligible(g: Grant) {
    forall e :: e in g.deque && !Expired(g.at, e) ==> e in g.eligible
  }

  ghost function Count(b: State, e: Entry): nat { Scheduling.Bypassed(b.queue.scheduler.bypass, e.id) }

  // ---------------------------------------------------------------------------
  // What one decision does to the bypass counts
  // ---------------------------------------------------------------------------

  ghost predicate Bumped(s: Setting, b: State, x: Id, e: Entry) {
    Grants(s, b, x) && e in Eligible(s, b.ledger, b.queue.deque)
    && e.enqueuedAt < Chosen(s, b.queue, b.ledger).enqueuedAt
  }

  /** A decision adds one exactly to the candidates older than the chosen one. */
  lemma DecidedCounts(cfg: Config, s: Setting, b: State, x: Id, e: Entry)
    requires Owned(cfg, b) && Grants(s, b, x) && e in b.queue.deque
    ensures Scheduling.Bypassed(Decided(s, b.queue, b.ledger).bypass, e.id) ==
      Count(b, e) + if Bumped(s, b, x, e) then 1 else 0
  {
    hide *;
    var es := Eligible(s, b.ledger, b.queue.deque);
    DecidedIs(cfg, s, b, x, e);
    EligibleKeepsOrder(ByIdentity, s, b.ledger, b.queue.deque);
    DecidedAmong(s, b.queue.scheduler, es, e);
    EligibleExactly(s, b.ledger, b.queue.deque, e);
    forall i | 0 <= i < |es| && es[i].id == e.id ensures es[i] == e && e in es {
      EligibleExactly(s, b.ledger, b.queue.deque, es[i]);
      SameId(b.queue.deque, es[i], e);
    }
  }

  /** The definitions behind the counts. */
  lemma DecidedIs(cfg: Config, s: Setting, b: State, x: Id, e: Entry)
    requires Owned(cfg, b) && Grants(s, b, x)
    ensures var es := Eligible(s, b.ledger, b.queue.deque);
            var cs := Candidates(s, es);
            var c := Scheduling.ChooseIndex(s.policy, b.queue.scheduler.bypass, s.maxBypass, cs);
      && es != [] && Ordered(ByIdentity, b.queue.deque) && DistinctIds(b.queue.deque)
      && (Ordered(ByIdentity, es) <==> DistinctIds(es))
      && Decided(s, b.queue, b.ledger) == Scheduling.Decide(s.policy, s.maxBypass, b.queue.scheduler, cs, true).1
      && Count(b, e) == Scheduling.Bypassed(b.queue.scheduler.bypass, e.id)
      && (Bumped(s, b, x, e) <==> e in es && e.enqueuedAt < es[c.index].enqueuedAt)
  {
    hide Eligible, Candidates, Scheduling.Decide, Scheduling.ChooseIndex, GlobalRoom, LaneRoom, Ordered;
  }

  /** The same of any list of candidates, in terms of the candidate with that id. */
  lemma DecidedAmong(s: Setting, sch: Scheduling.SchedulerState, es: seq<Entry>, e: Entry)
    requires es != [] && DistinctIds(es)
    ensures var cs := Candidates(s, es);
            var at := es[Scheduling.ChooseIndex(s.policy, sch.bypass, s.maxBypass, cs).index].enqueuedAt;
      Scheduling.Bypassed(Scheduling.Decide(s.policy, s.maxBypass, sch, cs, true).1.bypass, e.id) ==
        Scheduling.Bypassed(sch.bypass, e.id) +
        if exists i :: 0 <= i < |es| && es[i].id == e.id && es[i].enqueuedAt < at then 1 else 0
  {
    var cs := Candidates(s, es);
    var c := Scheduling.ChooseIndex(s.policy, sch.bypass, s.maxBypass, cs);
    CandidateFacts(s, es, e, es[c.index].enqueuedAt);
    assert cs[c.index].queuedAt == es[c.index].enqueuedAt;
    hide Candidates;
    if c.reason == Scheduling.CacheAffinity {
      Scheduling.BumpPointwise(sch.bypass, cs, cs[c.index].queuedAt, e.id);
    } else {
      forall i | 0 <= i < |es| ensures es[c.index].enqueuedAt <= es[i].enqueuedAt {
        NothingOlder(s, sch.bypass, es, es[i]);
      }
    }
  }

  lemma CandidateFacts(s: Setting, es: seq<Entry>, e: Entry, at: real)
    requires DistinctIds(es)
    ensures var cs := Candidates(s, es);
      && (forall i, j :: 0 <= i < j < |cs| ==> cs[i].id != cs[j].id)
      && ((exists i :: 0 <= i < |cs| && cs[i].id == e.id && cs[i].queuedAt < at) <==>
          (exists i :: 0 <= i < |es| && es[i].id == e.id && es[i].enqueuedAt < at))
  {
    var cs := Candidates(s, es);
    forall i, j | 0 <= i < j < |cs| ensures cs[i].id != cs[j].id {
      assert Before(ByIdentity, es[i], es[j]);
    }
    assert forall i :: 0 <= i < |es| ==> cs[i].id == es[i].id && cs[i].queuedAt == es[i].enqueuedAt;
  }

  /** Without cache affinity the chosen candidate is the oldest. */
  lemma NothingOlder(s: Setting, bypass: map<string, nat>, es: seq<Entry>, e: Entry)
    requires es != []
    requires Scheduling.ChooseIndex(s.policy, bypass, s.maxBypass, Candidates(s, es)).reason != Scheduling.CacheAffinity
    ensures var cs := Candidates(s, es);
            var c := Scheduling.ChooseIndex(s.policy, bypass, s.maxBypass, cs);
      e in es ==> es[c.index].enqueuedAt <= e.enqueuedAt
  {
    var cs := Candidates(s, es);
    Scheduling.PassedOverOnlyBelowLimit(s.policy, bypass, s.maxBypass, cs);
    if e in es {
      var i :| 0 <= i < |es| && es[i] == e;
      assert cs[i] == CandidateOf(s, e);
    }
  }

  /** Passing over the front-most candidate is possible only below the limit. */
  lemma OldestBelowLimit(cfg: Config, s: Setting, b: State, x: Id)
    requires Owned(cfg, b) && Grants(s, b, x) && Ordered(ByStrictStamp, b.queue.deque)
    ensures var es := Eligible(s, b.ledger, b.queue.deque);
            var chosen := Chosen(s, b.queue, b.ledger);
      && (chosen != es[0] ==> Count(b, es[0]) < s.maxBypass && es[0].enqueuedAt < chosen.enqueuedAt)
      && (forall e :: e in es ==> es[0].enqueuedAt <= e.enqueuedAt && es[0].ticket <= e.ticket)
  {
    var es := Eligible(s, b.ledger, b.queue.deque);
    EligibleKeepsOrder(ByStrictStamp, s, b.ledger, b.queue.deque);
    EligibleKeepsOrder(ByTicket, s, b.ledger, b.queue.deque);
    FrontIsOldest(es);
    OldestIsFront(s, es);
    PassingOver(s, b.queue.scheduler.bypass, es);
  }

  lemma FrontIsOldest(es: seq<Entry>)
    requires es != [] && Ordered(ByStrictStamp, es) && Ordered(ByTicket, es)
    ensures Ordered(ByStamp, es)
    ensures forall e :: e in es ==> e == es[0] || (es[0].enqueuedAt < e.enqueuedAt && es[0].ticket < e.ticket)
  {
    forall i, j | 0 <= i < j < |es|
      ensures Before(ByStamp, es[i], es[j])
    {
      assert Before(ByStrictStamp, es[i], es[j]);
    }
    forall i | 0 < i < |es| ensures es[0].enqueuedAt < es[i].enqueuedAt && es[0].ticket < es[i].ticket {
      assert Before(ByStrictStamp, es[0], es[i]) && Before(ByTicket, es[0], es[i]);
    }
  }

  lemma PassingOver(s: Setting, bypass: map<string, nat>, es: seq<Entry>)
    requires es != [] && Scheduling.OldestIndex(Candidates(s, es)) == 0
    ensures var c := Scheduling.ChooseIndex(s.policy, bypass, s.maxBypass, Candidates(s, es));
      c.index != 0 ==> Scheduling.Bypassed(bypass, es[0].id) < s.maxBypass
  {
    var cs := Candidates(s, es);
    Scheduling.PassedOverOnlyBelowLimit(s.policy, bypass, s.maxBypass, cs);
    assert cs[0] == CandidateOf(s, es[0]);
  }

  /** Within a strictly stamped deque, older by ticket and older by stamp are the same. */
  lemma TicketIsStamp(deque: seq<Entry>, a: Entry, b: Entry)
    requires Ordered(ByTicket, deque) && Ordered(ByStrictStamp, deque) && a in deque && b in deque
    ensures a.ticket < b.ticket <==> a.enqueuedAt < b.enqueuedAt
  {
    var i :| 0 <= i < |deque| && deque[i] == a;
    var j :| 0 <= j < |deque| && deque[j] == b;
    assert i < j ==> Before(ByTicket, a, b) && Before(ByStrictStamp, a, b);
    assert j < i ==> Before(ByTicket, b, a) && Before(ByStrictStamp, b, a);
  }

  // ---------------------------------------------------------------------------
  // What one poll does to the books
  // ---------------------------------------------------------------------------

  /** Books are kept for queued entries only. */
  ghost predicate Booked(b: State) { forall id :: id in b.queue.scheduler.bypass ==> Holds(b.queue.deque, id) }

  ghost predicate Tidy(b: State) { Ordered(ByStrictStamp, b.queue.deque) && Booked(b) }

  lemma RemoveKeepsCounts(q: QueueState, id: Id)
    requires DistinctIds(q.deque)
    ensures forall y :: y != id ==>
      Scheduling.Bypassed(Remove(q, id).scheduler.bypass, y) == Scheduling.Bypassed(q.scheduler.bypass, y)
    ensures (forall y :: y in q.scheduler.bypass ==> Holds(q.deque, y)) ==>
      forall y :: y in Remove(q, id).scheduler.bypass ==> Holds(Remove(q, id).deque, y)
  {
    HoldsAfterRemoval(q.deque, id);
  }

  lemma DecidedKeys(cfg: Config, s: Setting, b: State, x: Id)
    requires Owned(cfg, b) && Grants(s, b, x) && Booked(b)
    ensures forall y :: y in Decided(s, b.queue, b.ledger).bypass ==> Holds(b.queue.deque, y)
  {
    var es := Eligible(s, b.ledger, b.queue.deque);
    var cs := Candidates(s, es);
    var c := Scheduling.ChooseIndex(s.policy, b.queue.scheduler.bypass, s.maxBypass, cs);
    forall i | 0 <= i < |cs| ensures Holds(b.queue.deque, cs[i].id) {
      EligibleExactly(s, b.ledger, b.queue.deque, es[i]);
      assert cs[i] == CandidateOf(s, es[i]);
    }
    BumpKeys(b.queue.scheduler.bypass, cs, cs[c.index].queuedAt, b.queue.deque);
  }

  lemma {:induction false} BumpKeys(bypass: map<string, nat>, cs: seq<Scheduling.Candidate>, at: real,
                                    deque: seq<Entry>)
    requires forall y :: y in bypass ==> Holds(deque, y)
    requires forall i :: 0 <= i < |cs| ==> Holds(deque, cs[i].id)
    ensures forall y :: y in Scheduling.Bump(bypass, cs, at) ==> Holds(deque, y)
  {
    if cs != [] {
      BumpKeys(bypass, cs[..|cs|-1], at, deque);
    }
  }

  /** The counts of the entries that stay, after a selection. */
  lemma SelectCounts(cfg: Config, s: Setting, b: State, x: Id)
    requires Owned(cfg, b) && Booked(b) && x in b.waiting && Selects(s, b, x)
    ensures var g := AfterSelect(s, b, x);
      && Booked(g)
      && (forall e :: e in g.queue.deque ==>
            e in b.queue.deque && Count(g, e) == Count(b, e) + if Bumped(s, b, x, e) then 1 else 0)
  {
    var g := AfterSelect(s, b, x);
    SelectReduces(cfg, s, b, x);
    if Grants(s, b, x) {
      var chosen := Chosen(s, b.queue, b.ledger);
      var q := b.queue.(scheduler := Decided(s, b.queue, b.ledger));
      DecidedKeys(cfg, s, b, x);
      RemoveKeepsCounts(q, chosen.id);
      RemoveReduces(q, chosen.id);
      forall e | e in g.queue.deque
        ensures e in b.queue.deque && Count(g, e) == Count(b, e) + if Bumped(s, b, x, e) then 1 else 0
      {
        DecidedCounts(cfg, s, b, x, e);
      }
    }
  }

  lemma LeaveCounts(cfg: Config, b: State, x: Id, st: Status, log: seq<Return>)
    requires Owned(cfg, b) && Booked(b)
    ensures var n := AfterLeave(b, x, st, log);
      Booked(n) && (forall e :: e in n.queue.deque ==> e in b.queue.deque && Count(n, e) == Count(b, e))
  {
    RemoveReduces(b.queue, x);
    RemoveKeepsCounts(b.queue, x);
  }

  lemma ClaimCounts(b: State, x: Id, log: seq<Return>)
    requires Booked(b)
    ensures var n := AfterClaim(b, x, log); Booked(n) && n.queue == b.queue
  {}

  /** The counts of the entries that stay, after a whole poll. */
  lemma PollCounts(cfg: Config, s: Setting, b: State, x: Id)
    requires Owned(cfg, b) && Booked(b) && x in b.waiting && x in b.entries && b.entries[x].id == x
    ensures var n := PollStep(s, b, x);
      && Booked(n) && (Tidy(b) ==> Tidy(n))
      && (forall e :: e in n.queue.deque ==>
            e in b.queue.deque && Count(n, e) == Count(b, e) + if Bumped(s, b, x, e) then 1 else 0)
  {
    PollReduces(cfg, s, b, x);
    hide PollStep, AfterLeave, AfterSelect, AfterClaim, Owned, Chosen, Grants, Booked, Bumped;
    var lost, won := b.returned + [Return(x, false, b.now)], b.returned + [Return(x, true, b.now)];
    if Selects(s, b, x) {
      PollCases(s, b, x);
      SelectOwned(cfg, s, b, x);
      SelectCounts(cfg, s, b, x);
      LeaveCounts(cfg, AfterSelect(s, b, x), x, TimedOut, lost);
      ClaimCounts(AfterSelect(s, b, x), x, won);
    } else {
      NothingBumped(s, b, x);
      PollOtherCases(s, b, x);
      LeaveCounts(cfg, b, x, TimedOut, lost);
      LeaveCounts(cfg, b, x, Cancelled, lost);
      ClaimCounts(b, x, won);
    }
  }

  lemma NothingBumped(s: Setting, b: State, x: Id)
    requires !Selects(s, b, x)
    ensures forall e :: !Bumped(s, b, x, e)
  {}

  // ---------------------------------------------------------------------------
  // Passed over while oldest: every run with strictly increasing stamps
  // ---------------------------------------------------------------------------

  ghost predicate FairToOldest(cfg: Config, b: State) {
    && Tidy(b)
    && (forall e :: e in b.queue.deque ==> TimesPassedOver(b.grants, e) <= Count(b, e))
    && (forall x :: x in b.entries ==> TimesPassedOver(b.grants, b.entries[x]) <= cfg.maxBypass)
  }

  lemma PassedOverNext(grants: seq<Grant>, g: Grant, e: Entry)
    ensures TimesPassedOver(grants + [g], e) == TimesPassedOver(grants, e) + if PassesOver(g, e) then 1 else 0
  {
    assert (grants + [g])[..|grants|] == grants;
  }

  lemma OvertakenNext(grants: seq<Grant>, g: Grant, e: Entry)
    ensures TimesOvertaken(grants + [g], e) == TimesOvertaken(grants, e) + if Overtakes(g, e) then 1 else 0
  {
    assert (grants + [g])[..|grants|] == grants;
  }

  /** Being passed over as the oldest candidate is always counted, and happens only below the limit. */
  lemma PassedOverIsCounted(cfg: Config, s: Setting, b: State, x: Id, e: Entry)
    requires Owned(cfg, b) && Tidy(b) && Grants(s, b, x) && e in b.queue.deque
    requires PassesOver(GrantLog(s, b, x)[0], e)
    ensures Bumped(s, b, x, e) && Count(b, e) < s.maxBypass
  {
    OldestBelowLimit(cfg, s, b, x);
  }

  lemma PollFairToOldest(cfg: Config, s: Setting, b: State, x: Id)
    requires Owned(cfg, b) && FairToOldest(cfg, b) && s.maxBypass == cfg.maxBypass && s.now == b.now
    requires x in b.waiting && x in b.entries && b.entries[x].id == x
    ensures FairToOldest(cfg, PollStep(s, b, x))
  {
    var n := PollStep(s, b, x);
    PollLogs(cfg, s, b, x);
    PollCounts(cfg, s, b, x);
    if Grants(s, b, x) {
      var g := GrantLog(s, b, x)[0];
      assert n.grants == b.grants + [g];
      forall e
        ensures TimesPassedOver(n.grants, e) == TimesPassedOver(b.grants, e) + if PassesOver(g, e) then 1 else 0
      {
        PassedOverNext(b.grants, g, e);
      }
      PassedOverStep(cfg, s, b, x, n, g);
    } else {
      assert b.grants + [] == b.grants;
    }
  }

  lemma PassedOverStep(cfg: Config, s: Setting, b: State, x: Id, n: State, g: Grant)
    requires Owned(cfg, b) && FairToOldest(cfg, b) && s.maxBypass == cfg.maxBypass
    requires Grants(s, b, x) && g == GrantLog(s, b, x)[0]
    requires Tidy(n) && n.entries == b.entries
    requires forall e :: e in n.queue.deque ==>
      e in b.queue.deque && Count(n, e) == Count(b, e) + if Bumped(s, b, x, e) then 1 else 0
    requires forall e ::
      TimesPassedOver(n.grants, e) == TimesPassedOver(b.grants, e) + if PassesOver(g, e) then 1 else 0
    ensures FairToOldest(cfg, n)
  {
    hide Owned, FairToOldest, Tidy, Count;
    var first, passed := g.eligible[0], PassesOver(g, g.eligible[0]);
    assert first in b.queue.deque by { EligibleExactly(s, b.ledger, b.queue.deque, first); }
    if passed {
      FairIsTidy(cfg, b);
      PassedOverIsCounted(cfg, s, b, x, first);
    }
    hide Bumped, Grants, GrantLog;
    FairToOldestBooks(cfg, b, n, first, passed);
  }

  lemma FairIsTidy(cfg: Config, b: State)
    requires FairToOldest(cfg, b)
    ensures Tidy(b)
  {}

  lemma FairToOldestBooks(cfg: Config, b: State, n: State, first: Entry, passed: bool)
    requires FairToOldest(cfg, b) && Tidy(n) && n.entries == b.entries
    requires forall e :: e in n.queue.deque ==>
      e in b.queue.deque && Count(n, e) >= Count(b, e) + if e == first && passed then 1 else 0
    requires forall e ::
      TimesPassedOver(n.grants, e) == TimesPassedOver(b.grants, e) + if e == first && passed then 1 else 0
    requires passed ==> first in b.queue.deque && Count(b, first) < cfg.maxBypass
    ensures FairToOldest(cfg, n)
  {
    hide TimesPassedOver, Count, Tidy;
  }

  lemma EnqueueTidy(cfg: Config, b: State, evs: seq<Event>, ev: Event)
    requires Owned(cfg, b) && Tidy(b) && StampsKnown(b, evs) && ev.Chat? && ev.id !in b.ledger.records
    requires StampsOrdered(evs + [ev], true)
    ensures var e := NewEntry(cfg, b, ev.id, ev.lane, ev.stamp);
            var n := Enqueue(b, e);
      Tidy(n) && Count(n, e) == 0 && (forall d :: d in b.queue.deque ==> Count(n, d) == Count(b, d))
  {
    var e := NewEntry(cfg, b, ev.id, ev.lane, ev.stamp);
    forall d | d in b.queue.deque ensures d.enqueuedAt < e.enqueuedAt {
      NewestStamp(cfg, b, evs, ev, d.id, true);
    }
    HoldsAfterAppend(b.queue.deque, e);
    assert Legal(ViewOf(b, ev.id));
  }

  /** An entry no logged deque holds was never overtaken nor passed over. */
  lemma {:induction false} NeverSeen(grants: seq<Grant>, e: Entry)
    requires forall g :: g in grants ==> e !in g.deque && e !in g.eligible
    ensures TimesOvertaken(grants, e) == 0 && TimesPassedOver(grants, e) == 0
  {
    if grants != [] {
      NeverSeen(grants[..|grants|-1], e);
      assert grants[|grants|-1] in grants;
    }
  }

  lemma NewEntryUnseen(cfg: Config, b: State, ev: Event)
    requires Owned(cfg, b) && Archived(b) && ev.Chat? && ev.id !in b.ledger.records
    ensures var e := NewEntry(cfg, b, ev.id, ev.lane, ev.stamp);
      TimesOvertaken(b.grants, e) == 0 && TimesPassedOver(b.grants, e) == 0
  {
    NeverSeen(b.grants, NewEntry(cfg, b, ev.id, ev.lane, ev.stamp));
  }

  lemma EnqueueFairToOldest(cfg: Config, b: State, evs: seq<Event>, ev: Event)
    requires Owned(cfg, b) && Archived(b) && FairToOldest(cfg, b)
    requires StampsKnown(b, evs) && ev.Chat? && ev.id !in b.ledger.records
    requires StampsOrdered(evs + [ev], true)
    ensures FairToOldest(cfg, Enqueue(b, NewEntry(cfg, b, ev.id, ev.lane, ev.stamp)))
  {
    EnqueueTidy(cfg, b, evs, ev);
    NewEntryUnseen(cfg, b, ev);
    hide TimesPassedOver, TimesOvertaken, Count, Tidy, Archived, StampsKnown, Owned;
  }

  lemma FairFrame(cfg: Config, b: State, n: State)
    requires FairToOldest(cfg, b) && n.grants == b.grants && n.queue == b.queue && n.entries == b.entries
    ensures FairToOldest(cfg, n)
  {}

  lemma NextFairToOldest(cfg: Config, b: State, evs: seq<Event>, ev: Event)
    requires Owned(cfg, b) && Archived(b) && FairToOldest(cfg, b)
    requires StampsKnown(b, evs) && StampsOrdered(evs + [ev], true)
    ensures FairToOldest(cfg, Next(cfg, b, ev))
  {
    hide PollStep, ChatStep, Enqueue, NewEntry, Archived, StampsKnown, FairToOldest, StampsOrdered;
    match ev {
      case Poll(id, ready, env) =>
        if id in b.waiting && id in b.entries { PollFairToOldest(cfg, SettingOf(cfg, b, ready, env), b, id); }
      case Chat(id, _, _, _, _, _, _, _) =>
        if id !in b.ledger.records {
          ChatFrame(cfg, b, ev);
          EnqueueFairToOldest(cfg, b, evs, ev);
          if Next(cfg, b, ev).queue == b.queue && Next(cfg, b, ev).entries == b.entries {
            FairFrame(cfg, b, Next(cfg, b, ev));
          }
        }
      case _ => FairFrame(cfg, b, Next(cfg, b, ev));
    }
  }

  lemma StampsOrderedPrefix(evs: seq<Event>, strictly: bool)
    requires evs != [] && StampsOrdered(evs, strictly)
    ensures StampsOrdered(evs[..|evs|-1], strictly)
    ensures evs == evs[..|evs|-1] + [evs[|evs|-1]]
  {}

  /** A request is passed over at most `maxBypass` times while it is the oldest candidate, whatever the lanes do. */
  lemma {:induction false} OldestPassedOverBounded(cfg: Config, evs: seq<Event>)
    requires StampsOrdered(evs, true)
    ensures FairToOldest(cfg, Exec(cfg, evs))
    ensures forall x :: x in Exec(cfg, evs).entries ==>
      TimesPassedOver(Exec(cfg, evs).grants, Exec(cfg, evs).entries[x]) <= cfg.maxBypass
  {
    if evs != [] {
      var front, ev := evs[..|evs|-1], evs[|evs|-1];
      StampsOrderedPrefix(evs, true);
      OldestPassedOverBounded(cfg, front);
      AlwaysOwned(cfg, front);
      AlwaysArchived(cfg, front);
      NextFairToOldest(cfg, Exec(cfg, front), front, ev);
    }
  }

  // ---------------------------------------------------------------------------
  // Overtaken by later arrivals: runs in which no lane holds anyone back
  // ---------------------------------------------------------------------------

  ghost predicate CountsFall(b: State, d: Entry, e: Entry) {
    d.ticket < e.ticket && !Expired(b.now, d) && !Expired(b.now, e) ==> Count(b, d) >= Count(b, e)
  }

  /** Counts fall from older to newer entries, stay within the limit, and cover every overtaking grant. */
  ghost predicate Fair(cfg: Config, b: State) {
    && Tidy(b)
    && (forall e :: e in b.queue.deque ==> TimesOvertaken(b.grants, e) <= Count(b, e) <= cfg.maxBypass)
    && (forall d, e :: d in b.queue.deque && e in b.queue.deque ==> CountsFall(b, d, e))
    && (forall x :: x in b.entries ==> TimesOvertaken(b.grants, b.entries[x]) <= cfg.maxBypass)
  }

  /** When every live entry was eligible, being overtaken and being counted are the same thing. */
  lemma OvertakenIsBumped(cfg: Config, s: Setting, b: State, x: Id, e: Entry)
    requires Owned(cfg, b) && Tidy(b) && Grants(s, b, x) && e in b.queue.deque && s.now == b.now
    requires AllEligible(GrantLog(s, b, x)[0])
    ensures Overtakes(GrantLog(s, b, x)[0], e) <==> Bumped(s, b, x, e)
    ensures Bumped(s, b, x, e) ==> !Expired(b.now, e)
  {
    ChosenIsQueued(s, b.queue, b.ledger);
    TicketIsStamp(b.queue.deque, e, Chosen(s, b.queue, b.ledger));
    EligibleExactly(s, b.ledger, b.queue.deque, e);
  }

  /** A bump happens only below the limit: the oldest candidate is below it and counts fall with age. */
  lemma BumpedBelowLimit(cfg: Config, s: Setting, b: State, x: Id, e: Entry)
    requires Owned(cfg, b) && Fair(cfg, b) && Bumped(s, b, x, e)
    requires e in b.queue.deque && s.now == b.now && s.maxBypass == cfg.maxBypass
    ensures Count(b, e) < cfg.maxBypass
  {
    var first := Eligible(s, b.ledger, b.queue.deque)[0];
    OldestBelowLimit(cfg, s, b, x);
    EligibleExactly(s, b.ledger, b.queue.deque, e);
    EligibleExactly(s, b.ledger, b.queue.deque, first);
    if first.ticket == e.ticket {
      SameTicket(b.queue.deque, first, e);
    } else {
      assert CountsFall(b, first, e);
    }
  }

  lemma SameTicket(deque: seq<Entry>, a: Entry, b: Entry)
    requires Ordered(ByTicket, deque) && a in deque && b in deque && a.ticket == b.ticket
    ensures a == b
  {
    var i :| 0 <= i < |deque| && deque[i] == a;
    var j :| 0 <= j < |deque| && deque[j] == b;
    assert i < j ==> Before(ByTicket, a, b);
    assert j < i ==> Before(ByTicket, b, a);
  }

  lemma FairBooks(cfg: Config, b: State, n: State, bumped: Entry -> bool)
    requires Fair(cfg, b) && Owned(cfg, b) && Tidy(n) && n.entries == b.entries && n.now == b.now
    requires forall e :: e in n.queue.deque ==>
      e in b.queue.deque && Count(n, e) == Count(b, e) + if bumped(e) then 1 else 0
    requires forall e :: e in b.queue.deque ==>
      TimesOvertaken(n.grants, e) == TimesOvertaken(b.grants, e) + if bumped(e) then 1 else 0
    requires forall e :: e !in b.queue.deque ==> TimesOvertaken(n.grants, e) == TimesOvertaken(b.grants, e)
    requires forall e :: e in b.queue.deque && bumped(e) ==> Count(b, e) < cfg.maxBypass
    requires forall d, e :: d in b.queue.deque && e in b.queue.deque ==>
      (d.ticket < e.ticket && bumped(e) && !Expired(b.now, d) ==> bumped(d))
    ensures Fair(cfg, n)
  {
    hide TimesOvertaken, Count, Tidy, Owned;
    forall d, e | d in n.queue.deque && e in n.queue.deque ensures CountsFall(n, d, e) {
      assert CountsFall(b, d, e);
    }
  }

  lemma PollFair(cfg: Config, s: Setting, b: State, x: Id)
    requires Owned(cfg, b) && Fair(cfg, b) && s.maxBypass == cfg.maxBypass && s.now == b.now
    requires x in b.waiting && x in b.entries && b.entries[x].id == x
    requires Grants(s, b, x) ==> AllEligible(GrantLog(s, b, x)[0])
    ensures Fair(cfg, PollStep(s, b, x))
  {
    var n := PollStep(s, b, x);
    PollLogs(cfg, s, b, x);
    PollCounts(cfg, s, b, x);
    if Grants(s, b, x) {
      var g := GrantLog(s, b, x)[0];
      assert n.grants == b.grants + [g];
      forall e
        ensures TimesOvertaken(n.grants, e) == TimesOvertaken(b.grants, e) + if Overtakes(g, e) then 1 else 0
        ensures e in b.queue.deque ==> (Overtakes(g, e) <==> Bumped(s, b, x, e))
        ensures e in b.queue.deque && Bumped(s, b, x, e) ==> Count(b, e) < cfg.maxBypass
        ensures e !in b.queue.deque ==> !Overtakes(g, e)
      {
        OvertakenNext(b.grants, g, e);
        if e in b.queue.deque {
          OvertakenIsBumped(cfg, s, b, x, e);
          if Bumped(s, b, x, e) { BumpedBelowLimit(cfg, s, b, x, e); }
        }
      }
      forall d, e | d in b.queue.deque && e in b.queue.deque && d.ticket < e.ticket && Bumped(s, b, x, e)
        && !Expired(b.now, d)
        ensures Bumped(s, b, x, d)
      {
        TicketIsStamp(b.queue.deque, d, e);
        assert d in g.eligible;
      }
      FairBooks(cfg, b, n, e => Bumped(s, b, x, e));
    } else {
      assert b.grants + [] == b.grants;
      FairBooks(cfg, b, n, e => false);
    }
  }

  lemma EnqueueFair(cfg: Config, b: State, evs: seq<Event>, ev: Event)
    requires Owned(cfg, b) && Archived(b) && Fair(cfg, b)
    requires StampsKnown(b, evs) && ev.Chat? && ev.id !in b.ledger.records
    requires StampsOrdered(evs + [ev], true)
    ensures Fair(cfg, Enqueue(b, NewEntry(cfg, b, ev.id, ev.lane, ev.stamp)))
  {
    var e := NewEntry(cfg, b, ev.id, ev.lane, ev.stamp);
    var n := Enqueue(b, e);
    EnqueueTidy(cfg, b, evs, ev);
    NewEntryUnseen(cfg, b, ev);
    forall d | d in b.queue.deque ensures d.ticket < e.ticket {
      assert d.id in b.entries;
    }
    hide TimesPassedOver, TimesOvertaken, Count, Tidy, Archived, StampsKnown, Owned;
    forall d, f | d in n.queue.deque && f in n.queue.deque ensures CountsFall(n, d, f) {
      if d in b.queue.deque && f in b.queue.deque { assert CountsFall(b, d, f); }
    }
  }

  lemma FairStays(cfg: Config, b: State, n: State)
    requires Fair(cfg, b) && n.grants == b.grants && n.queue == b.queue && n.entries == b.entries && n.now >= b.now
    ensures Fair(cfg, n)
  {
    forall d, e | d in n.queue.deque && e in n.queue.deque ensures CountsFall(n, d, e) {
      assert CountsFall(b, d, e);
    }
  }

  lemma NextFair(cfg: Config, b: State, evs: seq<Event>, ev: Event)
    requires Owned(cfg, b) && Archived(b) && Fair(cfg, b) && StampsKnown(b, evs) && StampsOrdered(evs + [ev], true)
    requires forall g :: g in Next(cfg, b, ev).grants ==> AllEligible(g)
    ensures Fair(cfg, Next(cfg, b, ev))
  {
    hide PollStep, ChatStep, Enqueue, NewEntry, Archived, StampsKnown, Fair, StampsOrdered;
    match ev {
      case Poll(id, ready, env) =>
        if id in b.waiting && id in b.entries {
          var s := SettingOf(cfg, b, ready, env);
          PollLogs(cfg, s, b, id);
          if Grants(s, b, id) { assert GrantLog(s, b, id)[0] in Next(cfg, b, ev).grants; }
          PollFair(cfg, s, b, id);
        }
      case Chat(id, _, _, _, _, _, _, _) =>
        if id !in b.ledger.records {
          ChatFrame(cfg, b, ev);
          EnqueueFair(cfg, b, evs, ev);
          if Next(cfg, b, ev).queue == b.queue && Next(cfg, b, ev).entries == b.entries {
            FairStays(cfg, b, Next(cfg, b, ev));
          }
        }
      case _ => FairStays(cfg, b, Next(cfg, b, ev));
    }
  }

  lemma GrantsOnlyGrow(cfg: Config, b: State, ev: Event)
    requires Owned(cfg, b)
    ensures forall g :: g in b.grants ==> g in Next(cfg, b, ev).grants
  {
    hide PollStep, ChatStep;
    match ev {
      case Poll(id, ready, env) =>
        if id in b.waiting && id in b.entries { PollLogs(cfg, SettingOf(cfg, b, ready, env), b, id); }
      case Chat(id, _, _, _, _, _, _, _) => if id !in b.ledger.records { ChatFrame(cfg, b, ev); }
      case _ =>
    }
  }

  /**
  Bounded overtaking: with strictly increasing stamps, and no lane holding a live entry back, the bypass counts never
  rise from older to newer entries, never exceed the limit, and at most `maxBypass` later arrivals are granted before
  any request that is still within its deadline.
  */
  lemma {:induction false} BoundedOvertaking(cfg: Config, evs: seq<Event>)
    requires StampsOrdered(evs, true)
    requires forall g :: g in Exec(cfg, evs).grants ==> AllEligible(g)
    ensures Fair(cfg, Exec(cfg, evs))
    ensures forall x :: x in Exec(cfg, evs).entries ==>
      TimesOvertaken(Exec(cfg, evs).grants, Exec(cfg, evs).entries[x]) <= cfg.maxBypass
  {
    if evs != [] {
      var front, ev := evs[..|evs|-1], evs[|evs|-1];
      StampsOrderedPrefix(evs, true);
      AlwaysOwned(cfg, front);
      GrantsOnlyGrow(cfg, Exec(cfg, front), ev);
      BoundedOvertaking(cfg, front);
      AlwaysArchived(cfg, front);
      NextFair(cfg, Exec(cfg, front), front, ev);
    }
  }
}
