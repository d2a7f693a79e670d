/** Order over every run: under FIFO, grants within a lane follow arrival. */
module BrokerOrder {
  import opened Core
  import opened Runtime
  import opened RequestQueues
  import opened Broker
  import opened BrokerSafety
  import Scheduling

  // ---------------------------------------------------------------------------
  // Arrival tickets and time stamps
  // ---------------------------------------------------------------------------

  /** Wall-clock stamps of chat arrivals never go back along the run; strictly, if asked. */
  ghost predicate StampsOrdered(evs: seq<Event>, strictly: bool) {
    forall i, j :: 0 <= i < j < |evs| && evs[i].Chat? && evs[j].Chat? ==>
      evs[i].stamp < evs[j].stamp || (!strictly && evs[i].stamp == evs[j].stamp)
  }

  /** Tickets tell entries apart, and logged deques hold entries the broker knows. */
  ghost predicate Archived(b: State) {
    && (forall x, y :: x in b.entries && y in b.entries && b.entries[x].ticket == b.entries[y].ticket ==> x == y)
    && (forall g, e :: g in b.grants && e in g.deque ==> e.id in b.entries && b.entries[e.id] == e)
    && (forall g :: g in b.grants ==> g.entry in g.deque)
    && (forall g, e :: g in b.grants && e in g.eligible ==> e in g.deque)
  }

  /** Every stamp in the books was brought by an arrival of the run. */
  ghost predicate StampsKnown(b: State, evs: seq<Event>) {
    forall x :: x in b.entries ==> exists i :: 0 <= i < |evs| && evs[i].Chat? && evs[i].stamp == b.entries[x].enqueuedAt
  }

  /** Nothing was added and no order was lost. */
  ghost predicate Reduces(deque: seq<Entry>, less: seq<Entry>) {
    && (forall e :: e in less ==> e in deque)
    && (forall o :: Ordered(o, deque) ==> Ordered(o, less))
  }

  lemma RemoveReduces(q: QueueState, id: Id)
    requires DistinctIds(q.deque)
    ensures Reduces(q.deque, Remove(q, id).deque)
    ensures forall e :: e in Remove(q, id).deque ==> e.id != id
    ensures forall e :: e in q.deque && e.id != id ==> e in Remove(q, id).deque
  {
    WithoutExactly(q.deque, id);
    forall o | Ordered(o, q.deque) ensures Ordered(o, Without(q.deque, id)) {
      WithoutKeepsOrder(o, q.deque, id);
    }
  }

  lemma SelectReduces(cfg: Config, s: Setting, b: State, x: Id)
    requires Owned(cfg, b) && x in b.waiting && Selects(s, b, x)
    ensures Reduces(b.queue.deque, AfterSelect(s, b, x).queue.deque)
    ensures Grants(s, b, x) ==> Chosen(s, b.queue, b.ledger) !in AfterSelect(s, b, x).queue.deque
  {
    if Grants(s, b, x) {
      RemoveReduces(b.queue.(scheduler := Decided(s, b.queue, b.ledger)), Chosen(s, b.queue, b.ledger).id);
    }
  }

  lemma LeaveReduces(cfg: Config, b: State, x: Id, st: Status, log: seq<Return>)
    requires Owned(cfg, b)
    ensures Reduces(b.queue.deque, AfterLeave(b, x, st, log).queue.deque)
  {
    RemoveReduces(b.queue, x);
  }

  /** A poll changes the deque by removals only, and takes out what it granted. */
  lemma PollReduces(cfg: Config, s: Setting, b: State, x: Id)
    requires Owned(cfg, b) && x in b.waiting && x in b.entries && b.entries[x].id == x
    ensures Reduces(b.queue.deque, PollStep(s, b, x).queue.deque)
    ensures Grants(s, b, x) ==> Chosen(s, b.queue, b.ledger) !in PollStep(s, b, x).queue.deque
  {
    hide PollStep, AfterLeave, AfterSelect, Owned, Chosen, Grants;
    var lost, won := b.returned + [Return(x, false, b.now)], b.returned + [Return(x, true, b.now)];
    if Selects(s, b, x) {
      PollCases(s, b, x);
      SelectOwned(cfg, s, b, x);
      SelectReduces(cfg, s, b, x);
      LeaveReduces(cfg, AfterSelect(s, b, x), x, TimedOut, lost);
    } else {
      NoGrantUnlessSelects(s, b, x);
      PollOtherCases(s, b, x);
      LeaveReduces(cfg, b, x, TimedOut, lost);
      LeaveReduces(cfg, b, x, Cancelled, lost);
    }
  }

  lemma NoGrantUnlessSelects(s: Setting, b: State, x: Id)
    ensures Grants(s, b, x) ==> Selects(s, b, x)
  {}

  lemma {:induction false} AlwaysArchived(cfg: Config, evs: seq<Event>)
    ensures Archived(Exec(cfg, evs)) && StampsKnown(Exec(cfg, evs), evs)
  {
    if evs != [] {
      var front, ev := evs[..|evs|-1], evs[|evs|-1];
      var b := Exec(cfg, front);
      AlwaysArchived(cfg, front);
      AlwaysOwned(cfg, front);
      NextArchived(cfg, b, front, ev);
      assert evs == front + [ev];
    }
  }

  lemma StampsKnownLonger(b: State, evs: seq<Event>, ev: Event)
    requires StampsKnown(b, evs)
    ensures StampsKnown(b, evs + [ev])
  {
    var all := evs + [ev];
    forall x | x in b.entries
      ensures exists i :: 0 <= i < |all| && all[i].Chat? && all[i].stamp == b.entries[x].enqueuedAt
    {
      var i :| 0 <= i < |evs| && evs[i].Chat? && evs[i].stamp == b.entries[x].enqueuedAt;
      assert all[i] == evs[i];
    }
  }

  lemma EnqueueArchived(cfg: Config, b: State, evs: seq<Event>, ev: Event)
    requires Owned(cfg, b) && Archived(b) && StampsKnown(b, evs) && ev.Chat? && ev.id !in b.ledger.records
    ensures var n := Enqueue(b, NewEntry(cfg, b, ev.id, ev.lane, ev.stamp)); Archived(n) && StampsKnown(n, evs + [ev])
  {
    StampsKnownLonger(b, evs, ev);
    assert (evs + [ev])[|evs|] == ev;
  }

  lemma ArchiveFrame(b: State, n: State, evs: seq<Event>)
    requires Archived(b) && StampsKnown(b, evs)
    ensures n.entries == b.entries && n.grants == b.grants ==> Archived(n)
    ensures n.entries == b.entries ==> StampsKnown(n, evs)
  {}

  lemma NextArchived(cfg: Config, b: State, evs: seq<Event>, ev: Event)
    requires Owned(cfg, b) && Archived(b) && StampsKnown(b, evs)
    ensures Archived(Next(cfg, b, ev)) && StampsKnown(Next(cfg, b, ev), evs + [ev])
  {
    hide *;
    StampsKnownLonger(b, evs, ev);
    if ev.Chat? {
      ChatArchived(cfg, b, evs, ev);
    } else {
      EntriesKept(cfg, b, ev);
      ArchiveFrame(b, Next(cfg, b, ev), evs + [ev]);
    }
  }

  /** Only an arrival changes the entries, and only a poll the grants. */
  lemma EntriesKept(cfg: Config, b: State, ev: Event)
    requires Owned(cfg, b) && Archived(b) && !ev.Chat?
    ensures Next(cfg, b, ev).entries == b.entries
    ensures Next(cfg, b, ev).grants == b.grants || Archived(Next(cfg, b, ev))
  {
    hide PollStep, Owned, Archived, ChatStep;
    if ev.Poll? && ev.id in b.waiting && ev.id in b.entries {
      PollArchived(cfg, SettingOf(cfg, b, ev.ready, ev.env), b, ev.id);
    }
  }

  lemma ChatArchived(cfg: Config, b: State, evs: seq<Event>, ev: Event)
    requires Owned(cfg, b) && Archived(b) && StampsKnown(b, evs) && StampsKnown(b, evs + [ev]) && ev.Chat?
    ensures Archived(Next(cfg, b, ev)) && StampsKnown(Next(cfg, b, ev), evs + [ev])
  {
    hide ChatStep, Owned, Enqueue, NewEntry, Archived, StampsKnown;
    ArchiveFrame(b, Next(cfg, b, ev), evs + [ev]);
    if ev.id !in b.ledger.records {
      ChatFrame(cfg, b, ev);
      EnqueueArchived(cfg, b, evs, ev);
    }
  }

  lemma PollArchived(cfg: Config, s: Setting, b: State, x: Id)
    requires Owned(cfg, b) && Archived(b) && x in b.waiting && x in b.entries && s.now == b.now
    ensures Archived(PollStep(s, b, x)) && PollStep(s, b, x).entries == b.entries
  {
    PollLogs(cfg, s, b, x);
    if Grants(s, b, x) {
      ChosenIsQueued(s, b.queue, b.ledger);
      var g := GrantLog(s, b, x)[0];
      forall e | e in g.eligible ensures e in b.queue.deque {
        EligibleExactly(s, b.ledger, b.queue.deque, e);
      }
      hide PollStep, Chosen, Grants, GlobalRoom, LaneRoom, Legal, ViewOf;
      ArchiveExtends(b, PollStep(s, b, x), g);
    } else {
      assert b.grants + [] == b.grants;
    }
  }

  lemma ArchiveExtends(b: State, n: State, g: Grant)
    requires Archived(b) && n.entries == b.entries && n.grants == b.grants + [g] && g.deque == b.queue.deque
    requires g.entry in g.deque && (forall e :: e in g.eligible ==> e in g.deque)
    requires forall e :: e in b.queue.deque ==> e.id in b.entries && b.entries[e.id] == e
    ensures Archived(n)
  {}

  // ---------------------------------------------------------------------------
  // First in, first out, lane by lane
  // ---------------------------------------------------------------------------

  /** With stamps in queue order the oldest candidate is the front-most one. */
  lemma OldestIsFront(s: Setting, es: seq<Entry>)
    requires es != [] && Ordered(ByStamp, es)
    ensures Scheduling.OldestIndex(Candidates(s, es)) == 0
  {
    var cs := Candidates(s, es);
    var r := Scheduling.OldestIndex(cs);
    assert cs[0] == CandidateOf(s, es[0]) && cs[r] == CandidateOf(s, es[r]);
    assert r > 0 ==> Before(ByStamp, es[0], es[r]);
  }

  /** Under FIFO a grant passes over an older entry only if that entry is expired or its own lane is saturated. */
  lemma FifoOvertakesOnly(cfg: Config, s: Setting, b: State, x: Id, e: Entry)
    requires Owned(cfg, b) && Ordered(ByStamp, b.queue.deque) && s.policy == Scheduling.Fifo && Grants(s, b, x)
    requires e in b.queue.deque && e.ticket < Chosen(s, b.queue, b.ledger).ticket
    ensures Expired(s.now, e) || !LaneRoom(s, b.ledger, e)
  {
    var es := Eligible(s, b.ledger, b.queue.deque);
    EligibleKeepsOrder(ByStamp, s, b.ledger, b.queue.deque);
    EligibleKeepsOrder(ByTicket, s, b.ledger, b.queue.deque);
    OldestIsFront(s, es);
    EligibleExactly(s, b.ledger, b.queue.deque, e);
    forall i | 0 <= i < |es| ensures es[0].ticket <= es[i].ticket {
      assert i > 0 ==> Before(ByTicket, es[0], es[i]);
    }
  }

  /** Lane mates share a ceiling, so a live older lane mate would have been eligible too. */
  lemma FifoWithinLane(cfg: Config, s: Setting, b: State, x: Id, e: Entry)
    requires Owned(cfg, b) && Ordered(ByStamp, b.queue.deque) && s.policy == Scheduling.Fifo && Grants(s, b, x)
    requires e in b.queue.deque && e.ticket < Chosen(s, b.queue, b.ledger).ticket
    requires e.lane == Chosen(s, b.queue, b.ledger).lane
    ensures Expired(s.now, e)
  {
    FifoOvertakesOnly(cfg, s, b, x, e);
    ChosenIsQueued(s, b.queue, b.ledger);
    assert b.entries[e.id] == e && b.entries[Chosen(s, b.queue, b.ledger).id] == Chosen(s, b.queue, b.ledger);
  }

  ghost predicate FifoSoFar(b: State) {
    && Ordered(ByStamp, b.queue.deque)
    && (forall i, j :: 0 <= i < j < |b.grants| && b.grants[i].entry.lane == b.grants[j].entry.lane ==>
          b.grants[i].entry.ticket < b.grants[j].entry.ticket)
    && (forall g, e :: g in b.grants && e in b.queue.deque && e.lane == g.entry.lane && e.ticket < g.entry.ticket ==>
          Expired(b.now, e))
  }

  lemma FifoGrant(cfg: Config, s: Setting, b: State, x: Id)
    requires Owned(cfg, b) && GrantsLogged(b) && Archived(b) && FifoSoFar(b) && s.policy == Scheduling.Fifo
    requires Grants(s, b, x) && s.now == b.now
    ensures var e := Chosen(s, b.queue, b.ledger);
      && (forall g :: g in b.grants && g.entry.lane == e.lane ==> g.entry.ticket < e.ticket)
      && (forall d :: d in b.queue.deque && d.lane == e.lane && d.ticket < e.ticket ==> Expired(b.now, d))
  {
    var e := Chosen(s, b.queue, b.ledger);
    assert Ordered(ByStamp, b.queue.deque) by { hide Owned, Archived, GrantsLogged, Grants; }
    forall d | d in b.queue.deque && d.lane == e.lane && d.ticket < e.ticket ensures Expired(b.now, d) {
      FifoWithinLane(cfg, s, b, x, d);
    }
    GrantIsNew(cfg, s, b, x);
    hide Owned, Chosen, Grants, GrantLog;
    FifoLatest(b, e);
  }

  /** Grants to the lane of a live queued entry all went to earlier arrivals. */
  lemma FifoLatest(b: State, e: Entry)
    requires GrantsLogged(b) && Archived(b) && FifoSoFar(b)
    requires e in b.queue.deque && e.id in b.entries && b.entries[e.id] == e
    requires e.id !in b.queue.granted && !Expired(b.now, e)
    ensures forall g :: g in b.grants && g.entry.lane == e.lane ==> g.entry.ticket < e.ticket
  {
    forall g | g in b.grants && g.entry.lane == e.lane ensures g.entry.ticket < e.ticket {
      var i :| 0 <= i < |b.grants| && b.grants[i] == g;
      assert g.entry.id in b.queue.granted && b.entries[g.entry.id] == g.entry;
      assert g.entry.ticket != e.ticket;
    }
  }

  lemma PollFifo(cfg: Config, s: Setting, b: State, x: Id)
    requires Owned(cfg, b) && GrantsLogged(b) && Archived(b) && FifoSoFar(b) && s.policy == Scheduling.Fifo
    requires x in b.waiting && x in b.entries && s.now == b.now
    ensures FifoSoFar(PollStep(s, b, x))
  {
    PollLogs(cfg, s, b, x);
    PollReduces(cfg, s, b, x);
    GrantIsNew(cfg, s, b, x);
    if Grants(s, b, x) {
      FifoGrant(cfg, s, b, x);
      FifoExtends(b, PollStep(s, b, x), GrantLog(s, b, x)[0]);
    } else {
      FifoShrinks(b, PollStep(s, b, x));
    }
  }

  lemma FifoShrinks(b: State, n: State)
    requires FifoSoFar(b) && Reduces(b.queue.deque, n.queue.deque) && n.now == b.now && n.grants == b.grants + []
    ensures FifoSoFar(n)
  {}

  lemma FifoExtends(b: State, n: State, g: Grant)
    requires FifoSoFar(b) && Reduces(b.queue.deque, n.queue.deque) && n.now == b.now && n.grants == b.grants + [g]
    requires forall h :: h in b.grants && h.entry.lane == g.entry.lane ==> h.entry.ticket < g.entry.ticket
    requires forall d :: d in b.queue.deque && d.lane == g.entry.lane && d.ticket < g.entry.ticket ==> Expired(b.now, d)
    ensures FifoSoFar(n)
  {
    forall i, j | 0 <= i < j < |n.grants| && n.grants[i].entry.lane == n.grants[j].entry.lane
      ensures n.grants[i].entry.ticket < n.grants[j].entry.ticket
    {
      assert b.grants[i] in b.grants;
    }
  }

  lemma EnqueueFifo(cfg: Config, b: State, evs: seq<Event>, ev: Event)
    requires Owned(cfg, b) && StampsKnown(b, evs) && Archived(b) && FifoSoFar(b) && GrantsLogged(b)
    requires ev.Chat? && ev.id !in b.ledger.records
    requires StampsOrdered(evs + [ev], false)
    ensures FifoSoFar(Enqueue(b, NewEntry(cfg, b, ev.id, ev.lane, ev.stamp)))
  {
    var e := NewEntry(cfg, b, ev.id, ev.lane, ev.stamp);
    forall d | d in b.queue.deque ensures d.enqueuedAt <= e.enqueuedAt {
      NewestStamp(cfg, b, evs, ev, d.id, false);
    }
    forall g | g in b.grants ensures g.entry.ticket < e.ticket {
      var i :| 0 <= i < |b.grants| && b.grants[i] == g;
      assert g.entry.id in b.entries;
    }
  }

  lemma NewestStamp(cfg: Config, b: State, evs: seq<Event>, ev: Event, x: Id, strictly: bool)
    requires StampsKnown(b, evs) && ev.Chat? && x in b.entries && StampsOrdered(evs + [ev], strictly)
    ensures b.entries[x].enqueuedAt < ev.stamp || (!strictly && b.entries[x].enqueuedAt == ev.stamp)
  {
    var i :| 0 <= i < |evs| && evs[i].Chat? && evs[i].stamp == b.entries[x].enqueuedAt;
    assert (evs + [ev])[i] == evs[i] && (evs + [ev])[|evs|] == ev;
  }

  lemma FifoFrame(b: State, n: State)
    requires FifoSoFar(b) && n.grants == b.grants && n.queue.deque == b.queue.deque && n.now >= b.now
    ensures FifoSoFar(n)
  {}

  lemma NextFifo(cfg: Config, b: State, evs: seq<Event>, ev: Event)
    requires Owned(cfg, b) && GrantsLogged(b) && Archived(b) && FifoSoFar(b) && StampsKnown(b, evs)
    requires cfg.policy == Scheduling.Fifo && StampsOrdered(evs + [ev], false)
    ensures FifoSoFar(Next(cfg, b, ev))
  {
    hide PollStep, ChatStep, Owned, Enqueue, NewEntry, Archived, StampsKnown, FifoSoFar, GrantsLogged, StampsOrdered;
    match ev {
      case Poll(id, ready, env) =>
        if id in b.waiting && id in b.entries { PollFifo(cfg, SettingOf(cfg, b, ready, env), b, id); }
      case Chat(id, _, _, _, _, _, _, _) =>
        if id !in b.ledger.records {
          ChatFrame(cfg, b, ev);
          EnqueueFifo(cfg, b, evs, ev);
          if Next(cfg, b, ev).queue == b.queue { FifoFrame(b, Next(cfg, b, ev)); }
        }
      case _ => FifoFrame(b, Next(cfg, b, ev));
    }
  }

  lemma {:induction false} AlwaysFifo(cfg: Config, evs: seq<Event>)
    requires cfg.policy == Scheduling.Fifo && StampsOrdered(evs, false)
    ensures FifoSoFar(Exec(cfg, evs))
  {
    if evs != [] {
      var front, ev := evs[..|evs|-1], evs[|evs|-1];
      assert evs == front + [ev];
      assert StampsOrdered(front, false) by { assert forall i :: 0 <= i < |front| ==> front[i] == evs[i]; }
      AlwaysFifo(cfg, front);
      AlwaysOwned(cfg, front);
      AlwaysLogged(cfg, front);
      AlwaysArchived(cfg, front);
      NextFifo(cfg, Exec(cfg, front), front, ev);
    }
  }

  /** Under FIFO, with wall-clock stamps that never go back, grants within one lane follow the order of arrival. */
  lemma PerLaneFifo(cfg: Config, evs: seq<Event>, i: nat, j: nat)
    requires cfg.policy == Scheduling.Fifo && StampsOrdered(evs, false)
    requires i < j < |Exec(cfg, evs).grants|
    requires Exec(cfg, evs).grants[i].entry.lane == Exec(cfg, evs).grants[j].entry.lane
    ensures Exec(cfg, evs).grants[i].entry.ticket < Exec(cfg, evs).grants[j].entry.ticket
  {
    AlwaysFifo(cfg, evs);
  }
}
