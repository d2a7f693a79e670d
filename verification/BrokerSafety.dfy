/** What every run of the broker guarantees: execution ownership, deadlines and capacity. */
module BrokerSafety {
  import opened Core
  import opened Runtime
  import opened RequestQueues
  import opened Broker
  import Capacity

  // ---------------------------------------------------------------------------
  // Execution ownership
  // ---------------------------------------------------------------------------

  /**
  Every waiting caller's entry is in the deque or granted, never both and never neither; every entry in the deque
  has a waiting caller; every reservation belongs to a caller still waiting or about to start; and no slot is
  counted twice.
  */
  lemma ExecutionOwnership(cfg: Config, evs: seq<Event>, id: Id)
    ensures var b := Exec(cfg, evs);
      && (id in b.waiting ==> (Holds(b.queue.deque, id) <==> id !in b.queue.granted))
      && (Holds(b.queue.deque, id) ==> id in b.waiting)
      && (id in b.ledger.reservations ==> id in b.queue.granted && (id in b.waiting || id in b.claimed))
      && (id in b.claimed ==>
            id in b.ledger.records && (id in b.ledger.reservations <==> b.ledger.records[id].status == Queued))
      && b.ledger.NoDoubleCount()
  {
    AlwaysOwned(cfg, evs);
    var b := Exec(cfg, evs);
    assert Legal(ViewOf(b, id));
    OwnedCountsOnce(cfg, b);
  }

  lemma OwnedCountsOnce(cfg: Config, b: State)
    requires Owned(cfg, b)
    ensures b.ledger.NoDoubleCount()
  {
    forall x | x in b.ledger.ActiveRecords() ensures x !in b.ledger.reservations {
      assert Legal(ViewOf(b, x));
    }
  }

  /** An entry that has left the deque, a caller that has returned and a grant that was made are never undone. */
  lemma LeavesForGood(cfg: Config, b: State, ev: Event, id: Id)
    requires Owned(cfg, b) && id in b.entries
    ensures var n := Next(cfg, b, ev);
      && id in n.entries && n.entries[id] == b.entries[id]
      && (Holds(n.queue.deque, id) ==> Holds(b.queue.deque, id))
      && (id in n.waiting ==> id in b.waiting)
      && (id in b.queue.granted ==> id in n.queue.granted)
  {
    hide PollStep, Capacity.EvaluateChat, ContextOf, Legal, ViewOf;
    match ev {
      case Chat(x, lane, stamp, _, _, _, _, _) => HoldsAfterAppend(b.queue.deque, NewEntry(cfg, b, x, lane, stamp));
      case Poll(x, ready, env) =>
        if x in b.waiting && x in b.entries {
          PollKeepsOut(cfg, SettingOf(cfg, b, ready, env), b, x, id);
        }
      case _ =>
    }
  }

  lemma SelectKeepsOut(cfg: Config, s: Setting, b: State, x: Id, id: Id)
    requires Owned(cfg, b) && x in b.waiting && Selects(s, b, x)
    ensures var g := AfterSelect(s, b, x);
      (Holds(g.queue.deque, id) ==> Holds(b.queue.deque, id)) && (id in b.queue.granted ==> id in g.queue.granted)
  {
    if Grants(s, b, x) {
      HoldsAfterRemoval(b.queue.deque, Chosen(s, b.queue, b.ledger).id);
    }
  }

  lemma SelectFrame(s: Setting, b: State, x: Id)
    ensures var g := AfterSelect(s, b, x);
      && g.entries == b.entries && g.waiting == b.waiting && g.claimed == b.claimed && g.returned == b.returned
      && g.now == b.now && g.arrivals == b.arrivals && g.tokens == b.tokens
      && (Selects(s, b, x) ==> g.grants == b.grants + GrantLog(s, b, x))
      && (Selects(s, b, x) && !Grants(s, b, x) ==> g.queue.granted == b.queue.granted)
      && (Grants(s, b, x) ==> g.queue.granted == b.queue.granted + {Chosen(s, b.queue, b.ledger).id})
  {
    assert !Grants(s, b, x) ==> b.grants + GrantLog(s, b, x) == b.grants;
  }

  lemma PollKeepsOut(cfg: Config, s: Setting, b: State, x: Id, id: Id)
    requires Owned(cfg, b) && x in b.waiting && x in b.entries
    ensures var n := PollStep(s, b, x);
      && n.entries == b.entries && n.waiting <= b.waiting
      && (Holds(n.queue.deque, id) ==> Holds(b.queue.deque, id)) && (id in b.queue.granted ==> id in n.queue.granted)
  {
    hide PollStep, GlobalRoom, Grants, Chosen, Legal, ViewOf;
    if Selects(s, b, x) {
      PollCases(s, b, x);
      SelectOwned(cfg, s, b, x);
      SelectKeepsOut(cfg, s, b, x, id);
      var g := AfterSelect(s, b, x);
      HoldsAfterRemoval(g.queue.deque, x);
      SelectFrame(s, b, x);
    } else {
      PollOtherCases(s, b, x);
      HoldsAfterRemoval(b.queue.deque, x);
    }
  }

  // ---------------------------------------------------------------------------
  // The logs of grants and returns
  // ---------------------------------------------------------------------------

  ghost predicate ReturnsLogged(b: State) {
    && (forall i, j :: 0 <= i < j < |b.returned| ==> b.returned[i].id != b.returned[j].id)
    && (forall i :: 0 <= i < |b.returned| ==>
          var r := b.returned[i];
          && r.id in b.entries && r.id !in b.waiting
          && (r.ok ==> r.id in b.queue.granted && r.at < b.entries[r.id].deadline))
  }

  ghost predicate GrantsLogged(b: State) {
    && (forall i, j :: 0 <= i < j < |b.grants| ==> b.grants[i].entry.id != b.grants[j].entry.id)
    && (forall i :: 0 <= i < |b.grants| ==>
          var g := b.grants[i];
          && g.entry.id in b.entries && b.entries[g.entry.id] == g.entry && g.entry.id in b.queue.granted
          && g.at < g.entry.deadline && g.at <= b.now)
  }

  /** What one poll adds to the logs. */
  lemma PollLogs(cfg: Config, s: Setting, b: State, x: Id)
    requires Owned(cfg, b) && x in b.waiting && x in b.entries && s.now == b.now
    ensures var n := PollStep(s, b, x);
      && n.entries == b.entries && n.now == b.now && n.arrivals == b.arrivals
      && n.grants == b.grants + GrantLog(s, b, x)
      && n.queue.granted == b.queue.granted + (if Grants(s, b, x) then {Chosen(s, b.queue, b.ledger).id} else {})
      && (x in n.waiting ==> n.returned == b.returned && n.waiting == b.waiting)
      && (x !in n.waiting ==> n.waiting == b.waiting - {x})
      && (x !in n.waiting && n.returned != b.returned + [Return(x, false, b.now)] ==>
            n.returned == b.returned + [Return(x, true, b.now)] && x in n.queue.granted && x in n.claimed)
      && (Expired(b.now, b.entries[x]) ==> n.returned == b.returned + [Return(x, false, b.now)])
  {
    if Selects(s, b, x) {
      SelectLogs(cfg, s, b, x);
    } else {
      PollOtherCases(s, b, x);
      assert b.grants + GrantLog(s, b, x) == b.grants;
      hide PollStep, PollOnce;
    }
  }

  lemma SelectLogs(cfg: Config, s: Setting, b: State, x: Id)
    requires Owned(cfg, b) && x in b.waiting && x in b.entries && s.now == b.now && Selects(s, b, x)
    ensures var n := PollStep(s, b, x);
      && n.entries == b.entries && n.now == b.now && n.arrivals == b.arrivals
      && n.grants == b.grants + GrantLog(s, b, x)
      && n.queue.granted == b.queue.granted + (if Grants(s, b, x) then {Chosen(s, b.queue, b.ledger).id} else {})
      && (x in n.waiting ==> n.returned == b.returned && n.waiting == b.waiting)
      && (x !in n.waiting ==> n.waiting == b.waiting - {x})
      && (x !in n.waiting && n.returned != b.returned + [Return(x, false, b.now)] ==>
            n.returned == b.returned + [Return(x, true, b.now)] && x in n.queue.granted && x in n.claimed)
      && (Expired(b.now, b.entries[x]) ==> n.returned == b.returned + [Return(x, false, b.now)])
  {
    hide *;
    SelectorKnown(cfg, s, b, x);
    PollCases(s, b, x);
    SelectFrame(s, b, x);
    var g := AfterSelect(s, b, x);
    ClaimFrame(g, x, b.returned + [Return(x, true, b.now)]);
    LeaveFrame(g, x, TimedOut, b.returned + [Return(x, false, b.now)]);
    if Grants(s, b, x) {
      ChosenKnown(cfg, s, b, x);
    }
  }

  lemma SelectorKnown(cfg: Config, s: Setting, b: State, x: Id)
    requires Owned(cfg, b) && x in b.entries && Selects(s, b, x)
    ensures b.entries[x].id == x && x !in b.queue.granted + b.tokens
  {
    hide GlobalRoom;
  }

  lemma ClaimFrame(g: State, x: Id, log: seq<Return>)
    ensures var n := AfterClaim(g, x, log);
      && n.entries == g.entries && n.now == g.now && n.arrivals == g.arrivals
      && n.grants == g.grants && n.queue == g.queue
      && n.waiting == g.waiting - {x} && n.returned == log && x in n.claimed
  {}

  lemma LeaveFrame(g: State, x: Id, st: Status, log: seq<Return>)
    ensures var n := AfterLeave(g, x, st, log);
      && n.entries == g.entries && n.now == g.now && n.arrivals == g.arrivals && n.grants == g.grants
      && n.queue.granted == g.queue.granted && n.waiting == g.waiting - {x} && n.returned == log
  {}

  /** The chosen entry is the one on record, and it is live. */
  lemma ChosenKnown(cfg: Config, s: Setting, b: State, x: Id)
    requires Owned(cfg, b) && Grants(s, b, x)
    ensures var e := Chosen(s, b.queue, b.ledger); e.id in b.entries && b.entries[e.id] == e && !Expired(s.now, e)
  {
    ChosenIsQueued(s, b.queue, b.ledger);
    hide Chosen, Eligible;
  }

  lemma PollKeepsLogs(cfg: Config, s: Setting, b: State, x: Id)
    requires Owned(cfg, b) && ReturnsLogged(b) && GrantsLogged(b) && x in b.waiting && x in b.entries && s.now == b.now
    ensures ReturnsLogged(PollStep(s, b, x)) && GrantsLogged(PollStep(s, b, x))
  {
    hide PollStep, Chosen, Grants, GlobalRoom, LaneRoom, Legal, ViewOf, Owned, Eligible;
    PollLogs(cfg, s, b, x);
    GrantIsNew(cfg, s, b, x);
  }

  /** A poll grants an entry that was queued, so it was not granted before. */
  lemma GrantIsNew(cfg: Config, s: Setting, b: State, x: Id)
    requires Owned(cfg, b)
    ensures Grants(s, b, x) ==>
      var e := Chosen(s, b.queue, b.ledger);
      e in b.queue.deque && e.id in b.entries && b.entries[e.id] == e && e.id !in b.queue.granted && !Expired(s.now, e)
    ensures |GrantLog(s, b, x)| <= 1 && (GrantLog(s, b, x) != [] <==> Grants(s, b, x))
    ensures Grants(s, b, x) ==>
      GrantLog(s, b, x)[0].entry == Chosen(s, b.queue, b.ledger) && GrantLog(s, b, x)[0].at == b.now
  {
    if Grants(s, b, x) {
      var e := Chosen(s, b.queue, b.ledger);
      ChosenIsQueued(s, b.queue, b.ledger);
      assert Holds(b.queue.deque, e.id);
      assert Legal(ViewOf(b, e.id));
    }
  }

  lemma LogsFrame(b: State, n: State)
    requires ReturnsLogged(b) && GrantsLogged(b)
    requires n.grants == b.grants && n.returned == b.returned && n.now >= b.now && n.queue.granted == b.queue.granted
    requires forall id :: id in b.entries ==> id in n.entries && n.entries[id] == b.entries[id]
    requires forall id :: id in n.waiting && id in b.entries ==> id in b.waiting
    ensures ReturnsLogged(n) && GrantsLogged(n)
  {}

  lemma ChatFrame(cfg: Config, b: State, ev: Event)
    requires Owned(cfg, b) && ev.Chat? && ev.id !in b.ledger.records
    ensures var n := ChatStep(cfg, b, ev);
      && n.grants == b.grants && n.returned == b.returned && n.now == b.now && n.queue.granted == b.queue.granted
      && n.queue.scheduler == b.queue.scheduler && ev.id !in b.entries
      && ((n.entries == b.entries && n.queue == b.queue && n.waiting == b.waiting && n.arrivals == b.arrivals)
          || n == Enqueue(b, NewEntry(cfg, b, ev.id, ev.lane, ev.stamp)))
  {
    hide Capacity.EvaluateChat, ContextOf;
  }

  lemma NextLogged(cfg: Config, b: State, ev: Event)
    requires Owned(cfg, b) && ReturnsLogged(b) && GrantsLogged(b)
    ensures ReturnsLogged(Next(cfg, b, ev)) && GrantsLogged(Next(cfg, b, ev))
  {
    hide PollStep, ChatStep, ReturnsLogged, GrantsLogged, Owned;
    match ev {
      case Poll(id, ready, env) =>
        if id in b.waiting && id in b.entries {
          PollKeepsLogs(cfg, SettingOf(cfg, b, ready, env), b, id);
        }
      case Chat(id, _, _, _, _, _, _, _) =>
        if id !in b.ledger.records {
          ChatFrame(cfg, b, ev);
          LogsFrame(b, Next(cfg, b, ev));
        }
      case _ => LogsFrame(b, Next(cfg, b, ev));
    }
  }

  lemma {:induction false} AlwaysLogged(cfg: Config, evs: seq<Event>)
    ensures ReturnsLogged(Exec(cfg, evs)) && GrantsLogged(Exec(cfg, evs))
  {
    if evs != [] {
      AlwaysLogged(cfg, evs[..|evs|-1]);
      AlwaysOwned(cfg, evs[..|evs|-1]);
      NextLogged(cfg, Exec(cfg, evs[..|evs|-1]), evs[|evs|-1]);
    }
  }

  /**
  Over every run: no entry is granted and no caller is released at or after that entry's own deadline, whichever
  caller made the selection; nobody is granted twice, and nobody returns twice; a released caller was granted.
  */
  lemma DeadlineDiscipline(cfg: Config, evs: seq<Event>, i: nat)
    ensures var b := Exec(cfg, evs);
      && (i < |b.grants| ==> b.grants[i].at < b.grants[i].entry.deadline && b.grants[i].entry.id in b.queue.granted)
      && (i < |b.returned| ==> b.returned[i].id in b.entries && b.returned[i].id !in b.waiting
                               && !Holds(b.queue.deque, b.returned[i].id))
      && (i < |b.returned| && b.returned[i].ok ==>
            b.returned[i].at < b.entries[b.returned[i].id].deadline && b.returned[i].id in b.queue.granted)
      && (forall j :: 0 <= j < i < |b.grants| ==> b.grants[j].entry.id != b.grants[i].entry.id)
      && (forall j :: 0 <= j < i < |b.returned| ==> b.returned[j].id != b.returned[i].id)
  {
    AlwaysOwned(cfg, evs);
    AlwaysLogged(cfg, evs);
    var b := Exec(cfg, evs);
    if i < |b.returned| {
      assert Legal(ViewOf(b, b.returned[i].id));
    }
  }

  /** A poll that begins at or after its caller's deadline returns False in that very poll. */
  lemma PollPastDeadline(cfg: Config, evs: seq<Event>, id: Id, ready: set<Id>, env: Env)
    requires var b := Exec(cfg, evs); id in b.waiting && id in b.entries && b.now >= b.entries[id].deadline
    ensures var b := Exec(cfg, evs);
            var n := Next(cfg, b, Poll(id, ready, env));
      n.returned == b.returned + [Return(id, false, b.now)] && id !in n.waiting && id !in n.claimed
      && !Holds(n.queue.deque, id)
  {
    var b := Exec(cfg, evs);
    AlwaysOwned(cfg, evs);
    PollLogs(cfg, SettingOf(cfg, b, ready, env), b, id);
    NextOwned(cfg, b, Poll(id, ready, env));
    var n := Next(cfg, b, Poll(id, ready, env));
    assert Legal(ViewOf(b, id)) && Legal(ViewOf(n, id));
    assert n.returned != b.returned;
    if Selects(SettingOf(cfg, b, ready, env), b, id) {
      PollCases(SettingOf(cfg, b, ready, env), b, id);
    } else {
      PollOtherCases(SettingOf(cfg, b, ready, env), b, id);
    }
  }

  // ---------------------------------------------------------------------------
  // Capacity safety
  // ---------------------------------------------------------------------------

  ghost predicate WithinLimits(cfg: Config, b: State, bound: nat) {
    && |b.ledger.Occupied()| <= bound
    && forall lane :: LaneMax(cfg, lane).Some? ==>
        |b.ledger.OccupiedIn(lane)| <= Capacity.Max(LaneMax(cfg, lane).value, 1)
  }

  /** Every effective limit the controller uses along the run is at most `bound`. */
  ghost predicate LimitsWithin(cfg: Config, evs: seq<Event>, bound: nat) {
    forall i :: 0 <= i < |evs| && (evs[i].Chat? || evs[i].Generate? || evs[i].Poll?) ==>
      LimitOf(cfg, evs[i].env) <= bound
  }

  /** A slot is occupied in the lane of its record. */
  lemma OccupiedLane(cfg: Config, b: State, lane: Lane, x: Id)
    requires Owned(cfg, b)
    ensures x in b.ledger.OccupiedIn(lane) <==>
      x in b.ledger.Occupied() && x in b.ledger.records && b.ledger.records[x].lane == lane
  {}

  lemma SlotsShrink(cfg: Config, b: State, n: State, bound: nat)
    requires Owned(cfg, b) && Owned(cfg, n) && WithinLimits(cfg, b, bound)
    requires n.ledger.Occupied() <= b.ledger.Occupied()
    requires KeepsLanes(b.ledger, n.ledger)
    ensures WithinLimits(cfg, n, bound)
  {
    SubsetSize(n.ledger.Occupied(), b.ledger.Occupied());
    forall lane | LaneMax(cfg, lane).Some?
      ensures |n.ledger.OccupiedIn(lane)| <= Capacity.Max(LaneMax(cfg, lane).value, 1)
    {
      forall x | x in n.ledger.OccupiedIn(lane) ensures x in b.ledger.OccupiedIn(lane) {
        OccupiedLane(cfg, n, lane, x);
        OccupiedLane(cfg, b, lane, x);
        assert Legal(ViewOf(b, x));
      }
      SubsetSize(n.ledger.OccupiedIn(lane), b.ledger.OccupiedIn(lane));
    }
  }

  /** One more slot is taken in a lane that has room, while the total has room. */
  lemma SlotsGrow(cfg: Config, b: State, n: State, bound: nat, id: Id, lane: Lane)
    requires Owned(cfg, b) && Owned(cfg, n) && WithinLimits(cfg, b, bound)
    requires n.ledger.Occupied() <= b.ledger.Occupied() + {id}
    requires KeepsLanes(b.ledger, n.ledger)
    requires id in n.ledger.records && n.ledger.records[id].lane == lane
    requires b.ledger.ActiveJobs() < bound
    requires LaneMax(cfg, lane).Some? ==> b.ledger.ActiveJobsFor(lane) < Capacity.Max(LaneMax(cfg, lane).value, 1)
    ensures WithinLimits(cfg, n, bound)
  {
    OwnedCountsOnce(cfg, b);
    OccupiedCounts(b.ledger, lane);
    SubsetSize(n.ledger.Occupied(), b.ledger.Occupied() + {id});
    forall l | LaneMax(cfg, l).Some?
      ensures |n.ledger.OccupiedIn(l)| <= Capacity.Max(LaneMax(cfg, l).value, 1)
    {
      var old' := b.ledger.OccupiedIn(l) + if l == lane then {id} else {};
      forall x | x in n.ledger.OccupiedIn(l) ensures x in old' {
        OccupiedLane(cfg, n, l, x);
        OccupiedLane(cfg, b, l, x);
        assert Legal(ViewOf(b, x));
      }
      SubsetSize(n.ledger.OccupiedIn(l), old');
    }
  }

  lemma AdmitWithin(cfg: Config, b: State, bound: nat, id: Id, lane: Lane, st: Status)
    requires Owned(cfg, b) && WithinLimits(cfg, b, bound)
    requires id !in b.ledger.records && (st == Running || st == Streaming)
    requires b.ledger.ActiveJobs() < bound
    requires LaneMax(cfg, lane).Some? ==> b.ledger.ActiveJobsFor(lane) < Capacity.Max(LaneMax(cfg, lane).value, 1)
    ensures WithinLimits(cfg, AdmitNow(b, id, lane, st), bound)
  {
    hide Owned, WithinLimits, LaneMax, KeepsLanes, Ledger.ActiveJobs, Ledger.ActiveJobsFor, Ledger.Occupied;
    AdmitOwned(cfg, b, id, lane, st);
    AdmittingTakesSlot(b.ledger, id, lane, st);
    SlotsGrow(cfg, b, AdmitNow(b, id, lane, st), bound, id, lane);
  }

  lemma SelectWithin(cfg: Config, s: Setting, b: State, bound: nat, id: Id)
    requires Owned(cfg, b) && WithinLimits(cfg, b, bound) && id in b.waiting && Selects(s, b, id)
    requires Capacity.EffectiveLimit(s.controller, s.pressure) <= bound
    ensures WithinLimits(cfg, AfterSelect(s, b, id), bound)
  {
    SelectOwned(cfg, s, b, id);
    var g := AfterSelect(s, b, id);
    if Grants(s, b, id) {
      var e := Chosen(s, b.queue, b.ledger);
      ChosenIsQueued(s, b.queue, b.ledger);
      ReservingTakesSlot(b.ledger, e.id, e.lane);
      SlotsGrow(cfg, b, g, bound, e.id, e.lane);
    } else {
      SlotsShrink(cfg, b, g, bound);
    }
  }

  lemma LeaveWithin(cfg: Config, b: State, bound: nat, id: Id, st: Status, log: seq<Return>)
    requires Owned(cfg, b) && WithinLimits(cfg, b, bound) && id in b.waiting && (st == Cancelled || st == TimedOut)
    ensures WithinLimits(cfg, AfterLeave(b, id, st, log), bound)
  {
    hide Owned, WithinLimits, KeepsLanes, Ledger.Occupied, Remove, Ledger.WithStatus, Ledger.Release;
    LeaveOwned(cfg, b, id, st, log);
    LeavingFreesSlot(b.ledger, id, st);
    SlotsShrink(cfg, b, AfterLeave(b, id, st, log), bound);
  }

  lemma ClaimWithin(cfg: Config, b: State, bound: nat, id: Id, log: seq<Return>)
    requires WithinLimits(cfg, b, bound)
    ensures WithinLimits(cfg, AfterClaim(b, id, log), bound)
  {}

  lemma PollWithin(cfg: Config, s: Setting, b: State, bound: nat, id: Id)
    requires Owned(cfg, b) && WithinLimits(cfg, b, bound) && id in b.waiting
    requires id in b.entries && b.entries[id].id == id
    requires Capacity.EffectiveLimit(s.controller, s.pressure) <= bound
    ensures WithinLimits(cfg, PollStep(s, b, id), bound)
  {
    hide AfterSelect, PollStep, AfterLeave, AfterClaim, Owned, WithinLimits;
    var lost, won := b.returned + [Return(id, false, b.now)], b.returned + [Return(id, true, b.now)];
    if Selects(s, b, id) {
      PollCases(s, b, id);
      SelectOwned(cfg, s, b, id);
      SelectWithin(cfg, s, b, bound, id);
      var g := AfterSelect(s, b, id);
      LeaveWithin(cfg, g, bound, id, TimedOut, lost);
      ClaimWithin(cfg, g, bound, id, won);
    } else {
      PollOtherCases(s, b, id);
      LeaveWithin(cfg, b, bound, id, Cancelled, lost);
      LeaveWithin(cfg, b, bound, id, TimedOut, lost);
      ClaimWithin(cfg, b, bound, id, won);
    }
  }

  lemma EnqueueWithin(cfg: Config, b: State, bound: nat, id: Id, lane: Lane, stamp: real)
    requires Owned(cfg, b) && WithinLimits(cfg, b, bound) && id !in b.ledger.records
    ensures WithinLimits(cfg, Enqueue(b, NewEntry(cfg, b, id, lane, stamp)), bound)
  {
    hide Owned, WithinLimits, KeepsLanes, Ledger.Occupied, Ledger.Begin, Ledger.MarkQueued;
    EnqueueOwned(cfg, b, id, lane, stamp);
    QueueingTakesNoSlot(b.ledger, id, lane);
    SlotsShrink(cfg, b, Enqueue(b, NewEntry(cfg, b, id, lane, stamp)), bound);
  }

  lemma ChatWithin(cfg: Config, b: State, ev: Event, bound: nat)
    requires Owned(cfg, b) && WithinLimits(cfg, b, bound) && ev.Chat? && ev.id !in b.ledger.records
    requires LimitOf(cfg, ev.env) <= bound
    ensures WithinLimits(cfg, ChatStep(cfg, b, ev), bound)
  {
    hide Owned, WithinLimits, AdmitNow, Enqueue, NewEntry;
    var ctl, ctx := ControllerOf(cfg, ev.env), ContextOf(cfg, b, ev);
    Capacity.AdmissionExactly(cfg.limits, ev.shape, ctl, ctx);
    Capacity.RunExactly(ctl, ctx);
    if Capacity.EvaluateChat(cfg.limits, ev.shape, ctl, ctx) == Capacity.Accepted {
      AdmitWithin(cfg, b, bound, ev.id, ev.lane, if ev.stream then Streaming else Running);
    }
    EnqueueWithin(cfg, b, bound, ev.id, ev.lane, ev.stamp);
  }

  lemma StartWithin(cfg: Config, b: State, bound: nat, id: Id, kind: StartKind)
    requires Owned(cfg, b) && WithinLimits(cfg, b, bound) && id in b.claimed
    ensures WithinLimits(cfg, StartStep(b, id, kind), bound)
  {
    assert Legal(ViewOf(b, id));
    hide Owned, Legal, WithinLimits, KeepsLanes;
    hide Ledger.Occupied, Ledger.MarkExecuting, Ledger.WithStatus, Ledger.Release;
    StartOwned(cfg, b, id, kind);
    StartingKeepsSlots(b.ledger, id, Running);
    StartingKeepsSlots(b.ledger, id, Streaming);
    LeavingFreesSlot(b.ledger, id, Failed);
    SlotsShrink(cfg, b, StartStep(b, id, kind), bound);
  }

  lemma FinishWithin(cfg: Config, b: State, bound: nat, id: Id, kind: FinishKind)
    requires Owned(cfg, b) && WithinLimits(cfg, b, bound) && id in b.executing
    ensures WithinLimits(cfg, FinishStep(b, id, kind), bound)
  {
    hide Owned, WithinLimits, KeepsLanes, Ledger.Occupied, Ledger.Complete, Ledger.WithStatus, Ledger.Release;
    FinishOwned(cfg, b, id, kind);
    CompletingFreesSlot(b.ledger, id);
    LeavingFreesSlot(b.ledger, id, Failed);
    LeavingFreesSlot(b.ledger, id, Cancelled);
    SlotsShrink(cfg, b, FinishStep(b, id, kind), bound);
  }

  lemma CancelWithin(cfg: Config, b: State, bound: nat, id: Id)
    requires Owned(cfg, b) && WithinLimits(cfg, b, bound)
    requires id in b.ledger.records && !b.ledger.records[id].status.Terminal()
    ensures WithinLimits(cfg, CancelStep(b, id), bound)
  {
    hide Owned, WithinLimits, KeepsLanes, Ledger.Occupied, Ledger.WithStatus, Ledger.Release;
    CancelOwned(cfg, b, id);
    LeavingFreesSlot(b.ledger, id, Cancelled);
    SlotsShrink(cfg, b, CancelStep(b, id), bound);
  }

  lemma NextWithin(cfg: Config, b: State, ev: Event, bound: nat)
    requires Owned(cfg, b) && WithinLimits(cfg, b, bound)
    requires ev.Chat? || ev.Generate? || ev.Poll? ==> LimitOf(cfg, ev.env) <= bound
    ensures WithinLimits(cfg, Next(cfg, b, ev), bound)
  {
    hide PollStep, ChatStep, StartStep, FinishStep, CancelStep, AdmitNow;
    match ev {
      case Chat(id, _, _, _, _, _, _, _) => if id !in b.ledger.records { ChatWithin(cfg, b, ev, bound); }
      case Generate(id, lane, _, _) =>
        if id !in b.ledger.records && GenerateStep(cfg, b, ev) != b { AdmitWithin(cfg, b, bound, id, lane, Running); }
      case Poll(id, ready, env) =>
        if id in b.waiting && id in b.entries { PollWithin(cfg, SettingOf(cfg, b, ready, env), b, bound, id); }
      case Start(id, kind) => if id in b.claimed { StartWithin(cfg, b, bound, id, kind); }
      case Finish(id, kind) => if id in b.executing { FinishWithin(cfg, b, bound, id, kind); }
      case CancelCall(id) =>
        if id in b.ledger.records && !b.ledger.records[id].status.Terminal() { CancelWithin(cfg, b, bound, id); }
      case Advance(_) =>
    }
  }

  /**
  Capacity safety: across chat admissions, generate admissions and grants to any caller's entry, the active jobs never
  exceed a bound on the controller's limits, and no lane exceeds its own ceiling.
  */
  lemma {:induction false} CapacitySafety(cfg: Config, evs: seq<Event>, bound: nat)
    requires LimitsWithin(cfg, evs, bound)
    ensures WithinLimits(cfg, Exec(cfg, evs), bound)
    ensures Exec(cfg, evs).ledger.ActiveJobs() <= bound
    ensures forall lane :: LaneMax(cfg, lane).Some? ==>
      Exec(cfg, evs).ledger.ActiveJobsFor(lane) <= Capacity.Max(LaneMax(cfg, lane).value, 1)
  {
    if evs == [] {
      assert Init().ledger.Occupied() == {};
      assert forall lane :: Init().ledger.OccupiedIn(lane) == {};
    } else {
      var front, ev := evs[..|evs|-1], evs[|evs|-1];
      CapacitySafety(cfg, front, bound);
      AlwaysOwned(cfg, front);
      NextWithin(cfg, Exec(cfg, front), ev, bound);
    }
    AlwaysOwned(cfg, evs);
    OwnedCountsOnce(cfg, Exec(cfg, evs));
    forall lane ensures LaneMax(cfg, lane).Some? ==>
      Exec(cfg, evs).ledger.ActiveJobsFor(lane) <= Capacity.Max(LaneMax(cfg, lane).value, 1)
    {
      OccupiedCounts(Exec(cfg, evs).ledger, lane);
    }
    OccupiedCounts(Exec(cfg, evs).ledger, None);
  }

  /** Whatever the mode, the profile and the pressure do along the way, the operator's ceiling holds. */
  lemma OperatorCeilingHolds(cfg: Config, evs: seq<Event>)
    ensures Exec(cfg, evs).ledger.ActiveJobs() <= Capacity.Max(cfg.maxActive, 1)
  {
    assert LimitsWithin(cfg, evs, Capacity.Max(cfg.maxActive, 1));
    CapacitySafety(cfg, evs, Capacity.Max(cfg.maxActive, 1));
  }
}
