/** Each step of the broker, said of its event and the counters alone: when it happens and everything it changes. */
module BrokerSteps {
  import opened Core
  import opened Runtime
  import opened RequestQueues
  import opened Broker
  import BrokerSafety
  import Capacity
  import Context

  // ---------------------------------------------------------------------------
  // Conditions
  // ---------------------------------------------------------------------------

  /** The global limit the controller applies in this environment. */
  ghost function Limit(cfg: Config, env: Env): nat {
    Capacity.EffectiveLimit(Capacity.Controller(env.mode, cfg.maxActive, env.profile, env.deny),
        Capacity.ClassOf(env.reported))
  }

  /** The ceiling configured for a lane; a request without a lane, or with an empty one, has none. */
  ghost function Ceiling(cfg: Config, lane: Lane): Option<int> {
    match lane case None => None case Some(l) => if |l| > 0 && l in cfg.ceilings then Some(cfg.ceilings[l]) else None
  }

  /** The lane has a place for one more job; a ceiling below one counts as one. */
  ghost predicate LaneOpen(cfg: Config, b: State, lane: Lane) {
    Ceiling(cfg, lane).Some? ==>
      b.ledger.ActiveJobsFor(lane) == 0 || b.ledger.ActiveJobsFor(lane) < Ceiling(cfg, lane).value
  }

  ghost predicate Free(cfg: Config, b: State, lane: Lane, env: Env) {
    b.ledger.ActiveJobs() < Limit(cfg, env) && LaneOpen(cfg, b, lane)
  }

  /** The request's shape and cost are within the configured bounds. */
  ghost predicate Fits(cfg: Config, ev: Event)
    requires ev.Chat?
  {
    && ev.shape.messageCount <= cfg.limits.maxMessages && ev.shape.promptChars <= cfg.limits.maxPromptChars
    && (ev.shape.maxTokens.Some? ==> ev.shape.maxTokens.value <= cfg.limits.maxRequestTokens)
    && (ev.budgets.Some? ==> !Context.Evaluate(ev.cost, ev.budgets).overLimit)
  }

  lemma CeilingIs(cfg: Config, lane: Lane)
    ensures LaneMax(cfg, lane) == Ceiling(cfg, lane)
  {}

  // ---------------------------------------------------------------------------
  // Arrivals
  // ---------------------------------------------------------------------------

  /** A request starts at once: a running record in its lane, and nothing else. */
  ghost predicate Admits(b: State, id: Id, lane: Lane, st: Status, n: State) {
    && n.ledger.records == b.ledger.records[id := Record(lane, st)]
    && n.ledger.reservations == b.ledger.reservations - {id}
    && n == b.(ledger := n.ledger, executing := b.executing + {id})
  }

  /** A request joins the back of the queue, with a deadline one time-out from now. */
  ghost predicate Queues(cfg: Config, b: State, ev: Event, n: State)
    requires ev.Chat?
  {
    var e := Entry(ev.id, ev.stamp, ev.lane, Ceiling(cfg, ev.lane), b.now + cfg.timeout, b.arrivals);
    && n.ledger.records == b.ledger.records[ev.id := Record(ev.lane, Queued)]
    && n.ledger.reservations == b.ledger.reservations
    && n.queue == b.queue.(deque := b.queue.deque + [e])
    && n.entries == b.entries[ev.id := e] && n.arrivals == b.arrivals + 1 && n.waiting == b.waiting + {ev.id}
    && n == b.(ledger := n.ledger, queue := n.queue, entries := n.entries, arrivals := n.arrivals, waiting := n.waiting)
  }

  /** A chat is admitted, queued or refused, and which of them depends on these conditions alone. */
  lemma ChatExactly(cfg: Config, b: State, ev: Event)
    requires ev.Chat? && ev.id !in b.ledger.records
    ensures var n, free := Next(cfg, b, ev), Free(cfg, b, ev.lane, ev.env);
      var place := cfg.limits.queueEnabled && b.ledger.QueueDepth() < cfg.maxQueueDepth;
      && (Fits(cfg, ev) && free ==> Admits(b, ev.id, ev.lane, if ev.stream then Streaming else Running, n))
      && (Fits(cfg, ev) && !free && place ==> Queues(cfg, b, ev, n))
      && (!Fits(cfg, ev) || (!free && !place) ==> n == b)
  {
    ChatDecision(cfg, b, ev);
    ChatEffects(cfg, b, ev);
    hide Free, Fits, Capacity.EvaluateChat, ContextOf, Admits, Queues, AdmitNow, Enqueue, NewEntry;
  }

  lemma ChatDecision(cfg: Config, b: State, ev: Event)
    requires ev.Chat?
    ensures var a := Capacity.EvaluateChat(cfg.limits, ev.shape, ControllerOf(cfg, ev.env), ContextOf(cfg, b, ev));
      var free := Free(cfg, b, ev.lane, ev.env);
      var place := cfg.limits.queueEnabled && b.ledger.QueueDepth() < cfg.maxQueueDepth;
      && (a == Capacity.Accepted <==> Fits(cfg, ev) && free)
      && (a == Capacity.Queued <==> Fits(cfg, ev) && !free && place)
  {
    var ctl, ctx := ControllerOf(cfg, ev.env), ContextOf(cfg, b, ev);
    Capacity.AdmissionExactly(cfg.limits, ev.shape, ctl, ctx);
    Capacity.ReasonsExactly(ctl, ctx);
    Capacity.RunExactly(ctl, ctx);
    Capacity.ContractNeverHigh(ctl, ctx, ev.env.reported);
    CeilingIs(cfg, ev.lane);
    RoomIs(cfg, b, ev);
    hide Capacity.Evaluate, Capacity.EvaluateChat, Capacity.PressureOverride, LaneMax;
    hide Ceiling, Free, ContextOf, ControllerOf;
    hide Capacity.HasRoom, Context.Evaluate;
  }

  lemma RoomIs(cfg: Config, b: State, ev: Event)
    requires ev.Chat?
    ensures var ctl, ctx := ControllerOf(cfg, ev.env), ContextOf(cfg, b, ev);
      && (Capacity.HasRoom(ctl, ctx) <==> Free(cfg, b, ev.lane, ev.env))
      && (Fits(cfg, ev) <==> Capacity.StructurallySound(cfg.limits, ev.shape) && !Capacity.Overflows(ctx))
      && ctx.runtimeReady && ctx.queueDepth == b.ledger.QueueDepth() && ctx.maxQueueDepth == cfg.maxQueueDepth
  {
    CeilingIs(cfg, ev.lane);
    hide Ledger.ActiveJobs, Ledger.QueueDepth, Context.Evaluate, LaneMax, Capacity.EffectiveLimit;
    assert !Capacity.Named(ev.lane) ==> Ceiling(cfg, ev.lane).None?;
  }

  lemma ChatEffects(cfg: Config, b: State, ev: Event)
    requires ev.Chat? && ev.id !in b.ledger.records
    ensures Admits(b, ev.id, ev.lane, Running, AdmitNow(b, ev.id, ev.lane, Running))
    ensures Admits(b, ev.id, ev.lane, Streaming, AdmitNow(b, ev.id, ev.lane, Streaming))
    ensures Queues(cfg, b, ev, Enqueue(b, NewEntry(cfg, b, ev.id, ev.lane, ev.stamp)))
  {
    CeilingIs(cfg, ev.lane);
    hide LaneMax, Ceiling;
    StartedRecord(b, ev.id, ev.lane, Running);
    StartedRecord(b, ev.id, ev.lane, Streaming);
    var n := Enqueue(b, NewEntry(cfg, b, ev.id, ev.lane, ev.stamp));
    assert n.ledger.records == b.ledger.records[ev.id := Record(ev.lane, Queued)];
  }

  lemma StartedRecord(b: State, id: Id, lane: Lane, st: Status)
    ensures Admits(b, id, lane, st, AdmitNow(b, id, lane, st))
  {
    var l := b.ledger.Begin(id, lane).MarkExecuting(id, st);
    assert l.records == b.ledger.records[id := Record(lane, st)];
  }

  /** A generate call is admitted exactly when it fits and both limits leave room; it never waits. */
  lemma GenerateExactly(cfg: Config, b: State, ev: Event)
    requires ev.Generate? && ev.id !in b.ledger.records
    ensures var n := Next(cfg, b, ev);
      && (!ev.overLimit && Free(cfg, b, ev.lane, ev.env) ==> Admits(b, ev.id, ev.lane, Running, n))
      && (ev.overLimit || !Free(cfg, b, ev.lane, ev.env) ==> n == b)
  {
    CeilingIs(cfg, ev.lane);
    StartedRecord(b, ev.id, ev.lane, Running);
    Capacity.AvailableExactly(ControllerOf(cfg, ev.env), Capacity.ClassOf(ev.env.reported), b.ledger.ActiveJobs(),
                              ev.lane, LaneMax(cfg, ev.lane), b.ledger.ActiveJobsFor(ev.lane));
    hide Admits, AdmitNow, Ledger.ActiveJobs;
    hide Ledger.ActiveJobsFor, Capacity.EffectiveLimit, Capacity.ActiveCapacityAvailable;
  }

  // ---------------------------------------------------------------------------
  // Starts, ends, cancellation and time
  // ---------------------------------------------------------------------------

  /** Only this record's status may change, and its reservation may go. */
  ghost predicate Restatus(b: State, id: Id, st: Status, released: bool, n: State) {
    && id in b.ledger.records
    && n.ledger.records == b.ledger.records[id := Record(b.ledger.records[id].lane, st)]
    && n.ledger.reservations == if released then b.ledger.reservations - {id} else b.ledger.reservations
  }

  /** A released caller starts, unless it was cancelled meanwhile; one that cannot stream fails. */
  lemma StartExactly(cfg: Config, b: State, id: Id, kind: StartKind)
    requires Owned(cfg, b) && id in b.claimed
    ensures var n := Next(cfg, b, Start(id, kind));
      && id in b.ledger.records
      && (kind == StreamUnsupported ==>
            Restatus(b, id, Failed, true, n) && n == b.(ledger := n.ledger, claimed := b.claimed - {id}))
      && (kind != StreamUnsupported ==>
            && n == b.(ledger := n.ledger, claimed := b.claimed - {id}, executing := b.executing + {id})
            && (b.ledger.records[id].status == Queued ==>
                  Restatus(b, id, if kind == RunNow then Running else Streaming, true, n))
            && (b.ledger.records[id].status != Queued ==> n.ledger == b.ledger))
  {
    assert Legal(ViewOf(b, id));
    hide Owned;
  }

  /** An execution ends: completed unless it was cancelled meanwhile, or failed, or aborted. */
  lemma FinishExactly(cfg: Config, b: State, id: Id, kind: FinishKind)
    requires Owned(cfg, b) && id in b.executing
    ensures var n := Next(cfg, b, Finish(id, kind));
      && id in b.ledger.records && n == b.(ledger := n.ledger, executing := b.executing - {id})
      && Restatus(b, id, match kind
                         case CompleteIt => if b.ledger.records[id].status == Cancelled then Cancelled else Completed
                         case FailIt => Failed
                         case AbortIt => Cancelled, true, n)
  {
    assert Legal(ViewOf(b, id));
    hide Owned;
    var n := Next(cfg, b, Finish(id, kind));
    var r := b.ledger.records[id];
    assert r.status == Cancelled ==> b.ledger.records[id := Record(r.lane, Cancelled)] == b.ledger.records;
  }

  /** Cancelling a request that has not ended marks it and frees its slot; where it stands otherwise does not change. */
  lemma CancelExactly(cfg: Config, b: State, id: Id)
    ensures var n := Next(cfg, b, CancelCall(id));
      var live := id in b.ledger.records && b.ledger.records[id].status in {Accepted, Queued, Running, Streaming};
      && (live ==> Restatus(b, id, Cancelled, true, n) && n == b.(ledger := n.ledger, tokens := b.tokens + {id}))
      && (!live ==> n == b)
  {}

  lemma AdvanceExactly(cfg: Config, b: State, delta: real)
    ensures Next(cfg, b, Advance(delta)) == if delta > 0.0 then b.(now := b.now + delta) else b
  {}

  // ---------------------------------------------------------------------------
  // A poll
  // ---------------------------------------------------------------------------

  /** A queued entry that may be granted: before its own deadline, with room in its own lane. */
  ghost predicate Open(cfg: Config, b: State, d: Entry) {
    d in b.queue.deque && b.now < d.deadline && LaneOpen(cfg, b, d.lane)
  }

  /** The caller of the front entry, neither cancelled nor granted, finds a free slot. */
  ghost predicate MaySelect(cfg: Config, b: State, x: Id, env: Env) {
    && x !in b.tokens && x !in b.queue.granted && b.queue.deque != [] && b.queue.deque[0].id == x
    && b.ledger.ActiveJobs() < Limit(cfg, env)
  }

  /** The caller returns True and is about to start. */
  ghost predicate ReturnsTrue(b: State, x: Id, n: State) {
    n == b.(waiting := b.waiting - {x}, claimed := b.claimed + {x}, returned := b.returned + [Return(x, true, b.now)])
  }

  /** The caller returns False; its entry leaves the deque and whatever it held is given back. */
  ghost predicate ReturnsFalse(b: State, x: Id, st: Status, n: State) {
    && Restatus(b, x, st, true, n)
    && (forall d :: d in n.queue.deque <==> d in b.queue.deque && d.id != x) && n.queue.granted == b.queue.granted
    && n == b.(queue := n.queue, ledger := n.ledger, waiting := b.waiting - {x},
        returned := b.returned + [Return(x, false, b.now)])
  }

  /** Entry `c` is taken out, given a slot in its lane and marked granted; the log tells from what it was chosen. */
  ghost predicate GrantsTo(cfg: Config, b: State, c: Entry, g: State) {
    && |g.grants| == |b.grants| + 1 && g.grants[..|b.grants|] == b.grants
    && var log := g.grants[|b.grants|];
    && log.entry == c && log.at == b.now && log.deque == b.queue.deque
    && (forall d :: d in log.eligible <==> Open(cfg, b, d))
    && (forall d :: d in g.queue.deque <==> d in b.queue.deque && d != c)
    && g.queue.granted == b.queue.granted + {c.id}
    && g.ledger == Ledger(b.ledger.records, b.ledger.reservations[c.id := c.lane])
    && g == b.(queue := g.queue, ledger := g.ledger, grants := g.grants)
  }

  /** Nothing but the scheduler's own notes changed. */
  ghost predicate StaysWaiting(b: State, n: State) { n == b.(queue := b.queue.(scheduler := n.queue.scheduler)) }

  lemma OpenIs(cfg: Config, b: State, s: Setting, ready: set<Id>, env: Env, d: Entry)
    requires Owned(cfg, b) && s == SettingOf(cfg, b, ready, env) && b.ledger.ActiveJobs() < Limit(cfg, env)
    ensures d in Eligible(s, b.ledger, b.queue.deque) <==> Open(cfg, b, d)
  {
    EligibleExactly(s, b.ledger, b.queue.deque, d);
    if d in b.queue.deque {
      assert d.laneMax == LaneMax(cfg, d.lane) by { hide Eligible; }
      CeilingIs(cfg, d.lane);
      Capacity.AvailableExactly(s.controller, s.pressure, b.ledger.ActiveJobs(), d.lane, d.laneMax,
          b.ledger.ActiveJobsFor(d.lane));
    }
    hide Owned, Eligible, LaneMax;
    hide Ledger.ActiveJobs, Ledger.ActiveJobsFor, Capacity.EffectiveLimit, Capacity.ActiveCapacityAvailable;
  }

  lemma SelectsIs(cfg: Config, b: State, s: Setting, x: Id, ready: set<Id>, env: Env)
    requires s == SettingOf(cfg, b, ready, env)
    ensures Selects(s, b, x) <==> MaySelect(cfg, b, x, env)
  {
    Capacity.AvailableExactly(s.controller, s.pressure, b.ledger.ActiveJobs(), None, None, 0);
    hide Ledger.ActiveJobs, Capacity.EffectiveLimit, Capacity.ActiveCapacityAvailable;
  }

  lemma SelectionGrants(cfg: Config, b: State, x: Id, ready: set<Id>, env: Env)
    requires Owned(cfg, b) && MaySelect(cfg, b, x, env)
    ensures var s := SettingOf(cfg, b, ready, env);
      && (Grants(s, b, x) <==> exists d :: Open(cfg, b, d))
      && (Grants(s, b, x) ==>
            && Open(cfg, b, Chosen(s, b.queue, b.ledger))
            && GrantsTo(cfg, b, Chosen(s, b.queue, b.ledger), AfterSelect(s, b, x)))
      && (!Grants(s, b, x) ==> StaysWaiting(b, AfterSelect(s, b, x)))
  {
    var s := SettingOf(cfg, b, ready, env);
    var es := Eligible(s, b.ledger, b.queue.deque);
    SelectsIs(cfg, b, s, x, ready, env);
    forall d ensures d in es <==> Open(cfg, b, d) { OpenIs(cfg, b, s, ready, env, d); }
    assert Grants(s, b, x) <==> es != [] by { hide Owned, Eligible, Open; }
    if es != [] {
      assert es[0] in es;
      GrantEffect(cfg, b, s, x);
    } else {
      RefusalEffect(b, s, x);
    }
    hide Owned, Eligible, Open, Grants, Chosen, AfterSelect, GrantsTo;
  }

  lemma RefusalEffect(b: State, s: Setting, x: Id)
    requires Selects(s, b, x) && Eligible(s, b.ledger, b.queue.deque) == []
    ensures StaysWaiting(b, AfterSelect(s, b, x))
  {
    hide Eligible, Live, GlobalRoom, Candidates;
  }

  /** A queued entry holds no slot yet. */
  lemma QueuedHoldsNoSlot(cfg: Config, b: State, c: Entry)
    requires Owned(cfg, b) && c in b.queue.deque
    ensures DistinctIds(b.queue.deque) && Holds(b.queue.deque, c.id) && c.id !in b.ledger.reservations
  {
    assert Holds(b.queue.deque, c.id);
    assert Legal(ViewOf(b, c.id));
  }

  lemma RemovesOnly(deque: seq<Entry>, c: Entry)
    requires DistinctIds(deque) && c in deque
    ensures forall d :: d in Without(deque, c.id) <==> d in deque && d != c
  {
    WithoutExactly(deque, c.id);
    forall d | d in deque && d.id == c.id ensures d == c { SameId(deque, d, c); }
  }

  lemma AfterGrantIs(b: State, s: Setting, x: Id)
    requires Grants(s, b, x) && Holds(b.queue.deque, Chosen(s, b.queue, b.ledger).id)
    requires Chosen(s, b.queue, b.ledger).id !in b.ledger.reservations
    ensures var c, g := Chosen(s, b.queue, b.ledger), AfterSelect(s, b, x);
      && g.grants == b.grants + [Grant(c, b.now, b.queue.deque, Eligible(s, b.ledger, b.queue.deque))]
      && g.queue.deque == Without(b.queue.deque, c.id) && g.queue.granted == b.queue.granted + {c.id}
      && g.ledger == Ledger(b.ledger.records, b.ledger.reservations[c.id := c.lane])
      && g == b.(queue := g.queue, ledger := g.ledger, grants := g.grants)
  {
    hide Eligible, Chosen, Decided, Holds, GlobalRoom;
  }

  lemma GrantEffect(cfg: Config, b: State, s: Setting, x: Id)
    requires Owned(cfg, b) && Grants(s, b, x) && Eligible(s, b.ledger, b.queue.deque) != []
    requires forall d :: d in Eligible(s, b.ledger, b.queue.deque) <==> Open(cfg, b, d)
    ensures var c := Chosen(s, b.queue, b.ledger); Open(cfg, b, c) && GrantsTo(cfg, b, c, AfterSelect(s, b, x))
  {
    hide Owned, Chosen, Eligible, Open, AfterSelect, Grants, Holds, Ordered, DistinctIds, Without;
    var c, g := Chosen(s, b.queue, b.ledger), AfterSelect(s, b, x);
    ChosenIsQueued(s, b.queue, b.ledger);
    EligibleExactly(s, b.ledger, b.queue.deque, c);
    QueuedHoldsNoSlot(cfg, b, c);
    RemovesOnly(b.queue.deque, c);
    AfterGrantIs(b, s, x);
  }

  lemma LeaveEffect(cfg: Config, g: State, x: Id, st: Status)
    requires Owned(cfg, g) && x in g.ledger.records && (st == Cancelled || st == TimedOut)
    ensures ReturnsFalse(g, x, st, AfterLeave(g, x, st, g.returned + [Return(x, false, g.now)]))
  {
    assert DistinctIds(g.queue.deque);
    hide Owned;
    WithoutExactly(g.queue.deque, x);
  }

  /**
  What one poll of a waiting caller does, whoever it is: give up if cancelled, take up or lose a grant it already has,
  select on behalf of the whole queue if it is in front and a slot is free, and then return or wait.
  */
  lemma PollExactly(cfg: Config, b: State, x: Id, ready: set<Id>, env: Env)
    requires Owned(cfg, b) && x in b.waiting
    ensures x in b.entries
    ensures var n, live := Next(cfg, b, Poll(x, ready, env)), b.now < b.entries[x].deadline;
      && (x in b.tokens ==> ReturnsFalse(b, x, Cancelled, n))
      && (x !in b.tokens && x in b.queue.granted ==>
            if live then ReturnsTrue(b, x, n) else ReturnsFalse(b, x, TimedOut, n))
      && (x !in b.tokens && x !in b.queue.granted && !MaySelect(cfg, b, x, env) ==>
            if live then n == b else ReturnsFalse(b, x, TimedOut, n))
      && (MaySelect(cfg, b, x, env) && !(exists d :: Open(cfg, b, d)) ==>
            exists g :: StaysWaiting(b, g) && if live then n == g else ReturnsFalse(g, x, TimedOut, n))
      && (MaySelect(cfg, b, x, env) && (exists d :: Open(cfg, b, d)) ==>
            exists c, g :: Open(cfg, b, c) && GrantsTo(cfg, b, c, g) && AfterGrantPoll(g, x, c, live, n))
  {
    assert Legal(ViewOf(b, x));
    assert x in b.entries && b.entries[x].id == x && x in b.ledger.records;
    var s := SettingOf(cfg, b, ready, env);
    assert Next(cfg, b, Poll(x, ready, env)) == PollStep(s, b, x) by { hide PollStep, Owned, Legal, ViewOf; }
    hide Legal, ViewOf, PollStep, Next;
    if Selects(s, b, x) {
      SelectsIs(cfg, b, s, x, ready, env);
      SelectPoll(cfg, b, x, ready, env);
    } else {
      SelectsIs(cfg, b, s, x, ready, env);
      PollOtherCases(s, b, x);
      LeaveEffect(cfg, b, x, TimedOut);
      LeaveEffect(cfg, b, x, Cancelled);
      hide Owned, AfterLeave, ReturnsFalse, Open, Selects, Limit;
    }
  }

  /**
  After a grant to `c`, the polling caller returns if it was its own, times out if it is late, and waits otherwise.
  */
  ghost predicate AfterGrantPoll(g: State, x: Id, c: Entry, live: bool, n: State) {
    if c.id == x then ReturnsTrue(g, x, n) else if live then n == g else ReturnsFalse(g, x, TimedOut, n)
  }

  lemma SelectPoll(cfg: Config, b: State, x: Id, ready: set<Id>, env: Env)
    requires Owned(cfg, b) && x in b.waiting && x in b.entries && b.entries[x].id == x && x in b.ledger.records
    requires MaySelect(cfg, b, x, env)
    ensures var n, live := PollStep(SettingOf(cfg, b, ready, env), b, x), b.now < b.entries[x].deadline;
      && (!(exists d :: Open(cfg, b, d)) ==>
            exists g :: StaysWaiting(b, g) && if live then n == g else ReturnsFalse(g, x, TimedOut, n))
      && ((exists d :: Open(cfg, b, d)) ==>
            exists c, g :: Open(cfg, b, c) && GrantsTo(cfg, b, c, g) && AfterGrantPoll(g, x, c, live, n))
  {
    var s := SettingOf(cfg, b, ready, env);
    var g := AfterSelect(s, b, x);
    SelectsIs(cfg, b, s, x, ready, env);
    SelectionGrants(cfg, b, x, ready, env);
    SelectOwned(cfg, s, b, x);
    PollCases(s, b, x);
    BrokerSafety.SelectFrame(s, b, x);
    assert g.ledger.records == b.ledger.records by { hide Owned, Open, Eligible, Chosen, Decided, PollStep; }
    LeaveEffect(cfg, g, x, TimedOut);
    assert s.now == b.now && AfterClaim(g, x, b.returned + [Return(x, true, b.now)]) ==
      g.(waiting := g.waiting - {x}, claimed := g.claimed + {x}, returned := g.returned + [Return(x, true, g.now)]);
    hide Owned, Open, Grants, Chosen, AfterSelect;
    hide GrantsTo, StaysWaiting, ReturnsFalse, PollStep, AfterLeave, AfterClaim;
    hide Selects, MaySelect, SettingOf;
    if Grants(s, b, x) {
      var c := Chosen(s, b.queue, b.ledger);
      assert AfterGrantPoll(g, x, c, b.now < b.entries[x].deadline, PollStep(s, b, x));
    }
  }
}
