/** The queue's depth over every run, as the runtime counts it and as the deque really is. */
module BrokerDepth {
  import opened Core
  import opened Runtime
  import opened RequestQueues
  import opened Broker
  import Capacity
  import Context
  import Scheduling

  lemma LeavingIsNotWaiting(l: Ledger, id: Id, st: Status)
    requires st != Queued
    ensures l.WithStatus(id, st).Release(id).WaitingRecords() <= l.WaitingRecords()
  {}

  lemma StepsDoNotQueue(l: Ledger, id: Id, lane: Lane, st: Status)
    requires st == Running || st == Streaming
    ensures l.MarkExecuting(id, st).WaitingRecords() <= l.WaitingRecords()
    ensures l.Reserve(id, lane).WaitingRecords() <= l.WaitingRecords()
    ensures id !in l.records ==> l.Begin(id, lane).MarkExecuting(id, st).WaitingRecords() <= l.WaitingRecords()
    ensures id !in l.records ==> l.Begin(id, lane).MarkQueued(id).WaitingRecords() <= l.WaitingRecords() + {id}
  {}

  lemma CompletingIsNotWaiting(l: Ledger, id: Id)
    ensures l.Complete(id).WaitingRecords() <= l.WaitingRecords()
  {}

  /** Only an enqueue adds a waiting record, and it adds one. */
  lemma WaitingGrowsByEnqueue(cfg: Config, b: State, ev: Event)
    requires Owned(cfg, b)
    ensures var n := Next(cfg, b, ev);
      || n.ledger.WaitingRecords() <= b.ledger.WaitingRecords()
      || (ev.Chat? && n.ledger.WaitingRecords() <= b.ledger.WaitingRecords() + {ev.id}
          && Capacity.EvaluateChat(cfg.limits, ev.shape, ControllerOf(cfg, ev.env), ContextOf(cfg, b, ev)) ==
            Capacity.Queued)
  {
    hide Ledger.WaitingRecords, Capacity.EvaluateChat, ContextOf, PollStep;
    match ev {
      case Chat(id, lane, _, stream, _, _, _, _) =>
        StepsDoNotQueue(b.ledger, id, lane, if stream then Streaming else Running);
      case Generate(id, lane, _, _) => StepsDoNotQueue(b.ledger, id, lane, Running);
      case Poll(id, ready, env) =>
        if id in b.waiting && id in b.entries { PollDoesNotQueue(cfg, SettingOf(cfg, b, ready, env), b, id); }
      case Start(id, kind) =>
        StepsDoNotQueue(b.ledger, id, None, Running);
        StepsDoNotQueue(b.ledger, id, None, Streaming);
        LeavingIsNotWaiting(b.ledger, id, Failed);
      case Finish(id, kind) =>
        CompletingIsNotWaiting(b.ledger, id);
        LeavingIsNotWaiting(b.ledger, id, Failed);
        LeavingIsNotWaiting(b.ledger, id, Cancelled);
      case CancelCall(id) => LeavingIsNotWaiting(b.ledger, id, Cancelled);
      case Advance(_) =>
    }
  }

  lemma PollDoesNotQueue(cfg: Config, s: Setting, b: State, id: Id)
    requires Owned(cfg, b) && id in b.waiting && id in b.entries
    ensures PollStep(s, b, id).ledger.WaitingRecords() <= b.ledger.WaitingRecords()
  {
    hide Ledger.WaitingRecords;
    if Selects(s, b, id) {
      PollCases(s, b, id);
      var g := AfterSelect(s, b, id);
      if Grants(s, b, id) {
        var e := Chosen(s, b.queue, b.ledger);
        StepsDoNotQueue(b.ledger, e.id, e.lane, Running);
      }
      LeavingIsNotWaiting(g.ledger, id, TimedOut);
    } else {
      PollOtherCases(s, b, id);
      LeavingIsNotWaiting(b.ledger, id, TimedOut);
      LeavingIsNotWaiting(b.ledger, id, Cancelled);
    }
  }

  /** The depth the runtime reports never exceeds the configured maximum. */
  lemma {:induction false} QueueDepthBounded(cfg: Config, evs: seq<Event>)
    ensures Exec(cfg, evs).ledger.QueueDepth() <= Capacity.Max(0, cfg.maxQueueDepth)
  {
    if evs == [] {
      assert Init().ledger.WaitingRecords() == {};
    } else {
      var front, ev := evs[..|evs|-1], evs[|evs|-1];
      var b := Exec(cfg, front);
      QueueDepthBounded(cfg, front);
      AlwaysOwned(cfg, front);
      WaitingGrowsByEnqueue(cfg, b, ev);
      var n := Next(cfg, b, ev);
      if n.ledger.WaitingRecords() <= b.ledger.WaitingRecords() {
        SubsetSize(n.ledger.WaitingRecords(), b.ledger.WaitingRecords());
      } else {
        var ctl, ctx := ControllerOf(cfg, ev.env), ContextOf(cfg, b, ev);
        Capacity.AdmissionExactly(cfg.limits, ev.shape, ctl, ctx);
        Capacity.ContractNeverHigh(ctl, ctx, ev.env.reported);
        SubsetSize(n.ledger.WaitingRecords(), b.ledger.WaitingRecords() + {ev.id});
      }
    }
  }

  // ---------------------------------------------------------------------------
  // The deque itself
  // ---------------------------------------------------------------------------

  ghost function Ids(deque: seq<Entry>): set<Id> { set e | e in deque :: e.id }

  lemma {:induction false} IdsSize(deque: seq<Entry>)
    requires DistinctIds(deque)
    ensures |Ids(deque)| == |deque|
  {
    if deque != [] {
      var n := |deque| - 1;
      IdsSize(deque[..n]);
      assert deque == deque[..n] + [deque[n]];
      assert Ids(deque) == Ids(deque[..n]) + {deque[n].id};
      assert deque[n].id !in Ids(deque[..n]);
    }
  }

  /** Entries whose request was cancelled but whose caller has not polled since. */
  ghost function Stale(b: State): set<Id> { set id | id in Ids(b.queue.deque) && id in b.tokens }

  /** The deque holds exactly the waiting requests the runtime counts plus the stale ones. */
  lemma DequeLength(cfg: Config, evs: seq<Event>)
    ensures var b := Exec(cfg, evs);
      |b.queue.deque| == b.ledger.QueueDepth() + |Stale(b)|
  {
    var b := Exec(cfg, evs);
    AlwaysOwned(cfg, evs);
    IdsSize(b.queue.deque);
    forall id ensures id in Ids(b.queue.deque) <==> id in b.ledger.WaitingRecords() + Stale(b) {
      assert Legal(ViewOf(b, id));
      assert id in Ids(b.queue.deque) <==> Holds(b.queue.deque, id);
    }
    assert Ids(b.queue.deque) == b.ledger.WaitingRecords() + Stale(b);
    forall id | id in b.ledger.WaitingRecords() ensures id !in Stale(b) {
      assert Legal(ViewOf(b, id));
    }
  }

  /** The deque is longer than the configured maximum exactly when the stale entries outnumber the places left. */
  lemma DequeBound(cfg: Config, evs: seq<Event>)
    ensures var b := Exec(cfg, evs);
      && (Stale(b) == {} ==> |b.queue.deque| <= Capacity.Max(0, cfg.maxQueueDepth))
      && (|b.queue.deque| > cfg.maxQueueDepth <==> |Stale(b)| > cfg.maxQueueDepth - b.ledger.QueueDepth())
  {
    DequeLength(cfg, evs);
    QueueDepthBounded(cfg, evs);
  }

  // ---------------------------------------------------------------------------
  // A run that overfills the deque
  // ---------------------------------------------------------------------------

  function SmallConfig(): Config {
    Config(Scheduling.Fifo, 1, 1, Capacity.Limits(10, 100, 100, true), 60.0, 1, map[])
  }

  function CalmEnv(): Env { Env(Capacity.Fixed, Capacity.NoProfile, true, Capacity.ReportedNormal) }

  function SmallChat(id: Id, stamp: real): Event {
    Chat(id, None, stamp, false, Capacity.Shape(1, 1, None),
         Context.Cost(1, 1, 0, 2, 0, 0, true, true, false, Context.FromDefault), None, CalmEnv())
  }

  lemma FourSteps(cfg: Config, a: Event, b: Event, c: Event, d: Event)
    ensures Exec(cfg, [a, b, c, d]) == Next(cfg, Next(cfg, Next(cfg, Next(cfg, Init(), a), b), c), d)
  {
    hide Next;
    assert [a, b, c, d][..3] == [a, b, c] && [a, b, c][..2] == [a, b] && [a, b][..1] == [a] && [a][..0] == [];
    assert Exec(cfg, []) == Init();
    assert Exec(cfg, [a]) == Next(cfg, Init(), a);
    assert Exec(cfg, [a, b]) == Next(cfg, Exec(cfg, [a]), b);
    assert Exec(cfg, [a, b, c]) == Next(cfg, Exec(cfg, [a, b]), c);
  }

  /** With the one slot free a small chat runs; with it taken and nobody counted as waiting, it queues. */
  lemma SmallChatDecided(b: State, id: Id, stamp: real)
    requires id !in b.ledger.records && b.ledger.QueueDepth() == 0
    ensures b.ledger.ActiveJobs() == 0 ==>
      Next(SmallConfig(), b, SmallChat(id, stamp)) == AdmitNow(b, id, None, Running)
    ensures b.ledger.ActiveJobs() == 1 ==>
      Next(SmallConfig(), b, SmallChat(id, stamp)) == Enqueue(b, NewEntry(SmallConfig(), b, id, None, stamp))
  {
    hide AdmitNow, Enqueue, NewEntry, Ledger.ActiveJobs, Ledger.QueueDepth, Ledger.ActiveJobsFor;
  }

  function FirstLedger(): Ledger { Ledger(map[], map[]).Begin("a", None).MarkExecuting("a", Running) }
  function ThirdLedger(): Ledger { FirstLedger().Begin("b", None).MarkQueued("b").Cancel("b") }
  function LastLedger(): Ledger { ThirdLedger().Begin("c", None).MarkQueued("c") }

  lemma SmallLedgers()
    ensures var l := Ledger(map[], map[]); l.ActiveJobs() == 0 && l.QueueDepth() == 0
    ensures FirstLedger().ActiveJobs() == 1 && FirstLedger().QueueDepth() == 0 && "b" !in FirstLedger().records
    ensures ThirdLedger().ActiveJobs() == 1 && ThirdLedger().QueueDepth() == 0 && "c" !in ThirdLedger().records
    ensures LastLedger().QueueDepth() == 1
  {
    var l0 := Ledger(map[], map[]);
    assert l0.ActiveRecords() == {} && l0.WaitingRecords() == {};
    assert FirstLedger().ActiveRecords() == {"a"} && FirstLedger().WaitingRecords() == {};
    assert ThirdLedger().ActiveRecords() == {"a"} && ThirdLedger().WaitingRecords() == {};
    assert LastLedger().WaitingRecords() == {"c"};
  }

  lemma CancelWaiting(cfg: Config, b: State, id: Id)
    requires id in b.ledger.records && b.ledger.records[id].status == Queued
    ensures Next(cfg, b, CancelCall(id)) == CancelStep(b, id)
  {}

  /** One slot, one place in the queue: a cancellation makes room in the count before the caller leaves the deque. */
  lemma DequeCanExceedMaximum()
    ensures var evs := [SmallChat("a", 1.0), SmallChat("b", 2.0), CancelCall("b"), SmallChat("c", 3.0)];
            var b := Exec(SmallConfig(), evs);
      |b.queue.deque| == 2 && b.ledger.QueueDepth() == 1 && SmallConfig().maxQueueDepth == 1
  {
    var cfg := SmallConfig();
    assert cfg.maxQueueDepth == 1;
    FourSteps(cfg, SmallChat("a", 1.0), SmallChat("b", 2.0), CancelCall("b"), SmallChat("c", 3.0));
    hide Next, SmallConfig, SmallChat, Exec, Ledger.ActiveJobs, Ledger.QueueDepth;
    SmallLedgers();
    SmallChatDecided(Init(), "a", 1.0);
    var s1 := AdmitNow(Init(), "a", None, Running);
    assert s1.ledger == FirstLedger();
    SmallChatDecided(s1, "b", 2.0);
    var s2 := Enqueue(s1, NewEntry(cfg, s1, "b", None, 2.0));
    CancelWaiting(cfg, s2, "b");
    var s3 := CancelStep(s2, "b");
    assert s3.ledger == ThirdLedger();
    SmallChatDecided(s3, "c", 3.0);
    assert Enqueue(s3, NewEntry(cfg, s3, "c", None, 3.0)).ledger == LastLedger();
  }
}
