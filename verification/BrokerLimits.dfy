/**
Three small runs that show where the bound on overtaking ends: a saturated lane, equal time stamps, and a request that
is not the oldest candidate.  They share their opening: two slots, one of them at most for lane "v", are taken by "x" in
that lane and by "y"; "a", "b", "c" and "d" queue up; then "y" finishes.
*/
module BrokerLimits {
  import opened Core
  import opened Runtime
  import opened RequestQueues
  import opened Broker
  import BrokerOrder
  import BrokerSafety
  import opened BrokerFairness
  import Capacity
  import Context
  import Scheduling

  function TwoSlots(maxBypass: nat): Config {
    Config(Scheduling.CacheAwareFifo, maxBypass, 8, Capacity.Limits(10, 100, 100, true), 60.0, 2, map["v" := 1])
  }

  function Calm(): Env { Env(Capacity.Fixed, Capacity.NoProfile, true, Capacity.ReportedNormal) }

  function OneChat(id: Id, lane: Lane, stamp: real): Event {
    Chat(id, lane, stamp, false, Capacity.Shape(1, 1, None),
         Context.Cost(1, 1, 0, 2, 0, 0, true, true, false, Context.FromDefault), None, Calm())
  }

  /** The lane of "a", and the stamps of the four queued requests. */
  datatype Plan = Plan(lane: Lane, a: real, b: real, c: real, d: real)

  function Busy(): seq<Event> { [Generate("x", Some("v"), false, Calm()), Generate("y", None, false, Calm())] }

  function Chats(p: Plan): seq<Event> {
    [OneChat("a", p.lane, p.a), OneChat("b", None, p.b), OneChat("c", None, p.c), OneChat("d", None, p.d)]
  }

  function Opening(p: Plan): seq<Event> { Busy() + Chats(p) + [Finish("y", CompleteIt)] }

  function LaneCeiling(lane: Lane): Option<int> { if lane == Some("v") then Some(1) else None }

  function EntryA(p: Plan): Entry { Entry("a", p.a, p.lane, LaneCeiling(p.lane), 60.0, 0) }
  function EntryB(p: Plan): Entry { Entry("b", p.b, None, None, 60.0, 1) }
  function EntryC(p: Plan): Entry { Entry("c", p.c, None, None, 60.0, 2) }
  function EntryD(p: Plan): Entry { Entry("d", p.d, None, None, 60.0, 3) }

  // ---------------------------------------------------------------------------
  // The opening, step by step
  // ---------------------------------------------------------------------------

  lemma ExecSnoc(cfg: Config, evs: seq<Event>, ev: Event)
    ensures Exec(cfg, evs + [ev]) == Next(cfg, Exec(cfg, evs), ev)
  {
    assert (evs + [ev])[..|evs|] == evs;
  }

  lemma GenerateRuns(n: nat, b: State, id: Id, lane: Lane)
    requires id !in b.ledger.records && b.ledger.ActiveJobs() < 2 && b.ledger.ActiveJobsFor(lane) == 0
    ensures Next(TwoSlots(n), b, Generate(id, lane, false, Calm())) == AdmitNow(b, id, lane, Running)
  {
    hide AdmitNow, Ledger.ActiveJobs, Ledger.ActiveJobsFor;
  }

  lemma ChatQueues(n: nat, b: State, id: Id, lane: Lane, stamp: real)
    requires id !in b.ledger.records && b.ledger.ActiveJobs() == 2 && b.ledger.QueueDepth() < 8
    ensures Next(TwoSlots(n), b, OneChat(id, lane, stamp)) == Enqueue(b, NewEntry(TwoSlots(n), b, id, lane, stamp))
  {
    hide AdmitNow, Enqueue, NewEntry, LaneMax, Ledger.ActiveJobs, Ledger.QueueDepth, Ledger.ActiveJobsFor;
  }

  lemma FinishRuns(n: nat, b: State, id: Id)
    requires id in b.executing
    ensures Next(TwoSlots(n), b, Finish(id, CompleteIt)) == FinishStep(b, id, CompleteIt)
  {}

  function RecordOf(lane: Lane, id: Id): Record {
    if id == "x" then Record(Some("v"), Running)
    else if id == "y" then Record(None, Running)
    else Record(if id == "a" then lane else None, Queued)
  }

  /** "x" and "y" run; `queued` wait, "a" in the given lane and the others in none. */
  function Full(lane: Lane, queued: set<Id>): Ledger {
    Ledger(map id | id in {"x", "y"} + queued :: RecordOf(lane, id), map[])
  }

  lemma RecordStatus(lane: Lane, id: Id)
    ensures RecordOf(lane, id).status.Active() <==> id in {"x", "y"}
    ensures RecordOf(lane, id).status == Queued <==> id !in {"x", "y"}
  {}

  lemma FullCounts(lane: Lane, queued: set<Id>)
    requires queued !! {"x", "y"} && |queued| < 8
    ensures Full(lane, queued).ActiveJobs() == 2 && Full(lane, queued).QueueDepth() < 8
  {
    var l := Full(lane, queued);
    hide RecordOf;
    forall id ensures id in l.ActiveRecords() <==> id in {"x", "y"} { RecordStatus(lane, id); }
    forall id ensures id in l.WaitingRecords() <==> id in queued {
      RecordStatus(lane, id);
      assert id in queued ==> id in l.records && l.records[id] == RecordOf(lane, id) && id !in {"x", "y"};
      assert id in l.WaitingRecords() ==> id in {"x", "y"} + queued && RecordOf(lane, id).status == Queued;
    }
    assert l.ActiveRecords() == {"x", "y"} && l.WaitingRecords() == queued;
    assert |{"x", "y"}| == 2;
  }

  lemma FullGrows(lane: Lane, queued: set<Id>, id: Id)
    requires id !in {"x", "y"} + queued
    ensures Full(lane, queued).Begin(id, if id == "a" then lane else None).MarkQueued(id) == Full(lane, queued + {id})
  {
    var l := Full(lane, queued).Begin(id, if id == "a" then lane else None).MarkQueued(id);
    assert l.records == Full(lane, queued + {id}).records;
  }

  lemma EarlyLedgers()
    ensures var l := Ledger(map[], map[]); l.ActiveJobs() == 0 && l.ActiveJobsFor(Some("v")) == 0
    ensures var l := Ledger(map[], map[]).Begin("x", Some("v")).MarkExecuting("x", Running);
      && l.ActiveJobs() == 1 && l.ActiveJobsFor(None) == 0 && "y" !in l.records
      && forall lane :: l.Begin("y", None).MarkExecuting("y", Running) == Full(lane, {})
  {
    var l := Ledger(map[], map[]);
    assert l.ActiveRecords() == {} && l.ActiveRecordsIn(Some("v")) == {} && l.ReservedIn(Some("v")) == {};
    var m := l.Begin("x", Some("v")).MarkExecuting("x", Running);
    assert m.ActiveRecords() == {"x"} && m.reservations == map[];
    forall lane ensures m.Begin("y", None).MarkExecuting("y", Running) == Full(lane, {}) {
      assert m.Begin("y", None).MarkExecuting("y", Running).records == Full(lane, {}).records;
    }
  }

  /** What the runs need to know of a state: `queue` waits, nothing was granted, and "x" and "y" run. */
  ghost predicate Queueing(p: Plan, b: State, queue: seq<Entry>) {
    && b.queue == QueueState(queue, {}, Scheduling.SchedulerState(map[], 0, 0, None))
    && b.ledger == Full(p.lane, IdsOf(queue)) && b.arrivals == |queue|
    && (forall e :: e in queue ==> e.id in b.entries && b.entries[e.id] == e && e.id in b.waiting)
    && b.executing == {"x", "y"} && b.tokens == {} && b.now == 0.0 && b.grants == []
  }

  function BusyState(): State { AdmitNow(AdmitNow(Init(), "x", Some("v"), Running), "y", None, Running) }

  lemma BusySteps(n: nat)
    ensures Exec(TwoSlots(n), Busy()) == BusyState()
  {
    var g, h := Generate("x", Some("v"), false, Calm()), Generate("y", None, false, Calm());
    var cfg, s1 := TwoSlots(n), AdmitNow(Init(), "x", Some("v"), Running);
    assert Busy() == [] + [g] + [h];
    assert Exec(cfg, []) == Init();
    assert Init().ledger == Ledger(map[], map[]);
    assert s1.ledger == Ledger(map[], map[]).Begin("x", Some("v")).MarkExecuting("x", Running);
    assert BusyState() == AdmitNow(s1, "y", None, Running);
    hide *;
    EarlyLedgers();
    ExecSnoc(cfg, [], g);
    ExecSnoc(cfg, [] + [g], h);
    GenerateRuns(n, Init(), "x", Some("v"));
    GenerateRuns(n, s1, "y", None);
  }

  lemma BusyStart(n: nat, p: Plan)
    ensures Queueing(p, Exec(TwoSlots(n), Busy()), [])
  {
    BusySteps(n);
    EarlyLedgers();
    hide Exec, Full, Ledger.ActiveJobs, Ledger.ActiveJobsFor, Ledger.Begin, Ledger.MarkExecuting, TwoSlots, Busy;
    assert (set e: Entry | e in [] :: e.id) == {};
  }

  function IdsOf(queue: seq<Entry>): set<Id> { set e | e in queue :: e.id }

  /** An entry that may join the queue. */
  ghost predicate Joins(n: nat, p: Plan, queue: seq<Entry>, e: Entry) {
    && |queue| < 4 && e.id !in {"x", "y"} + IdsOf(queue) && IdsOf(queue) !! {"x", "y"}
    && e.lane == (if e.id == "a" then p.lane else None) && e.ticket == |queue| && e.deadline == 60.0
    && e.laneMax == LaneMax(TwoSlots(n), e.lane)
  }

  lemma JoinStep(n: nat, p: Plan, b: State, queue: seq<Entry>, e: Entry)
    requires Queueing(p, b, queue) && Joins(n, p, queue, e)
    ensures Next(TwoSlots(n), b, OneChat(e.id, e.lane, e.enqueuedAt)) == Enqueue(b, e)
  {
    IdsSmall(queue);
    hide LaneMax, Enqueue;
    FullCounts(p.lane, IdsOf(queue));
    assert e.id !in Full(p.lane, IdsOf(queue)).records;
    assert NewEntry(TwoSlots(n), b, e.id, e.lane, e.enqueuedAt) == e;
    hide Next, Full, TwoSlots, NewEntry, OneChat, Ledger.ActiveJobs, Ledger.QueueDepth;
    ChatQueues(n, b, e.id, e.lane, e.enqueuedAt);
  }

  lemma JoinedState(n: nat, p: Plan, b: State, queue: seq<Entry>, e: Entry)
    requires Queueing(p, b, queue) && Joins(n, p, queue, e)
    ensures Queueing(p, Enqueue(b, e), queue + [e])
  {
    FullGrows(p.lane, IdsOf(queue), e.id);
    assert IdsOf(queue + [e]) == IdsOf(queue) + {e.id};
    hide Full, TwoSlots, LaneMax, Ledger.Begin, Ledger.MarkQueued;
    forall d | d in queue ensures d.id != e.id { assert d.id in IdsOf(queue); }
  }

  /** One more chat joins the queue. */
  lemma ChatJoins(n: nat, p: Plan, evs: seq<Event>, queue: seq<Entry>, e: Entry)
    requires Queueing(p, Exec(TwoSlots(n), evs), queue) && Joins(n, p, queue, e)
    ensures Queueing(p, Exec(TwoSlots(n), evs + [OneChat(e.id, e.lane, e.enqueuedAt)]), queue + [e])
  {
    hide *;
    ExecSnoc(TwoSlots(n), evs, OneChat(e.id, e.lane, e.enqueuedAt));
    JoinStep(n, p, Exec(TwoSlots(n), evs), queue, e);
    JoinedState(n, p, Exec(TwoSlots(n), evs), queue, e);
  }

  lemma {:induction false} IdsSmall(queue: seq<Entry>)
    ensures |IdsOf(queue)| <= |queue|
  {
    if queue != [] {
      var front, last := queue[..|queue|-1], queue[|queue|-1];
      IdsSmall(front);
      assert queue == front + [last];
      assert IdsOf(queue) == IdsOf(front) + {last.id};
    }
  }

  function Queue(p: Plan): seq<Entry> { [EntryA(p), EntryB(p), EntryC(p), EntryD(p)] }

  lemma AllJoin(n: nat, p: Plan)
    requires LaneMax(TwoSlots(n), p.lane) == LaneCeiling(p.lane)
    ensures forall i :: 0 <= i < 4 ==> Joins(n, p, Queue(p)[..i], Queue(p)[i])
  {
    var q := Queue(p);
    assert LaneMax(TwoSlots(n), None) == None;
    hide LaneMax, TwoSlots, LaneCeiling;
    assert IdsOf(q[..0]) == {} && IdsOf(q[..1]) == {"a"} && IdsOf(q[..2]) == {"a", "b"}
      && IdsOf(q[..3]) == {"a", "b", "c"} by {
      assert q[..0] == [] && q[..1] == [q[0]] && q[..2] == [q[0], q[1]] && q[..3] == [q[0], q[1], q[2]];
    }
  }

  lemma ChatIs(p: Plan, i: nat)
    requires i < 4
    ensures |Chats(p)| == 4 && |Queue(p)| == 4
    ensures Chats(p)[i] == OneChat(Queue(p)[i].id, Queue(p)[i].lane, Queue(p)[i].enqueuedAt)
  {
    hide OneChat;
  }

  lemma OneLonger<T>(pre: seq<T>, s: seq<T>, i: nat)
    requires i < |s|
    ensures pre + s[..i] + [s[i]] == pre + s[..i+1]
  {}

  lemma {:induction false} ChatsQueue(n: nat, p: Plan, i: nat)
    requires LaneMax(TwoSlots(n), p.lane) == LaneCeiling(p.lane) && i <= 4 && |Chats(p)| == 4 && |Queue(p)| == 4
    ensures Queueing(p, Exec(TwoSlots(n), Busy() + Chats(p)[..i]), Queue(p)[..i])
  {
    hide *;
    var c, q := Chats(p), Queue(p);
    if i == 0 {
      assert Busy() + c[..0] == Busy() && q[..0] == [];
      BusyStart(n, p);
    } else {
      ChatsQueue(n, p, i - 1);
      AllJoin(n, p);
      ChatIs(p, i - 1);
      OneLonger(Busy(), c, i - 1);
      OneLonger([], q, i - 1);
      assert [] + q[..i-1] == q[..i-1] && [] + q[..i] == q[..i];
      ChatJoins(n, p, Busy() + c[..i-1], q[..i-1], q[i-1]);
    }
  }

  function OpenLedger(lane: Lane): Ledger { Full(lane, {"a", "b", "c", "d"}).Complete("y") }

  /** "x" runs in the lane, four requests wait, one slot is free, and nothing was granted. */
  ghost predicate Opened(p: Plan, b: State) {
    && b.queue == QueueState(Queue(p), {}, Scheduling.SchedulerState(map[], 0, 0, None))
    && b.ledger == OpenLedger(p.lane)
    && "a" in b.entries && b.entries["a"] == EntryA(p) && "b" in b.entries
    && b.entries["b"] == EntryB(p) && "a" in b.waiting
    && b.executing == {"x"} && b.tokens == {} && b.now == 0.0 && b.grants == []
  }

  lemma FinishOpens(p: Plan, b: State)
    requires Queueing(p, b, Queue(p))
    ensures "y" in b.executing && Opened(p, FinishStep(b, "y", CompleteIt))
  {
    assert IdsOf(Queue(p)) == {"a", "b", "c", "d"};
    assert EntryA(p) in Queue(p) && EntryB(p) in Queue(p);
    hide Full, Ledger.Complete;
  }

  lemma OpeningOpens(n: nat, p: Plan)
    requires LaneMax(TwoSlots(n), p.lane) == LaneCeiling(p.lane)
    ensures Opened(p, Exec(TwoSlots(n), Opening(p)))
  {
    ChatIs(p, 0);
    assert Opening(p) == Busy() + Chats(p) + [Finish("y", CompleteIt)] by { hide Busy, Chats; }
    hide *;
    ChatsQueue(n, p, 4);
    assert Chats(p)[..4] == Chats(p) && Queue(p)[..4] == Queue(p);
    var b := Exec(TwoSlots(n), Busy() + Chats(p));
    FinishOpens(p, b);
    FinishRuns(n, b, "y");
    ExecSnoc(TwoSlots(n), Busy() + Chats(p), Finish("y", CompleteIt));
  }

  // ---------------------------------------------------------------------------
  // A poll of the front caller that grants another entry
  // ---------------------------------------------------------------------------

  ghost predicate IsOldest(es: seq<Entry>, d: Entry) { d in es && forall x :: x in es ==> d.enqueuedAt <= x.enqueuedAt }

  /** The oldest candidates are below the limit. */
  ghost predicate OldestBelow(bypass: map<string, nat>, limit: nat, es: seq<Entry>) {
    forall d :: IsOldest(es, d) ==> Scheduling.Bypassed(bypass, d.id) < limit
  }

  lemma OldestIsOldest(s: Setting, es: seq<Entry>)
    requires es != []
    ensures IsOldest(es, es[Scheduling.OldestIndex(Candidates(s, es))])
  {
    var cs := Candidates(s, es);
    hide Candidates;
    var oldest := Scheduling.OldestIndex(cs);
    forall x | x in es ensures es[oldest].enqueuedAt <= x.enqueuedAt {
      var j :| 0 <= j < |es| && es[j] == x;
      assert cs[oldest].queuedAt <= cs[j].queuedAt;
    }
  }

  lemma FirstReadyIs(s: Setting, es: seq<Entry>, e: Entry)
    requires e in es && DistinctIds(es) && s.ready == {e.id}
    ensures var r := Scheduling.FirstReady(Candidates(s, es)); r.Some? && es[r.value] == e
  {
    var cs := Candidates(s, es);
    hide Candidates;
    var j :| 0 <= j < |es| && es[j] == e;
    assert cs[j].cacheReady;
    var r := Scheduling.FirstReady(cs);
    assert cs[r.value].id == e.id;
    SameId(es, es[r.value], e);
  }

  lemma ReadyBelowLimit(bypass: map<string, nat>, limit: nat, cs: seq<Scheduling.Candidate>, r: nat)
    requires cs != [] && Scheduling.FirstReady(cs) == Some(r)
    requires Scheduling.Bypassed(bypass, cs[Scheduling.OldestIndex(cs)].id) < limit
    ensures cs[Scheduling.ChooseIndex(Scheduling.CacheAwareFifo, bypass, limit, cs).index].id == cs[r].id
  {
    hide Scheduling.OldestIndex, Scheduling.FirstReady;
  }

  lemma ReadyAmong(s: Setting, bypass: map<string, nat>, es: seq<Entry>, e: Entry)
    requires e in es && DistinctIds(es) && s.ready == {e.id} && OldestBelow(bypass, s.maxBypass, es)
    ensures es[Scheduling.ChooseIndex(Scheduling.CacheAwareFifo, bypass, s.maxBypass, Candidates(s, es)).index] == e
  {
    var cs := Candidates(s, es);
    OldestIsOldest(s, es);
    FirstReadyIs(s, es, e);
    hide Candidates, IsOldest, Scheduling.OldestIndex;
    hide Scheduling.FirstReady, Scheduling.ChooseIndex, Scheduling.Bypassed;
    assert Scheduling.Bypassed(bypass, es[Scheduling.OldestIndex(cs)].id) < s.maxBypass;
    ReadyBelowLimit(bypass, s.maxBypass, cs, Scheduling.FirstReady(cs).value);
    var i := Scheduling.ChooseIndex(Scheduling.CacheAwareFifo, bypass, s.maxBypass, cs).index;
    assert cs[i] == CandidateOf(s, es[i]);
    SameId(es, es[i], e);
  }

  /** With one cache-ready candidate and the oldest ones below the limit, the ready one is chosen. */
  lemma ReadyIsChosen(s: Setting, q: QueueState, l: Ledger, e: Entry)
    requires s.policy == Scheduling.CacheAwareFifo && s.ready == {e.id} && DistinctIds(q.deque)
    requires e in Eligible(s, l, q.deque) && OldestBelow(q.scheduler.bypass, s.maxBypass, Eligible(s, l, q.deque))
    ensures Chosen(s, q, l) == e
  {
    EligibleKeepsOrder(ByIdentity, s, l, q.deque);
    hide Eligible, Candidates, Scheduling.ChooseIndex, OldestBelow;
    ReadyAmong(s, q.scheduler.bypass, Eligible(s, l, q.deque), e);
  }

  /** The front caller "a" polls, and `e` is granted instead. */
  lemma PollGrants(n: nat, s: Setting, b: State, e: Entry)
    requires Owned(TwoSlots(n), b) && s.now == b.now && "a" in b.waiting
    requires "a" in b.entries && "a" !in b.tokens + b.queue.granted
    requires b.queue.deque != [] && b.queue.deque[0].id == "a" && !Expired(b.now, b.entries["a"])
    requires GlobalRoom(s, b.ledger) && e in Eligible(s, b.ledger, b.queue.deque) && e.id != "a"
    requires Chosen(s, b.queue, b.ledger) == e
    ensures Grants(s, b, "a")
    ensures PollStep(s, b, "a") == AfterGrant(b, Decided(s, b.queue, b.ledger), e, b.grants + GrantLog(s, b, "a"))
    ensures GrantLog(s, b, "a") == [Grant(e, b.now, b.queue.deque, Eligible(s, b.ledger, b.queue.deque))]
  {
    assert Selects(s, b, "a") && Grants(s, b, "a");
    assert GrantLog(s, b, "a") == [Grant(e, b.now, b.queue.deque, Eligible(s, b.ledger, b.queue.deque))];
    hide PollStep, AfterGrant, Eligible, GlobalRoom, Decided, Chosen, Owned;
    EntriesNamed(TwoSlots(n), b, "a");
    PollCases(s, b, "a");
  }

  lemma EntriesNamed(cfg: Config, b: State, id: Id)
    requires Owned(cfg, b) && id in b.entries
    ensures b.entries[id].id == id
  {}

  /** What a grant leaves behind. */
  lemma AfterGrantIs(n: nat, s: Setting, b: State, e: Entry, log: seq<Grant>)
    requires Owned(TwoSlots(n), b) && Grants(s, b, "a") && Chosen(s, b.queue, b.ledger) == e && e in b.queue.deque
    ensures var g := AfterGrant(b, Decided(s, b.queue, b.ledger), e, log);
      && g.grants == log && g.queue.deque == Without(b.queue.deque, e.id) && g.queue.granted == b.queue.granted + {e.id}
      && g.ledger == b.ledger.Reserve(e.id, e.lane)
      && g.entries == b.entries && g.waiting == b.waiting && g.executing == b.executing
      && g.tokens == b.tokens && g.now == b.now
      && (forall d :: d in b.queue.deque && d.id != e.id ==>
            Count(g, d) == Count(b, d) + if Bumped(s, b, "a", d) then 1 else 0)
  {
    assert Holds(b.queue.deque, e.id);
    var q := b.queue.(scheduler := Decided(s, b.queue, b.ledger));
    RemoveKeepsCounts(q, e.id);
    hide Decided, Chosen, Grants, Bumped;
    forall d | d in b.queue.deque && d.id != e.id
      ensures Count(AfterGrant(b, q.scheduler, e, log), d) == Count(b, d) + if Bumped(s, b, "a", d) then 1 else 0
    {
      DecidedCounts(TwoSlots(n), s, b, "a", d);
    }
  }

  function PollSetting(n: nat, b: State, ready: set<Id>): Setting { SettingOf(TwoSlots(n), b, ready, Calm()) }

  lemma PollRuns(n: nat, b: State, ready: set<Id>)
    requires "a" in b.waiting && "a" in b.entries
    ensures Next(TwoSlots(n), b, Poll("a", ready, Calm())) == PollStep(PollSetting(n, b, ready), b, "a")
  {
    hide PollStep;
  }

  predicate LaneFree(l: Ledger, e: Entry) {
    e.laneMax.Some? && Capacity.Named(e.lane) ==> l.ActiveJobsFor(e.lane) < Capacity.Max(e.laneMax.value, 1)
  }

  /** Room is a matter of the two counters. */
  lemma Rooms(n: nat, b: State, ready: set<Id>, l: Ledger, e: Entry)
    ensures var s := PollSetting(n, b, ready);
      && s.now == b.now && s.maxBypass == n && s.policy == Scheduling.CacheAwareFifo && s.ready == ready
      && (GlobalRoom(s, l) <==> l.ActiveJobs() < 2)
      && (LaneRoom(s, l, e) <==> l.ActiveJobs() < 2 && LaneFree(l, e))
  {
    hide Ledger.ActiveJobs, Ledger.ActiveJobsFor;
  }

  /** The caller of the front entry "a" waits, and a slot is free. */
  ghost predicate AtFront(n: nat, b: State) {
    && Owned(TwoSlots(n), b) && "a" in b.waiting && "a" in b.entries && "a" !in b.tokens + b.queue.granted
    && b.queue.deque != [] && b.queue.deque[0].id == "a" && !Expired(b.now, b.entries["a"]) && b.ledger.ActiveJobs() < 2
  }

  ghost function EligibleNow(n: nat, b: State, ready: set<Id>): seq<Entry> {
    Eligible(PollSetting(n, b, ready), b.ledger, b.queue.deque)
  }

  /** Granting `e` from `b`: its log entry, what is left of the queue, and the bypass counts. */
  ghost predicate GrantStep(n: nat, b: State, ready: set<Id>, e: Entry, g: State) {
    && g.grants == b.grants + [Grant(e, b.now, b.queue.deque, EligibleNow(n, b, ready))]
    && g.queue.deque == Without(b.queue.deque, e.id) && g.queue.granted == b.queue.granted + {e.id}
    && g.ledger == b.ledger.Reserve(e.id, e.lane)
    && g.entries == b.entries && g.waiting == b.waiting && g.executing == b.executing
    && g.tokens == b.tokens && g.now == b.now
    && (forall d :: d in b.queue.deque && d.id != e.id ==>
          Count(g, d) == Count(b, d) + if d in EligibleNow(n, b, ready) && d.enqueuedAt < e.enqueuedAt then 1 else 0)
  }

  /** The front caller polls while `e` alone is cache-ready: `e` is granted over its head. */
  lemma ReadyGranted(n: nat, b: State, e: Entry)
    requires AtFront(n, b) && e in EligibleNow(n, b, {e.id}) && e.id != "a"
    requires OldestBelow(b.queue.scheduler.bypass, n, EligibleNow(n, b, {e.id}))
    ensures GrantStep(n, b, {e.id}, e, Next(TwoSlots(n), b, Poll("a", {e.id}, Calm())))
  {
    var s := PollSetting(n, b, {e.id});
    Rooms(n, b, {e.id}, b.ledger, e);
    EligibleExactly(s, b.ledger, b.queue.deque, e);
    assert DistinctIds(b.queue.deque) by { hide PollSetting, OldestBelow, Eligible, EligibleNow; }
    hide Owned, PollStep, Next, TwoSlots, PollSetting, GlobalRoom;
    hide LaneRoom, Eligible, OldestBelow, Chosen, Decided, AfterGrant, Count;
    ReadyIsChosen(s, b.queue, b.ledger, e);
    PollRuns(n, b, {e.id});
    PollGrants(n, s, b, e);
    AfterGrantIs(n, s, b, e, b.grants + GrantLog(s, b, "a"));
  }

  // ---------------------------------------------------------------------------
  // The ledgers of the two polls
  // ---------------------------------------------------------------------------

  lemma OpenRecords(lane: Lane, id: Id)
    ensures var l := OpenLedger(lane);
      && l.reservations == map[] && (id in l.records <==> id in {"x", "y", "a", "b", "c", "d"})
      && (id in l.records ==> (l.records[id].status.Active() <==> id == "x"))
      && "x" in l.records && l.records["x"] == Record(Some("v"), Running)
  {}

  lemma OpenCounts(lane: Lane)
    ensures OpenLedger(lane).ActiveJobs() == 1 && OpenLedger(lane).ActiveJobsFor(Some("v")) == 1
  {
    var l := OpenLedger(lane);
    hide OpenLedger;
    OpenRecords(lane, "x");
    forall id ensures id in l.ActiveRecords() <==> id == "x" { OpenRecords(lane, id); }
    forall id ensures id in l.ActiveRecordsIn(Some("v")) <==> id == "x" { OpenRecords(lane, id); }
    assert l.ActiveRecords() == {"x"} && l.ActiveRecordsIn(Some("v")) == {"x"} && l.ReservedIn(Some("v")) == {};
  }

  /** Once "x" is done only the granted request holds a slot. */
  lemma LaterCounts(lane: Lane, id: Id)
    ensures var l := OpenLedger(lane).Reserve(id, None).Complete("x");
      id != "x" ==> l.ActiveJobs() == 1 && l.ActiveJobsFor(Some("v")) == 0
  {
    hide OpenLedger;
    var l := OpenLedger(lane).Reserve(id, None).Complete("x");
    OpenRecords(lane, "x");
    forall i ensures i !in l.ActiveRecords() && i !in l.ActiveRecordsIn(Some("v")) { OpenRecords(lane, i); }
    assert l.ActiveRecords() == {} && l.ActiveRecordsIn(Some("v")) == {};
    if id != "x" {
      assert l.reservations == map[id := None];
      assert l.ReservedIn(Some("v")) == {};
    }
  }

  lemma OpenedAtFront(n: nat, p: Plan)
    requires LaneMax(TwoSlots(n), p.lane) == LaneCeiling(p.lane)
    ensures Opened(p, Exec(TwoSlots(n), Opening(p))) && AtFront(n, Exec(TwoSlots(n), Opening(p)))
  {
    OpeningOpens(n, p);
    AlwaysOwned(TwoSlots(n), Opening(p));
    OpenCounts(p.lane);
    hide Owned, Exec, OpenLedger, Ledger.ActiveJobs, TwoSlots, LaneMax, Opening;
  }

  lemma EligibleIs(n: nat, b: State, ready: set<Id>, e: Entry)
    ensures e in EligibleNow(n, b, ready) <==>
      e in b.queue.deque && !Expired(b.now, e) && b.ledger.ActiveJobs() < 2 && LaneFree(b.ledger, e)
  {
    Rooms(n, b, ready, b.ledger, e);
    EligibleExactly(PollSetting(n, b, ready), b.ledger, b.queue.deque, e);
    hide PollSetting, Eligible, LaneRoom, Ledger.ActiveJobs, LaneFree;
  }

  // ---------------------------------------------------------------------------
  // A saturated lane
  // ---------------------------------------------------------------------------

  function LanePlan(): Plan { Plan(Some("v"), 1.0, 2.0, 3.0, 4.0) }

  lemma LanePlanOk(n: nat)
    ensures LaneMax(TwoSlots(n), LanePlan().lane) == LaneCeiling(LanePlan().lane)
  {}

  lemma LaneEligible(n: nat, b: State, ready: set<Id>, e: Entry)
    requires Opened(LanePlan(), b)
    ensures e in EligibleNow(n, b, ready) <==> e in Queue(LanePlan()) && e != EntryA(LanePlan())
  {
    OpenCounts(Some("v"));
    hide Ledger.ActiveJobs, Ledger.ActiveJobsFor, OpenLedger, EligibleNow;
    EligibleIs(n, b, ready, e);
  }

  function LaneRun(): seq<Event> { Opening(LanePlan()) + [Poll("a", {}, Calm())] }

  lemma StampsRise(p: Plan, last: seq<Event>)
    requires p.a < p.b < p.c < p.d && forall i :: 0 <= i < |last| ==> !last[i].Chat?
    ensures BrokerOrder.StampsOrdered(Opening(p) + last, true)
  {
    hide Calm;
  }

  lemma OvertakenTwice(g: Grant, h: Grant, e: Entry)
    ensures TimesOvertaken([g], e) == if Overtakes(g, e) then 1 else 0
    ensures Overtakes(g, e) && Overtakes(h, e) ==> TimesOvertaken([g, h], e) == 2
    ensures PassesOver(g, e) && PassesOver(h, e) ==> TimesPassedOver([g, h], e) == 2
  {
    assert [g][..0] == [] && [g, h][..1] == [g];
    hide Overtakes, PassesOver;
    assert TimesOvertaken([], e) == 0 && TimesPassedOver([], e) == 0;
  }

  /** Whoever is chosen, it is not "a". */
  lemma LaneChosen(b: State)
    requires Opened(LanePlan(), b)
    ensures EligibleNow(0, b, {}) != []
    ensures var c := Chosen(PollSetting(0, b, {}), b.queue, b.ledger); c in Queue(LanePlan()) && c != EntryA(LanePlan())
  {
    var s, p := PollSetting(0, b, {}), LanePlan();
    LaneEligible(0, b, {}, EntryB(p));
    assert EntryB(p) in Queue(p) && EntryB(p) != EntryA(p);
    assert EligibleNow(0, b, {}) == Eligible(s, b.ledger, b.queue.deque);
    hide *;
    ChosenIsQueued(s, b.queue, b.ledger);
    EligibleExactly(s, b.ledger, b.queue.deque, Chosen(s, b.queue, b.ledger));
    Rooms(0, b, {}, b.ledger, Chosen(s, b.queue, b.ledger));
    LaneEligible(0, b, {}, Chosen(s, b.queue, b.ledger));
  }

  /** The poll selects, since "a" is in front and a slot is free. */
  lemma FrontSelects(b: State)
    requires AtFront(0, b) && EligibleNow(0, b, {}) != []
    ensures var s := PollSetting(0, b, {});
      && Grants(s, b, "a") && s.now == b.now && Owned(TwoSlots(0), b) && "a" in b.waiting && "a" in b.entries
      && GrantLog(s, b, "a") == [Grant(Chosen(s, b.queue, b.ledger), b.now, b.queue.deque, EligibleNow(0, b, {}))]
  {
    hide Owned, TwoSlots, PollSetting, Eligible, Chosen, GlobalRoom, Ledger.ActiveJobs;
    Rooms(0, b, {}, b.ledger, b.queue.deque[0]);
  }

  lemma LaterTicket(e: Entry)
    requires e in Queue(LanePlan()) && e != EntryA(LanePlan())
    ensures EntryA(LanePlan()).ticket < e.ticket && EntryA(LanePlan()).deadline == 60.0
    ensures EntryA(LanePlan()) in Queue(LanePlan())
  {}

  lemma OpenedIs(p: Plan, b: State)
    requires Opened(p, b)
    ensures b.queue.deque == Queue(p) && b.now == 0.0 && b.grants == []
    ensures "a" in b.entries && b.entries["a"] == EntryA(p)
  {
    hide OpenLedger;
  }

  lemma EligibleNowIs(n: nat, b: State, ready: set<Id>)
    ensures EligibleNow(n, b, ready) == Eligible(PollSetting(n, b, ready), b.ledger, b.queue.deque)
  {}

  lemma LaneGrant(b: State)
    requires Opened(LanePlan(), b) && AtFront(0, b)
    ensures var n := Next(TwoSlots(0), b, Poll("a", {}, Calm()));
      n.entries == b.entries && |n.grants| == 1 && Overtakes(n.grants[0], EntryA(LanePlan()))
  {
    hide *;
    var s := PollSetting(0, b, {});
    EligibleNowIs(0, b, {});
    LaneChosen(b);
    FrontSelects(b);
    PollRuns(0, b, {});
    BrokerSafety.PollLogs(TwoSlots(0), s, b, "a");
    OpenedIs(LanePlan(), b);
    var chosen := Chosen(s, b.queue, b.ledger);
    LaterTicket(chosen);
    var g := Grant(chosen, b.now, b.queue.deque, EligibleNow(0, b, {}));
    assert [] + [g] == [g];
    OvertakesAt(g, EntryA(LanePlan()));
  }

  lemma LaneRunIs()
    ensures LaneRun() == Opening(LanePlan()) + [Poll("a", {}, Calm())] && TwoSlots(0).maxBypass == 0
    ensures BrokerOrder.StampsOrdered(LaneRun(), true)
  {
    StampsRise(LanePlan(), [Poll("a", {}, Calm())]);
    hide Opening, Calm, BrokerOrder.StampsOrdered;
  }

  /**
  With strictly increasing stamps and no bypass allowed at all, a live request is still overtaken by a later one while
  its lane is saturated: the bound on overtaking does not survive lane filtering.
  */
  lemma LanesBreakTheBound()
    ensures var b := Exec(TwoSlots(0), LaneRun());
      && BrokerOrder.StampsOrdered(LaneRun(), true) && "a" in b.entries
      && TimesOvertaken(b.grants, b.entries["a"]) > TwoSlots(0).maxBypass
  {
    hide *;
    LaneRunIs();
    var b := Exec(TwoSlots(0), Opening(LanePlan()));
    var n := Next(TwoSlots(0), b, Poll("a", {}, Calm()));
    LanePlanOk(0);
    OpenedAtFront(0, LanePlan());
    OpenedIs(LanePlan(), b);
    LaneGrant(b);
    ExecSnoc(TwoSlots(0), Opening(LanePlan()), Poll("a", {}, Calm()));
    assert n.grants == [n.grants[0]];
    OvertakenTwice(n.grants[0], n.grants[0], EntryA(LanePlan()));
  }

  // ---------------------------------------------------------------------------
  // Two grants over the head of "a"
  // ---------------------------------------------------------------------------

  /** Two entries are made cache-ready one after the other, and "x" finishes in between. */
  function TwoGrants(p: Plan, first: Id, second: Id): seq<Event> {
    Opening(p) + [Poll("a", {first}, Calm())] + [Finish("x", CompleteIt)] + [Poll("a", {second}, Calm())]
  }

  /** After the first grant and the end of "x". */
  ghost predicate Between(p: Plan, b: State, e: Entry, m: State) {
    && m.grants == [Grant(e, 0.0, Queue(p), EligibleNow(1, b, {e.id}))]
    && m.queue.deque == Without(Queue(p), e.id) && m.queue.granted == {e.id}
    && m.ledger == OpenLedger(p.lane).Reserve(e.id, None).Complete("x")
    && m.entries == b.entries && m.waiting == b.waiting && m.tokens == {} && m.now == 0.0
    && (forall d :: d in Queue(p) && d.id != e.id ==>
          Count(m, d) == if d in EligibleNow(1, b, {e.id}) && d.enqueuedAt < e.enqueuedAt then 1 else 0)
  }

  lemma NobodyBypassed(es: seq<Entry>)
    ensures OldestBelow(map[], 1, es)
  {
    hide IsOldest;
  }

  lemma BetweenFrom(p: Plan, b: State, e: Entry, g: State)
    requires Opened(p, b) && GrantStep(1, b, {e.id}, e, g) && e.lane == None
    ensures "x" in g.executing && Between(p, b, e, FinishStep(g, "x", CompleteIt))
  {
    hide EligibleNow, OpenLedger, Queue, Ledger.Reserve, Ledger.Complete, Without;
    var es := EligibleNow(1, b, {e.id});
    assert b.grants + [Grant(e, b.now, b.queue.deque, es)] == [Grant(e, 0.0, Queue(p), es)];
    forall d | d in Queue(p) && d.id != e.id
      ensures Count(FinishStep(g, "x", CompleteIt), d) == if d in es && d.enqueuedAt < e.enqueuedAt then 1 else 0
    {
      assert Count(b, d) == 0;
    }
  }

  lemma FirstGrant(p: Plan, b: State, e: Entry)
    requires Opened(p, b) && AtFront(1, b) && e.lane == None && e.id != "a" && e in EligibleNow(1, b, {e.id})
    ensures var g := Next(TwoSlots(1), b, Poll("a", {e.id}, Calm()));
      Between(p, b, e, Next(TwoSlots(1), g, Finish("x", CompleteIt)))
  {
    assert b.queue.scheduler.bypass == map[] by { hide AtFront, EligibleNow; }
    hide *;
    NobodyBypassed(EligibleNow(1, b, {e.id}));
    ReadyGranted(1, b, e);
    var g := Next(TwoSlots(1), b, Poll("a", {e.id}, Calm()));
    BetweenFrom(p, b, e, g);
    FinishRuns(1, g, "x");
  }

  lemma BetweenAtFront(p: Plan, b: State, e: Entry, m: State)
    requires Opened(p, b) && Between(p, b, e, m) && e in {EntryB(p), EntryC(p)} && Owned(TwoSlots(1), m)
    ensures AtFront(1, m) && m.ledger.ActiveJobs() == 1 && m.ledger.ActiveJobsFor(Some("v")) == 0
  {
    LaterCounts(p.lane, e.id);
    hide Owned, OpenLedger, Ledger.ActiveJobs, Ledger.ActiveJobsFor, EligibleNow, TwoSlots;
  }

  /** After the first grant everyone left is eligible. */
  lemma BetweenEligible(p: Plan, m: State, ready: set<Id>, e: Entry)
    requires m.ledger.ActiveJobs() == 1 && m.ledger.ActiveJobsFor(Some("v")) == 0 && m.now == 0.0
    requires (forall d :: d in m.queue.deque ==> d in Queue(p)) && (p.lane == None || p.lane == Some("v"))
    ensures e in EligibleNow(1, m, ready) <==> e in m.queue.deque
  {
    hide Ledger.ActiveJobs, Ledger.ActiveJobsFor, EligibleNow;
    EligibleIs(1, m, ready, e);
  }

  /** The first part of the run, up to the second poll. */
  function UpToSecond(p: Plan, first: Id): seq<Event> {
    Opening(p) + [Poll("a", {first}, Calm())] + [Finish("x", CompleteIt)]
  }

  lemma FirstHalf(p: Plan, e: Entry)
    requires LaneMax(TwoSlots(1), p.lane) == LaneCeiling(p.lane) && e.lane == None && e.id != "a"
    requires e in EligibleNow(1, Exec(TwoSlots(1), Opening(p)), {e.id})
    ensures Between(p, Exec(TwoSlots(1), Opening(p)), e, Exec(TwoSlots(1), UpToSecond(p, e.id)))
  {
    assert UpToSecond(p, e.id) == Opening(p) + [Poll("a", {e.id}, Calm())] + [Finish("x", CompleteIt)] by {
      hide Opening, Calm;
    }
    hide *;
    OpenedAtFront(1, p);
    FirstGrant(p, Exec(TwoSlots(1), Opening(p)), e);
    ExecSnoc(TwoSlots(1), Opening(p), Poll("a", {e.id}, Calm()));
    ExecSnoc(TwoSlots(1), Opening(p) + [Poll("a", {e.id}, Calm())], Finish("x", CompleteIt));
  }

  /** The second grant, if the oldest entries left are below the limit. */
  lemma SecondHalf(p: Plan, b: State, e: Entry, f: Entry)
    requires Opened(p, b) && Between(p, b, e, Exec(TwoSlots(1), UpToSecond(p, e.id))) && e in {EntryB(p), EntryC(p)}
    requires p.lane == None || p.lane == Some("v")
    requires f in Without(Queue(p), e.id) && f.id != "a" && f.lane == None
    requires var m := Exec(TwoSlots(1), UpToSecond(p, e.id));
      OldestBelow(m.queue.scheduler.bypass, 1, EligibleNow(1, m, {f.id}))
    ensures GrantStep(1, Exec(TwoSlots(1), UpToSecond(p, e.id)), {f.id}, f, Exec(TwoSlots(1), TwoGrants(p, e.id, f.id)))
    ensures var m := Exec(TwoSlots(1), UpToSecond(p, e.id));
      forall d :: d in EligibleNow(1, m, {f.id}) <==> d in m.queue.deque
  {
    var m := Exec(TwoSlots(1), UpToSecond(p, e.id));
    assert TwoGrants(p, e.id, f.id) == UpToSecond(p, e.id) + [Poll("a", {f.id}, Calm())] by { hide Opening, Calm; }
    assert m.now == 0.0 && m.queue.deque == Without(Queue(p), e.id) by { hide Exec, Opening, EligibleNow; }
    WithoutSmaller(Queue(p), e.id);
    hide *;
    AlwaysOwned(TwoSlots(1), UpToSecond(p, e.id));
    BetweenAtFront(p, b, e, m);
    forall d ensures d in EligibleNow(1, m, {f.id}) <==> d in m.queue.deque {
      BetweenEligible(p, m, {f.id}, d);
    }
    ReadyGranted(1, m, f);
    ExecSnoc(TwoSlots(1), UpToSecond(p, e.id), Poll("a", {f.id}, Calm()));
  }

  lemma {:induction false} WithoutSmaller(deque: seq<Entry>, id: Id)
    ensures forall d :: d in Without(deque, id) ==> d in deque
  {
    if deque != [] && deque[0].id != id {
      WithoutSmaller(deque[1..], id);
    }
  }

  /** An entry with the first ticket heads the eligible ones, if it is among them. */
  lemma FirstTicketLeads(n: nat, b: State, ready: set<Id>, e: Entry)
    requires Owned(TwoSlots(n), b) && e in EligibleNow(n, b, ready) && e.ticket == 0
    ensures EligibleNow(n, b, ready)[0] == e
  {
    assert Ordered(ByTicket, b.queue.deque) by { hide EligibleNow, TwoSlots; }
    hide Owned, TwoSlots, Eligible, PollSetting;
    EligibleKeepsOrder(ByTicket, PollSetting(n, b, ready), b.ledger, b.queue.deque);
    var es := EligibleNow(n, b, ready);
    var i :| 0 <= i < |es| && es[i] == e;
  }

  /** A single oldest entry below the limit. */
  lemma OneOldest(m: State, es: seq<Entry>, a: Entry)
    requires a in es && (forall d :: d in es && d != a ==> a.enqueuedAt < d.enqueuedAt) && Count(m, a) < 1
    ensures OldestBelow(m.queue.scheduler.bypass, 1, es)
  {
    forall d | IsOldest(es, d) ensures d == a { }
  }

  // ---------------------------------------------------------------------------
  // Past the limit
  // ---------------------------------------------------------------------------

  lemma LaneQueue()
    ensures var p := LanePlan();
      && Without(Queue(p), "c") == [EntryA(p), EntryB(p), EntryD(p)] && EntryA(p) in Queue(p) && EntryB(p) in Queue(p)
      && EntryC(p) in Queue(p)
  {
    var p := LanePlan();
    var q := Queue(p);
    assert q[1..] == [EntryB(p), EntryC(p), EntryD(p)] && q[1..][1..] == [EntryC(p), EntryD(p)]
      && q[1..][1..][1..] == [EntryD(p)];
  }

  /** Between the grants "a" has not been counted, for its lane hid it, and "b" has been counted once. */
  lemma LaneBetween(b: State, m: State)
    requires Opened(LanePlan(), b) && Between(LanePlan(), b, EntryC(LanePlan()), m)
    ensures Count(m, EntryA(LanePlan())) == 0 && Count(m, EntryB(LanePlan())) == 1
  {
    LaneQueue();
    LaneEligible(1, b, {"c"}, EntryA(LanePlan()));
    LaneEligible(1, b, {"c"}, EntryB(LanePlan()));
    hide EligibleNow, OpenLedger, Count, Queue, Without, Ledger.Reserve, Ledger.Complete;
  }

  lemma LaneOldest(m: State, es: seq<Entry>)
    requires var p := LanePlan(); m.queue.deque == [EntryA(p), EntryB(p), EntryD(p)]
    requires (forall d :: d in es <==> d in m.queue.deque) && Count(m, EntryA(LanePlan())) == 0
    ensures OldestBelow(m.queue.scheduler.bypass, 1, es)
  {
    assert EntryA(LanePlan()) in m.queue.deque;
    hide Count;
    OneOldest(m, es, EntryA(LanePlan()));
  }

  /** The two log entries of a run with two grants. */
  lemma TwoLogs(p: Plan, b: State, e: Entry, m: State, f: Entry, n: State)
    requires Opened(p, b) && Between(p, b, e, m) && GrantStep(1, m, {f.id}, f, n)
    ensures n.grants == [Grant(e, 0.0, Queue(p), EligibleNow(1, b, {e.id})),
                         Grant(f, 0.0, Without(Queue(p), e.id), EligibleNow(1, m, {f.id}))]
    ensures "a" in n.entries && n.entries["a"] == EntryA(p) && "b" in n.entries && n.entries["b"] == EntryB(p)
    ensures forall d :: d in Without(Queue(p), e.id) && d.id != f.id ==>
      Count(n, d) == Count(m, d) + if d in EligibleNow(1, m, {f.id}) && d.enqueuedAt < f.enqueuedAt then 1 else 0
  {
    hide EligibleNow, OpenLedger, Count, Queue, Without, Ledger.Reserve, Ledger.Complete;
  }

  /** A later grant, made at time zero, overtakes whoever was queued then. */
  lemma OvertakesAt(g: Grant, e: Entry)
    requires g.at == 0.0 && e in g.deque && e.ticket < g.entry.ticket && e.deadline == 60.0
    ensures Overtakes(g, e)
  {}

  lemma LaneEntries(p: Plan)
    requires p == LanePlan()
    ensures EntryB(p).id == "b" && EntryC(p).id == "c" && EntryD(p).id == "d" && EntryB(p).deadline == 60.0
    ensures EntryB(p).ticket == 1 && EntryC(p).ticket == 2 && EntryD(p).ticket == 3
    ensures EntryB(p).enqueuedAt < EntryC(p).enqueuedAt < EntryD(p).enqueuedAt
  {}

  /** Both grants go over the head of "b", and both are counted. */
  lemma LaneCounts(b: State, m: State, f: State)
    requires var p := LanePlan();
      && Opened(p, b) && Between(p, b, EntryC(p), m) && GrantStep(1, m, {"d"}, EntryD(p), f)
      && EntryB(p) in EligibleNow(1, m, {"d"})
    ensures Count(f, EntryB(LanePlan())) == 2 && TimesOvertaken(f.grants, EntryB(LanePlan())) == 2
    ensures "b" in f.entries && f.entries["b"] == EntryB(LanePlan())
  {
    hide *;
    var p := LanePlan();
    var eb, ec, ed := EntryB(p), EntryC(p), EntryD(p);
    LaneEntries(p);
    LaneQueue();
    assert eb in [EntryA(p), eb, ed];
    LaneBetween(b, m);
    TwoLogs(p, b, ec, m, ed, f);
    OvertakesAt(f.grants[0], eb);
    OvertakesAt(f.grants[1], eb);
    OvertakenTwice(f.grants[0], f.grants[1], eb);
  }

  lemma LaneState()
    ensures var p := LanePlan();
            var b, m := Exec(TwoSlots(1), Opening(p)), Exec(TwoSlots(1), UpToSecond(p, "c"));
      && Opened(p, b) && Between(p, b, EntryC(p), m)
      && GrantStep(1, m, {"d"}, EntryD(p), Exec(TwoSlots(1), TwoGrants(p, "c", "d")))
      && EntryB(p) in EligibleNow(1, m, {"d"})
  {
    var p := LanePlan();
    var b, m := Exec(TwoSlots(1), Opening(p)), Exec(TwoSlots(1), UpToSecond(p, "c"));
    var a, c, d := EntryA(p), EntryC(p), EntryD(p);
    assert c.id == "c" && c.lane == None && d.id == "d" && d.lane == None && a != c && p.lane == Some("v");
    LanePlanOk(1);
    LaneQueue();
    hide *;
    OpenedAtFront(1, p);
    LaneEligible(1, b, {"c"}, c);
    FirstHalf(p, c);
    LaneBetween(b, m);
    BetweenQueue(p, b, c, m);
    LaneMiddle(b, m);
    SecondHalf(p, b, c, d);
  }

  lemma BetweenQueue(p: Plan, b: State, e: Entry, m: State)
    requires Between(p, b, e, m)
    ensures m.queue.deque == Without(Queue(p), e.id) && m.now == 0.0
  {
    hide EligibleNow;
  }

  lemma LaneMiddle(b: State, m: State)
    requires var p := LanePlan();
      && Opened(p, b) && Between(p, b, EntryC(p), m) && m == Exec(TwoSlots(1), UpToSecond(p, "c"))
      && m.queue.deque == [EntryA(p), EntryB(p), EntryD(p)] && m.now == 0.0 && Count(m, EntryA(p)) == 0
    ensures OldestBelow(m.queue.scheduler.bypass, 1, EligibleNow(1, m, {"d"}))
    ensures EntryB(LanePlan()) in EligibleNow(1, m, {"d"})
  {
    var p := LanePlan();
    AlwaysOwned(TwoSlots(1), UpToSecond(p, "c"));
    assert forall d :: d in m.queue.deque ==> d in Queue(p);
    assert EntryB(p) in m.queue.deque && p.lane == Some("v") && EntryC(p).id == "c";
    hide *;
    BetweenAtFront(p, b, EntryC(p), m);
    forall d ensures d in EligibleNow(1, m, {"d"}) <==> d in m.queue.deque {
      BetweenEligible(p, m, {"d"}, d);
    }
    LaneOldest(m, EligibleNow(1, m, {"d"}));
  }

  /**
  With strictly increasing stamps and one bypass allowed, "b" is counted twice and overtaken twice: while its lane hides
  "a", "b" is the oldest candidate and uses up its limit; once "a" is back, only "a" is protected.
  */
  lemma LimitProtectsOnlyTheOldest()
    ensures var evs := TwoGrants(LanePlan(), "c", "d");
            var f := Exec(TwoSlots(1), evs);
      && BrokerOrder.StampsOrdered(evs, true) && "b" in f.entries
      && Count(f, f.entries["b"]) > TwoSlots(1).maxBypass
      && TimesOvertaken(f.grants, f.entries["b"]) > TwoSlots(1).maxBypass
  {
    var p := LanePlan();
    assert TwoSlots(1).maxBypass == 1;
    var last := [Poll("a", {"c"}, Calm()), Finish("x", CompleteIt), Poll("a", {"d"}, Calm())];
    assert TwoGrants(p, "c", "d") == Opening(p) + last by { hide Opening, Calm; }
    StampsRise(p, last);
    hide *;
    LaneState();
    LaneCounts(Exec(TwoSlots(1), Opening(p)), Exec(TwoSlots(1), UpToSecond(p, "c")),
        Exec(TwoSlots(1), TwoGrants(p, "c", "d")));
  }

  // ---------------------------------------------------------------------------
  // Equal stamps
  // ---------------------------------------------------------------------------

  function TiePlan(): Plan { Plan(None, 1.0, 1.0, 2.0, 3.0) }

  lemma TieQueue()
    ensures var p := TiePlan();
      && Without(Queue(p), "b") == [EntryA(p), EntryC(p), EntryD(p)] && EntryA(p) in Queue(p) && EntryB(p) in Queue(p)
      && LaneMax(TwoSlots(1), p.lane) == LaneCeiling(p.lane)
  {
    var p := TiePlan();
    var q := Queue(p);
    assert q[1..] == [EntryB(p), EntryC(p), EntryD(p)] && q[1..][1..] == [EntryC(p), EntryD(p)];
  }

  lemma TieEligible(b: State, ready: set<Id>, e: Entry)
    requires Opened(TiePlan(), b)
    ensures e in EligibleNow(1, b, ready) <==> e in Queue(TiePlan())
  {
    OpenCounts(None);
    hide Ledger.ActiveJobs, Ledger.ActiveJobsFor, OpenLedger, EligibleNow;
    EligibleIs(1, b, ready, e);
  }

  /** Passing over "a" for "b" is not counted, because "a" is not strictly older. */
  lemma TieBetween(b: State, m: State)
    requires Opened(TiePlan(), b) && Between(TiePlan(), b, EntryB(TiePlan()), m)
    ensures Count(m, EntryA(TiePlan())) == 0
  {
    TieQueue();
    hide EligibleNow, OpenLedger, Count, Queue, Without, Ledger.Reserve, Ledger.Complete;
  }

  lemma TieOldest(m: State, es: seq<Entry>)
    requires var p := TiePlan(); m.queue.deque == [EntryA(p), EntryC(p), EntryD(p)]
    requires (forall d :: d in es <==> d in m.queue.deque) && Count(m, EntryA(TiePlan())) == 0
    ensures OldestBelow(m.queue.scheduler.bypass, 1, es)
  {
    assert EntryA(TiePlan()) in m.queue.deque;
    hide Count;
    OneOldest(m, es, EntryA(TiePlan()));
  }

  lemma TieMiddle(b: State, m: State)
    requires var p := TiePlan();
      && Opened(p, b) && Between(p, b, EntryB(p), m) && m == Exec(TwoSlots(1), UpToSecond(p, "b"))
      && m.queue.deque == [EntryA(p), EntryC(p), EntryD(p)] && m.now == 0.0 && Count(m, EntryA(p)) == 0
    ensures OldestBelow(m.queue.scheduler.bypass, 1, EligibleNow(1, m, {"c"}))
    ensures EntryA(TiePlan()) in EligibleNow(1, m, {"c"}) && Owned(TwoSlots(1), m)
  {
    var p := TiePlan();
    AlwaysOwned(TwoSlots(1), UpToSecond(p, "b"));
    assert forall d :: d in m.queue.deque ==> d in Queue(p);
    assert EntryA(p) in m.queue.deque && p.lane == None && EntryB(p).id == "b";
    hide *;
    BetweenAtFront(p, b, EntryB(p), m);
    forall d ensures d in EligibleNow(1, m, {"c"}) <==> d in m.queue.deque {
      BetweenEligible(p, m, {"c"}, d);
    }
    TieOldest(m, EligibleNow(1, m, {"c"}));
  }

  lemma TieState()
    ensures var p := TiePlan();
            var b, m := Exec(TwoSlots(1), Opening(p)), Exec(TwoSlots(1), UpToSecond(p, "b"));
      && Opened(p, b) && Between(p, b, EntryB(p), m)
      && GrantStep(1, m, {"c"}, EntryC(p), Exec(TwoSlots(1), TwoGrants(p, "b", "c")))
      && EntryA(p) in EligibleNow(1, b, {"b"}) && EntryA(p) in EligibleNow(1, m, {"c"})
      && Owned(TwoSlots(1), b) && Owned(TwoSlots(1), m)
  {
    var p := TiePlan();
    var b, m := Exec(TwoSlots(1), Opening(p)), Exec(TwoSlots(1), UpToSecond(p, "b"));
    var a, e, c := EntryA(p), EntryB(p), EntryC(p);
    assert e.id == "b" && e.lane == None && c.id == "c" && c.lane == None && p.lane == None;
    TieQueue();
    AlwaysOwned(TwoSlots(1), Opening(p));
    hide *;
    OpenedAtFront(1, p);
    TieEligible(b, {"b"}, a);
    TieEligible(b, {"b"}, e);
    FirstHalf(p, e);
    TieBetween(b, m);
    BetweenQueue(p, b, e, m);
    TieMiddle(b, m);
    SecondHalf(p, b, e, c);
  }

  /** Both grants pass over "a", the oldest candidate each time. */
  lemma TieCounts(b: State, m: State, f: State)
    requires var p := TiePlan();
      && Opened(p, b) && Between(p, b, EntryB(p), m) && GrantStep(1, m, {"c"}, EntryC(p), f)
      && EntryA(p) in EligibleNow(1, b, {"b"}) && EntryA(p) in EligibleNow(1, m, {"c"})
      && Owned(TwoSlots(1), b) && Owned(TwoSlots(1), m)
    ensures var a := EntryA(TiePlan());
      TimesOvertaken(f.grants, a) == 2 && TimesPassedOver(f.grants, a) == 2 && "a" in f.entries && f.entries["a"] == a
  {
    var p := TiePlan();
    var a, e, c := EntryA(p), EntryB(p), EntryC(p);
    TieQueue();
    assert e.id == "b" && c.id == "c" && a.ticket == 0 && e.ticket == 1 && c.ticket == 2 && a.deadline == 60.0;
    assert a in Without(Queue(p), "b");
    hide *;
    TwoLogs(p, b, e, m, c, f);
    FirstTicketLeads(1, b, {"b"}, a);
    FirstTicketLeads(1, m, {"c"}, a);
    OvertakesAt(f.grants[0], a);
    OvertakesAt(f.grants[1], a);
    PassesOverAt(f.grants[0], a);
    PassesOverAt(f.grants[1], a);
    OvertakenTwice(f.grants[0], f.grants[1], a);
  }

  lemma PassesOverAt(g: Grant, e: Entry)
    requires g.eligible != [] && g.eligible[0] == e && g.entry.ticket != e.ticket
    ensures PassesOver(g, e)
  {}

  /**
  With one bypass allowed and the stamps of "a" and "b" equal, "a" is passed over twice as the oldest candidate: passing
  over it for "b" is not counted.
  */
  lemma TiesPassTheLimit()
    ensures var f := Exec(TwoSlots(1), TwoGrants(TiePlan(), "b", "c"));
      && "a" in f.entries && TimesPassedOver(f.grants, f.entries["a"]) > TwoSlots(1).maxBypass
      && TimesOvertaken(f.grants, f.entries["a"]) > TwoSlots(1).maxBypass
    ensures BrokerOrder.StampsOrdered(TwoGrants(TiePlan(), "b", "c"), false)
  {
    var p := TiePlan();
    assert TwoSlots(1).maxBypass == 1;
    assert BrokerOrder.StampsOrdered(TwoGrants(p, "b", "c"), false) by { hide Calm; }
    hide *;
    TieState();
    TieCounts(Exec(TwoSlots(1), Opening(p)), Exec(TwoSlots(1), UpToSecond(p, "b")),
        Exec(TwoSlots(1), TwoGrants(p, "b", "c")));
  }
}
