/**
The broker as a step system: arrivals, polls of waiting callers, starts, cancellations, completions and the
clock, in any order.  `Next` is one step and `Exec` a whole run; events carry everything the code takes from
outside, so the theorems over all event sequences are theorems over all runs.
*/
module Broker {
  import opened Core
  import opened Runtime
  import opened RequestQueues
  import Capacity
  import Context
  import Scheduling

  datatype Config = Config(
    policy: Scheduling.Policy, maxBypass: nat, maxQueueDepth: int, limits: Capacity.Limits,
    timeout: real, maxActive: int, ceilings: map<string, int>)

  /** Controller inputs that may differ from one step to the next. */
  datatype Env = Env(
    mode: Capacity.Mode, profile: Capacity.ProfileStatus, deny: bool, reported: Capacity.ReportedPressure)

  /** A grant, with the deque and the eligible entries it was chosen from. */
  datatype Grant = Grant(entry: Entry, at: real, deque: seq<Entry>, eligible: seq<Entry>)

  /** A return of wait_for_execution. */
  datatype Return = Return(id: Id, ok: bool, at: real)

  datatype StartKind = RunNow | StreamNow | StreamUnsupported
  datatype FinishKind = CompleteIt | FailIt | AbortIt

  datatype Event =
    | Chat(id: Id, lane: Lane, stamp: real, stream: bool, shape: Capacity.Shape, cost: Context.Cost,
           budgets: Option<Context.Budgets>, env: Env)
    | Generate(id: Id, lane: Lane, overLimit: bool, env: Env)
    | Poll(id: Id, ready: set<Id>, env: Env)
    | Start(id: Id, startKind: StartKind)
    | CancelCall(id: Id)
    | Finish(id: Id, finishKind: FinishKind)
    | Advance(delta: real)

  datatype State = State(
    queue: QueueState, ledger: Ledger, entries: map<Id, Entry>, arrivals: nat,
    waiting: set<Id>, claimed: set<Id>, executing: set<Id>, tokens: set<Id>,
    now: real, grants: seq<Grant>, returned: seq<Return>)

  function Init(): State {
    State(QueueState([], {}, Scheduling.SchedulerState(map[], 0, 0, None)), Ledger(map[], map[]), map[], 0,
          {}, {}, {}, {}, 0.0, [], [])
  }

  function ControllerOf(cfg: Config, env: Env): Capacity.Controller {
    Capacity.Controller(env.mode, cfg.maxActive, env.profile, env.deny)
  }

  function LimitOf(cfg: Config, env: Env): nat {
    Capacity.EffectiveLimit(ControllerOf(cfg, env), Capacity.ClassOf(env.reported))
  }

  function LaneMax(cfg: Config, lane: Lane): Option<int> {
    if Capacity.Named(lane) && lane.value in cfg.ceilings then Some(cfg.ceilings[lane.value]) else None
  }

  function SettingOf(cfg: Config, b: State, ready: set<Id>, env: Env): Setting {
    Setting(cfg.policy, cfg.maxBypass, ControllerOf(cfg, env), Capacity.ClassOf(env.reported), b.now, ready)
  }

  // ---------------------------------------------------------------------------
  // Steps
  // ---------------------------------------------------------------------------

  /** Admission, lifecycle record and mark_running happen with no await between them. */
  function AdmitNow(b: State, id: Id, lane: Lane, st: Status): State {
    b.(ledger := b.ledger.Begin(id, lane).MarkExecuting(id, st), executing := b.executing + {id})
  }

  function NewEntry(cfg: Config, b: State, id: Id, lane: Lane, stamp: real): Entry {
    Entry(id, stamp, lane, LaneMax(cfg, lane), b.now + cfg.timeout, b.arrivals)
  }

  function Enqueue(b: State, e: Entry): State {
    b.(ledger := b.ledger.Begin(e.id, e.lane).MarkQueued(e.id),
       queue := b.queue.(deque := b.queue.deque + [e]),
       entries := b.entries[e.id := e], arrivals := b.arrivals + 1, waiting := b.waiting + {e.id})
  }

  function ContextOf(cfg: Config, b: State, ev: Event): Capacity.CapacityContext
    requires ev.Chat?
  {
    Capacity.AdmissionContext(b.ledger.ActiveJobs(), b.ledger.QueueDepth(), cfg.maxQueueDepth,
                              Capacity.ClassOf(ev.env.reported), ev.cost, ev.budgets, ev.lane, LaneMax(cfg, ev.lane),
                              b.ledger.ActiveJobsFor(ev.lane))
  }

  function ChatStep(cfg: Config, b: State, ev: Event): State
    requires ev.Chat?
  {
    match Capacity.EvaluateChat(cfg.limits, ev.shape, ControllerOf(cfg, ev.env), ContextOf(cfg, b, ev))
    case Accepted => AdmitNow(b, ev.id, ev.lane, if ev.stream then Streaming else Running)
    case Queued => Enqueue(b, NewEntry(cfg, b, ev.id, ev.lane, ev.stamp))
    case _ => b
  }

  function GenerateStep(cfg: Config, b: State, ev: Event): State
    requires ev.Generate?
  {
    if !ev.overLimit && Capacity.ActiveCapacityAvailable(ControllerOf(cfg, ev.env), Capacity.ClassOf(ev.env.reported),
         b.ledger.ActiveJobs(), ev.lane, LaneMax(cfg, ev.lane), b.ledger.ActiveJobsFor(ev.lane))
    then AdmitNow(b, ev.id, ev.lane, Running)
    else b
  }

  /** Whether this poll gets as far as a selection that grants something. */
  predicate Grants(s: Setting, b: State, id: Id) {
    && id !in b.tokens && id !in b.queue.granted
    && b.queue.deque != [] && b.queue.deque[0].id == id && GlobalRoom(s, b.ledger)
    && Eligible(s, b.ledger, b.queue.deque) != []
  }

  function GrantLog(s: Setting, b: State, id: Id): seq<Grant> {
    if Grants(s, b, id)
    then [Grant(Chosen(s, b.queue, b.ledger), b.now, b.queue.deque, Eligible(s, b.ledger, b.queue.deque))]
    else []
  }

  /** One poll, and what the handler does with a return: nothing awaits between them. */
  function PollStep(s: Setting, b: State, id: Id): State
    requires id in b.entries
  {
    var p := PollOnce(s, b.queue, b.ledger, b.entries[id], id in b.tokens);
    var b1 := b.(queue := p.queue, ledger := p.ledger, grants := b.grants + GrantLog(s, b, id));
    match p.verdict
    case Wait => b1
    case Execute => b1.(waiting := b.waiting - {id}, claimed := b.claimed + {id},
                        returned := b.returned + [Return(id, true, b.now)])
    case GiveUpCancelled => b1.(waiting := b.waiting - {id}, ledger := p.ledger.Cancel(id),
                                returned := b.returned + [Return(id, false, b.now)])
    case GiveUpTimedOut => b1.(waiting := b.waiting - {id}, ledger := p.ledger.MarkTimedOut(id),
                               returned := b.returned + [Return(id, false, b.now)])
  }

  /** A released caller starts executing, or fails because its adapter cannot stream. */
  function StartStep(b: State, id: Id, kind: StartKind): State {
    match kind
    case RunNow =>
      b.(claimed := b.claimed - {id}, executing := b.executing + {id}, ledger := b.ledger.MarkExecuting(id, Running))
    case StreamNow =>
      b.(claimed := b.claimed - {id}, executing := b.executing + {id}, ledger := b.ledger.MarkExecuting(id, Streaming))
    case StreamUnsupported => b.(claimed := b.claimed - {id}, ledger := b.ledger.Fail(id))
  }

  function FinishStep(b: State, id: Id, kind: FinishKind): State {
    b.(executing := b.executing - {id},
       ledger := match kind
                 case CompleteIt => b.ledger.Complete(id)
                 case FailIt => b.ledger.Fail(id)
                 case AbortIt => b.ledger.Cancel(id))
  }

  /** The cancellation endpoint signals the token and marks the record; a queued entry stays until its caller polls. */
  function CancelStep(b: State, id: Id): State {
    b.(tokens := b.tokens + {id}, ledger := b.ledger.Cancel(id))
  }

  /** Events that do not apply leave the state alone; ids of new requests are fresh. */
  function Next(cfg: Config, b: State, ev: Event): State {
    match ev
    case Chat(id, _, _, _, _, _, _, _) => if id in b.ledger.records then b else ChatStep(cfg, b, ev)
    case Generate(id, _, _, _) => if id in b.ledger.records then b else GenerateStep(cfg, b, ev)
    case Poll(id, ready, env) =>
      if id in b.waiting && id in b.entries then PollStep(SettingOf(cfg, b, ready, env), b, id) else b
    case Start(id, kind) => if id in b.claimed then StartStep(b, id, kind) else b
    case Finish(id, kind) => if id in b.executing then FinishStep(b, id, kind) else b
    case CancelCall(id) =>
      if id in b.ledger.records && !b.ledger.records[id].status.Terminal() then CancelStep(b, id) else b
    case Advance(delta) => if delta > 0.0 then b.(now := b.now + delta) else b
  }

  function Exec(cfg: Config, evs: seq<Event>): State {
    if evs == [] then Init() else Next(cfg, Exec(cfg, evs[..|evs|-1]), evs[|evs|-1])
  }

  // ---------------------------------------------------------------------------
  // Ownership: what is true of every request in every reachable state
  // ---------------------------------------------------------------------------

  /** One request's place in the protocol. */
  datatype View = View(
    known: bool, status: Status, queued: bool, granted: bool, waiting: bool, claimed: bool, executing: bool,
    cancelled: bool, reserved: bool, entered: bool)

  ghost function ViewOf(b: State, id: Id): View {
    var known := id in b.ledger.records;
    View(known, if known then b.ledger.records[id].status else Completed,
         Holds(b.queue.deque, id), id in b.queue.granted, id in b.waiting, id in b.claimed, id in b.executing,
         id in b.tokens, id in b.ledger.reservations, id in b.entries)
  }

  /** The places the protocol allows. */
  ghost predicate Legal(v: View) {
    if v.waiting then
      && v.known && v.entered && !v.claimed && !v.executing
      && (v.queued <==> !v.granted)
      && v.status == (if v.cancelled then Cancelled else Queued)
      && (v.queued ==> !v.reserved)
      && (v.granted && !v.cancelled ==> v.reserved)
    else if v.claimed then
      && v.known && v.entered && !v.executing && !v.queued && v.granted
      && (v.status == Queued || v.status == Cancelled) && (v.reserved <==> v.status == Queued)
    else if v.executing then
      v.known && !v.queued && !v.reserved && (v.status == Running || v.status == Streaming || v.status == Cancelled)
    else
      && !v.queued && !v.reserved
      && (v.known ==> v.status.Terminal())
      && (!v.known ==> !v.entered && !v.granted && !v.cancelled)
  }

  ghost predicate Owned(cfg: Config, b: State) {
    && DistinctIds(b.queue.deque) && Ordered(ByTicket, b.queue.deque)
    && (forall e :: e in b.queue.deque ==> e.id in b.entries && b.entries[e.id] == e)
    && (forall id :: Legal(ViewOf(b, id)))
    && (forall id :: id in b.entries ==>
          && id in b.ledger.records && b.entries[id].id == id && b.entries[id].ticket < b.arrivals
          && b.entries[id].lane == b.ledger.records[id].lane
          && b.entries[id].laneMax == LaneMax(cfg, b.entries[id].lane))
    && (forall id :: id in b.ledger.reservations ==>
          id in b.ledger.records && b.ledger.reservations[id] == b.ledger.records[id].lane)
  }

  lemma HoldsAfterRemoval(deque: seq<Entry>, id: Id)
    requires DistinctIds(deque)
    ensures forall x :: Holds(Without(deque, id), x) <==> Holds(deque, x) && x != id
  {
    WithoutExactly(deque, id);
    forall x | Holds(deque, x) && x != id ensures Holds(Without(deque, id), x) {
      var e :| e in deque && e.id == x;
      assert e in Without(deque, id);
    }
  }

  lemma HoldsAfterAppend(deque: seq<Entry>, e: Entry)
    ensures forall x :: Holds(deque + [e], x) <==> Holds(deque, x) || x == e.id
  {
    assert e in deque + [e];
    forall x | Holds(deque, x) ensures Holds(deque + [e], x) {
      var d :| d in deque && d.id == x;
      assert d in deque + [e];
    }
  }

  lemma AdmitOwned(cfg: Config, b: State, id: Id, lane: Lane, st: Status)
    requires Owned(cfg, b) && id !in b.ledger.records && (st == Running || st == Streaming)
    ensures Owned(cfg, AdmitNow(b, id, lane, st))
  {
    var b' := AdmitNow(b, id, lane, st);
    assert Legal(ViewOf(b, id));
    forall x ensures Legal(ViewOf(b', x)) {
      assert Legal(ViewOf(b, x));
      if x != id { assert ViewOf(b', x) == ViewOf(b, x); }
    }
  }

  lemma EnqueueOwned(cfg: Config, b: State, id: Id, lane: Lane, stamp: real)
    requires Owned(cfg, b) && id !in b.ledger.records
    ensures Owned(cfg, Enqueue(b, NewEntry(cfg, b, id, lane, stamp)))
  {
    var e := NewEntry(cfg, b, id, lane, stamp);
    var b' := Enqueue(b, e);
    assert Legal(ViewOf(b, id));
    HoldsAfterAppend(b.queue.deque, e);
    forall x ensures Legal(ViewOf(b', x)) {
      assert Legal(ViewOf(b, x));
      if x != id { assert ViewOf(b', x) == ViewOf(b, x); }
    }
    forall d | d in b.queue.deque ensures d.id != id && d.ticket < e.ticket {
      assert Holds(b.queue.deque, d.id);
    }
  }

  /** The state right after a selection granted `e`. */
  function AfterGrant(b: State, sch: Scheduling.SchedulerState, e: Entry, log: seq<Grant>): State {
    var sel := GrantTo(b.queue.(scheduler := sch), b.ledger, e);
    b.(queue := sel.queue, ledger := sel.ledger, grants := log)
  }

  lemma GrantOwned(cfg: Config, b: State, sch: Scheduling.SchedulerState, e: Entry, log: seq<Grant>)
    requires Owned(cfg, b) && e in b.queue.deque
    ensures Owned(cfg, AfterGrant(b, sch, e, log))
    ensures ViewOf(AfterGrant(b, sch, e, log), e.id) ==
      ViewOf(b, e.id).(queued := false, granted := true, reserved := true)
    ensures forall x :: x != e.id ==> ViewOf(AfterGrant(b, sch, e, log), x) == ViewOf(b, x)
    ensures AfterGrant(b, sch, e, log).queue.deque == Without(b.queue.deque, e.id)
  {
    var b' := AfterGrant(b, sch, e, log);
    assert Holds(b.queue.deque, e.id);
    assert Legal(ViewOf(b, e.id));
    HoldsAfterRemoval(b.queue.deque, e.id);
    WithoutKeepsOrder(ByIdentity, b.queue.deque, e.id);
    WithoutKeepsOrder(ByTicket, b.queue.deque, e.id);
    forall x ensures Legal(ViewOf(b', x)) {
      assert Legal(ViewOf(b, x));
    }
  }

  /** A caller that gives up leaves the deque and hands back whatever it held. */
  function AfterLeave(b: State, id: Id, st: Status, log: seq<Return>): State {
    b.(queue := Remove(b.queue, id), ledger := b.ledger.WithStatus(id, st).Release(id),
       waiting := b.waiting - {id}, returned := log)
  }

  lemma LeaveOwned(cfg: Config, b: State, id: Id, st: Status, log: seq<Return>)
    requires Owned(cfg, b) && id in b.waiting && (st == Cancelled || st == TimedOut)
    ensures Owned(cfg, AfterLeave(b, id, st, log))
    ensures !Holds(AfterLeave(b, id, st, log).queue.deque, id)
  {
    var b' := AfterLeave(b, id, st, log);
    HoldsAfterRemoval(b.queue.deque, id);
    WithoutKeepsOrder(ByIdentity, b.queue.deque, id);
    WithoutKeepsOrder(ByTicket, b.queue.deque, id);
    forall x ensures Legal(ViewOf(b', x)) {
      assert Legal(ViewOf(b, x));
      if x != id { assert ViewOf(b', x) == ViewOf(b, x); }
    }
  }

  function AfterClaim(b: State, id: Id, log: seq<Return>): State {
    b.(waiting := b.waiting - {id}, claimed := b.claimed + {id}, returned := log)
  }

  lemma ClaimOwned(cfg: Config, b: State, id: Id, log: seq<Return>)
    requires Owned(cfg, b) && id in b.waiting && id in b.queue.granted && id !in b.tokens
    ensures Owned(cfg, AfterClaim(b, id, log))
    ensures !Holds(AfterClaim(b, id, log).queue.deque, id)
  {
    var b' := AfterClaim(b, id, log);
    assert Legal(ViewOf(b, id));
    forall x ensures Legal(ViewOf(b', x)) {
      assert Legal(ViewOf(b, x));
      if x != id { assert ViewOf(b', x) == ViewOf(b, x); }
    }
  }

  /** Only the scheduler's books and the logs change. */
  lemma BooksOwned(cfg: Config, b: State, sch: Scheduling.SchedulerState, log: seq<Grant>)
    requires Owned(cfg, b)
    ensures Owned(cfg, b.(queue := b.queue.(scheduler := sch), grants := log))
  {
    var b' := b.(queue := b.queue.(scheduler := sch), grants := log);
    forall x ensures Legal(ViewOf(b', x)) {
      assert Legal(ViewOf(b, x));
      assert ViewOf(b', x) == ViewOf(b, x);
    }
  }

  lemma StartOwned(cfg: Config, b: State, id: Id, kind: StartKind)
    requires Owned(cfg, b) && id in b.claimed
    ensures Owned(cfg, StartStep(b, id, kind))
  {
    var b' := StartStep(b, id, kind);
    forall x ensures Legal(ViewOf(b', x)) {
      assert Legal(ViewOf(b, x));
      if x != id { assert ViewOf(b', x) == ViewOf(b, x); }
    }
  }

  lemma FinishOwned(cfg: Config, b: State, id: Id, kind: FinishKind)
    requires Owned(cfg, b) && id in b.executing
    ensures Owned(cfg, FinishStep(b, id, kind))
  {
    var b' := FinishStep(b, id, kind);
    forall x ensures Legal(ViewOf(b', x)) {
      assert Legal(ViewOf(b, x));
      if x != id { assert ViewOf(b', x) == ViewOf(b, x); }
    }
  }

  lemma CancelOwned(cfg: Config, b: State, id: Id)
    requires Owned(cfg, b) && id in b.ledger.records && !b.ledger.records[id].status.Terminal()
    ensures Owned(cfg, CancelStep(b, id))
  {
    var b' := CancelStep(b, id);
    forall x ensures Legal(ViewOf(b', x)) {
      assert Legal(ViewOf(b, x));
      if x != id { assert ViewOf(b', x) == ViewOf(b, x); }
    }
  }

  /** The part of a poll that selects: a grant, or only a recorded refusal. */
  function AfterSelect(s: Setting, b: State, id: Id): State {
    if Grants(s, b, id)
    then AfterGrant(b, Decided(s, b.queue, b.ledger), Chosen(s, b.queue, b.ledger), b.grants + GrantLog(s, b, id))
    else b.(queue := SelectAndDequeue(s, b.queue, b.ledger).queue)
  }

  predicate Selects(s: Setting, b: State, id: Id) {
    id !in b.tokens && id !in b.queue.granted && b.queue.deque != [] && b.queue.deque[0].id == id
    && GlobalRoom(s, b.ledger)
  }

  /** A poll is a selection, if the caller gets to one, followed by a claim, a leave or more waiting. */
  lemma PollCases(s: Setting, b: State, id: Id)
    requires id in b.entries && b.entries[id].id == id && id !in b.queue.granted + b.tokens
    requires Selects(s, b, id)
    ensures var g, expired := AfterSelect(s, b, id), Expired(s.now, b.entries[id]);
      && (Grants(s, b, id) && Chosen(s, b.queue, b.ledger).id == id ==>
            PollStep(s, b, id) == AfterClaim(g, id, b.returned + [Return(id, true, b.now)]))
      && (!(Grants(s, b, id) && Chosen(s, b.queue, b.ledger).id == id) ==>
            PollStep(s, b, id) ==
              if expired then AfterLeave(g, id, TimedOut, b.returned + [Return(id, false, b.now)]) else g)
  {
    SelectionIs(s, b, id);
    hide SelectAndDequeue, AfterSelect, Grants, Chosen, Remove, GrantLog, GlobalRoom;
  }

  /** The selection inside a poll, seen from the broker's state. */
  lemma SelectionIs(s: Setting, b: State, id: Id)
    requires Selects(s, b, id)
    ensures var sel := SelectAndDequeue(s, b.queue, b.ledger);
      && AfterSelect(s, b, id) == b.(queue := sel.queue, ledger := sel.ledger, grants := b.grants + GrantLog(s, b, id))
      && (sel.selected.Some? <==> Grants(s, b, id))
      && (Grants(s, b, id) ==> sel.selected.value == Chosen(s, b.queue, b.ledger))
  {
    assert Live(s, b.queue.deque) == [] ==> Eligible(s, b.ledger, b.queue.deque) == [];
    hide Scheduling.Decide, Candidates, Remove, Eligible, GlobalRoom, LaneRoom, Chosen, Decided, Live, Ledger.Reserve;
    assert !Grants(s, b, id) ==> b.grants + GrantLog(s, b, id) == b.grants;
  }

  lemma PollOtherCases(s: Setting, b: State, id: Id)
    requires id in b.entries && b.entries[id].id == id && !Selects(s, b, id)
    ensures var expired := Expired(s.now, b.entries[id]);
      PollStep(s, b, id) ==
        if id in b.tokens then AfterLeave(b, id, Cancelled, b.returned + [Return(id, false, b.now)])
        else if expired then AfterLeave(b, id, TimedOut, b.returned + [Return(id, false, b.now)])
        else if id in b.queue.granted then AfterClaim(b, id, b.returned + [Return(id, true, b.now)])
        else b
  {
    assert b.grants + [] == b.grants;
  }

  lemma ChosenIsQueued(s: Setting, q: QueueState, l: Ledger)
    requires Eligible(s, l, q.deque) != []
    ensures Chosen(s, q, l) in q.deque && !Expired(s.now, Chosen(s, q, l)) && LaneRoom(s, l, Chosen(s, q, l))
  {
    EligibleExactly(s, l, q.deque, Chosen(s, q, l));
  }

  lemma SelectOwned(cfg: Config, s: Setting, b: State, id: Id)
    requires Owned(cfg, b) && id in b.waiting && Selects(s, b, id)
    ensures var g := AfterSelect(s, b, id);
      && Owned(cfg, g) && id in g.waiting && g.tokens == b.tokens && g.entries == b.entries
      && (id in g.queue.granted <==> Grants(s, b, id) && Chosen(s, b.queue, b.ledger).id == id)
  {
    hide Chosen, Decided, Eligible, GlobalRoom, Legal, Owned;
    if Grants(s, b, id) {
      ChosenIsQueued(s, b.queue, b.ledger);
      GrantOwned(cfg, b, Decided(s, b.queue, b.ledger), Chosen(s, b.queue, b.ledger), b.grants + GrantLog(s, b, id));
    } else {
      BooksOwned(cfg, b, SelectAndDequeue(s, b.queue, b.ledger).queue.scheduler, b.grants);
    }
  }

  lemma PollOwned(cfg: Config, s: Setting, b: State, id: Id)
    requires Owned(cfg, b) && id in b.waiting && id in b.entries
    ensures Owned(cfg, PollStep(s, b, id))
  {
    hide AfterSelect, PollStep, AfterLeave, AfterClaim, PollOnce;
    var lost, won := b.returned + [Return(id, false, b.now)], b.returned + [Return(id, true, b.now)];
    if Selects(s, b, id) {
      PollCases(s, b, id);
      SelectOwned(cfg, s, b, id);
      var g := AfterSelect(s, b, id);
      if id in g.queue.granted {
        ClaimOwned(cfg, g, id, won);
      } else if Expired(s.now, b.entries[id]) {
        LeaveOwned(cfg, g, id, TimedOut, lost);
      }
    } else {
      PollOtherCases(s, b, id);
      if id in b.tokens {
        LeaveOwned(cfg, b, id, Cancelled, lost);
      } else if Expired(s.now, b.entries[id]) {
        LeaveOwned(cfg, b, id, TimedOut, lost);
      } else if id in b.queue.granted {
        ClaimOwned(cfg, b, id, won);
      }
    }
  }

  lemma LaterOwned(cfg: Config, b: State, now: real)
    requires Owned(cfg, b)
    ensures Owned(cfg, b.(now := now))
  {
    forall x ensures Legal(ViewOf(b.(now := now), x)) {
      assert Legal(ViewOf(b, x));
      assert ViewOf(b.(now := now), x) == ViewOf(b, x);
    }
  }

  lemma NextOwned(cfg: Config, b: State, ev: Event)
    requires Owned(cfg, b)
    ensures Owned(cfg, Next(cfg, b, ev))
  {
    hide PollStep, StartStep, FinishStep, CancelStep, AdmitNow, Enqueue, NewEntry, Capacity.EvaluateChat, ContextOf;
    match ev {
      case Chat(id, lane, stamp, stream, _, _, _, _) =>
        if id !in b.ledger.records {
          AdmitOwned(cfg, b, id, lane, if stream then Streaming else Running);
          EnqueueOwned(cfg, b, id, lane, stamp);
        }
      case Generate(id, lane, _, _) => if id !in b.ledger.records { AdmitOwned(cfg, b, id, lane, Running); }
      case Poll(id, ready, env) =>
        if id in b.waiting && id in b.entries { PollOwned(cfg, SettingOf(cfg, b, ready, env), b, id); }
      case Start(id, kind) => if id in b.claimed { StartOwned(cfg, b, id, kind); }
      case Finish(id, kind) => if id in b.executing { FinishOwned(cfg, b, id, kind); }
      case CancelCall(id) =>
        if id in b.ledger.records && !b.ledger.records[id].status.Terminal() { CancelOwned(cfg, b, id); }
      case Advance(delta) => LaterOwned(cfg, b, Next(cfg, b, ev).now);
    }
  }

  lemma {:induction false} AlwaysOwned(cfg: Config, evs: seq<Event>)
    ensures Owned(cfg, Exec(cfg, evs))
  {
    if evs == [] {
      assert !exists x :: Holds([], x);
    } else {
      AlwaysOwned(cfg, evs[..|evs|-1]);
      NextOwned(cfg, Exec(cfg, evs[..|evs|-1]), evs[|evs|-1]);
    }
  }
}
