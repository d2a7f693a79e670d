/**
Where everything in a run comes from: every queued entry and every record from one arrival, every status from the event
that caused it, and every return from the clock or a cancellation.
*/
module BrokerHistory {
  import opened Core
  import opened Runtime
  import opened RequestQueues
  import opened Broker
  import opened BrokerSteps
  import BrokerSafety

  // ---------------------------------------------------------------------------
  // Origins of entries and records
  // ---------------------------------------------------------------------------

  /** The state before event `n` of a run. */
  ghost function At(cfg: Config, evs: seq<Event>, n: nat): State
    requires n <= |evs|
  {
    Exec(cfg, evs[..n])
  }

  /** Event `n` is the chat that put `id` into the queue. */
  ghost predicate QueuedAt(cfg: Config, evs: seq<Event>, n: nat, id: Id) {
    n < |evs| && evs[n].Chat? && evs[n].id == id && id !in At(cfg, evs, n).entries && id in At(cfg, evs, n + 1).entries
  }

  /** The entry of the chat at `n`: its own stamp and lane, and a deadline one time-out after its arrival. */
  ghost predicate FromChat(cfg: Config, evs: seq<Event>, n: nat, e: Entry)
    requires n < |evs| && evs[n].Chat?
  {
    && e.id == evs[n].id && e.enqueuedAt == evs[n].stamp
    && e.lane == evs[n].lane && e.laneMax == Ceiling(cfg, evs[n].lane)
    && e.deadline == At(cfg, evs, n).now + cfg.timeout
    && (forall x :: x in At(cfg, evs, n).entries ==> At(cfg, evs, n).entries[x].ticket < e.ticket)
  }

  /** Event `n` is the arrival that made the record of `id`. */
  ghost predicate Arrived(cfg: Config, evs: seq<Event>, n: nat, id: Id) {
    && n < |evs| && (evs[n].Chat? || evs[n].Generate?) && evs[n].id == id
    && id !in At(cfg, evs, n).ledger.records && id in At(cfg, evs, n + 1).ledger.records
  }

  lemma PrefixAt(cfg: Config, evs: seq<Event>, n: nat)
    requires evs != [] && n < |evs|
    ensures At(cfg, evs[..|evs|-1], n) == At(cfg, evs, n)
  {
    assert evs[..|evs|-1][..n] == evs[..n];
  }

  /** What one step does to the entries and the lanes of the records. */
  lemma OneStep(cfg: Config, b: State, ev: Event, id: Id)
    requires Owned(cfg, b)
    ensures var n := Next(cfg, b, ev);
      && (id in b.entries ==> id in n.entries && n.entries[id] == b.entries[id])
      && (id in n.entries && id !in b.entries ==>
            && ev.Chat? && ev.id == id && n.entries[id].id == id && n.entries[id].enqueuedAt == ev.stamp
            && n.entries[id].lane == ev.lane && n.entries[id].laneMax == Ceiling(cfg, ev.lane)
            && n.entries[id].deadline == b.now + cfg.timeout && n.entries[id].ticket == b.arrivals)
      && (id in b.ledger.records ==> id in n.ledger.records && n.ledger.records[id].lane == b.ledger.records[id].lane)
      && (id in n.ledger.records && id !in b.ledger.records ==>
            (ev.Chat? || ev.Generate?) && ev.id == id && n.ledger.records[id].lane == ev.lane)
  {
    match ev {
      case Chat(x, _, _, _, _, _, _, _) => ArrivalStep(cfg, b, ev, id);
      case Generate(x, _, _, _) => ArrivalStep(cfg, b, ev, id);
      case Poll(x, ready, env) => PollStepKeeps(cfg, b, x, ready, env, id);
      case Start(x, kind) =>
        if x in b.claimed { StartExactly(cfg, b, x, kind); hide Next, Owned; }
      case Finish(x, kind) =>
        if x in b.executing { FinishExactly(cfg, b, x, kind); hide Next, Owned; }
      case CancelCall(x) => CancelExactly(cfg, b, x); hide Next, Owned;
      case Advance(d) => AdvanceExactly(cfg, b, d); hide Next, Owned;
    }
  }

  lemma ArrivalStep(cfg: Config, b: State, ev: Event, id: Id)
    requires Owned(cfg, b) && (ev.Chat? || ev.Generate?)
    ensures var n := Next(cfg, b, ev);
      && (id in b.entries ==> id in n.entries && n.entries[id] == b.entries[id])
      && (id in n.entries && id !in b.entries ==>
            && ev.Chat? && ev.id == id && n.entries[id].id == id && n.entries[id].enqueuedAt == ev.stamp
            && n.entries[id].lane == ev.lane && n.entries[id].laneMax == Ceiling(cfg, ev.lane)
            && n.entries[id].deadline == b.now + cfg.timeout && n.entries[id].ticket == b.arrivals)
      && (id in b.ledger.records ==> id in n.ledger.records && n.ledger.records[id].lane == b.ledger.records[id].lane)
      && (id in n.ledger.records && id !in b.ledger.records ==> ev.id == id && n.ledger.records[id].lane == ev.lane)
  {
    if ev.id in b.ledger.records {
      assert Next(cfg, b, ev) == b by { hide ChatStep, GenerateStep; }
    } else if ev.Chat? {
      ChatExactly(cfg, b, ev);
      NewHasNoEntry(cfg, b, ev.id);
      hide Next, Free, Fits, Owned, Ceiling;
    } else {
      GenerateExactly(cfg, b, ev);
      hide Next, Free, Owned, Ceiling;
    }
  }

  lemma NewHasNoEntry(cfg: Config, b: State, id: Id)
    requires Owned(cfg, b) && id !in b.ledger.records
    ensures id !in b.entries
  {
    assert Legal(ViewOf(b, id));
  }

  lemma PollStepKeeps(cfg: Config, b: State, x: Id, ready: set<Id>, env: Env, id: Id)
    requires Owned(cfg, b)
    ensures var n := Next(cfg, b, Poll(x, ready, env));
      && n.entries == b.entries && n.ledger.records.Keys == b.ledger.records.Keys
      && (id in b.ledger.records ==> n.ledger.records[id].lane == b.ledger.records[id].lane)
  {
    if x in b.waiting {
      PollExactly(cfg, b, x, ready, env);
      hide Next, Owned, Open, MaySelect;
    } else {
      hide Owned, PollStep;
    }
  }

  lemma TicketsBelow(cfg: Config, b: State)
    requires Owned(cfg, b)
    ensures forall x :: x in b.entries ==> b.entries[x].ticket < b.arrivals
  {}

  /** What held of an arrival before the last event holds of it after. */
  lemma StillQueued(cfg: Config, evs: seq<Event>, n: nat, id: Id, e: Entry)
    requires evs != [] && QueuedAt(cfg, evs[..|evs|-1], n, id) && FromChat(cfg, evs[..|evs|-1], n, e)
    ensures QueuedAt(cfg, evs, n, id) && FromChat(cfg, evs, n, e)
  {
    PrefixAt(cfg, evs, n);
    PrefixAt(cfg, evs, n + 1);
    hide At;
  }

  lemma StillArrived(cfg: Config, evs: seq<Event>, n: nat, id: Id)
    requires evs != [] && Arrived(cfg, evs[..|evs|-1], n, id)
    ensures Arrived(cfg, evs, n, id) && evs[n] == evs[..|evs|-1][n]
  {
    PrefixAt(cfg, evs, n);
    PrefixAt(cfg, evs, n + 1);
    hide At;
  }

  /** The last event of a run, between the states before and after it. */
  lemma LastStep(cfg: Config, evs: seq<Event>)
    requires evs != []
    ensures var k := |evs| - 1;
      && At(cfg, evs, k) == Exec(cfg, evs[..k]) && At(cfg, evs, k + 1) == Exec(cfg, evs)
      && Exec(cfg, evs) == Next(cfg, Exec(cfg, evs[..k]), evs[k]) && Owned(cfg, Exec(cfg, evs[..k]))
  {
    AlwaysOwned(cfg, evs[..|evs|-1]);
    assert evs[..|evs|] == evs;
    hide Next, Owned;
  }

  /** Every entry comes from one chat, with the deadline that chat's arrival gives it; it never changes after. */
  lemma {:induction false} EntryOrigin(cfg: Config, evs: seq<Event>, id: Id)
    requires id in Exec(cfg, evs).entries && evs != []
    ensures exists n: nat :: QueuedAt(cfg, evs, n, id) && FromChat(cfg, evs, n, Exec(cfg, evs).entries[id])
    decreases |evs|
  {
    hide Next, Owned, Ceiling, Exec, At;
    var k := |evs| - 1;
    var b := Exec(cfg, evs[..k]);
    LastStep(cfg, evs);
    OneStep(cfg, b, evs[k], id);
    if id in b.entries {
      NothingAtFirst(cfg, evs[..k], id);
      EntryOrigin(cfg, evs[..k], id);
      var n: nat :| QueuedAt(cfg, evs[..k], n, id) && FromChat(cfg, evs[..k], n, b.entries[id]);
      StillQueued(cfg, evs, n, id, b.entries[id]);
    } else {
      TicketsBelow(cfg, b);
      assert QueuedAt(cfg, evs, k, id) && FromChat(cfg, evs, k, Exec(cfg, evs).entries[id]);
    }
  }

  lemma NothingAtFirst(cfg: Config, evs: seq<Event>, id: Id)
    ensures evs == [] ==> id !in Exec(cfg, evs).entries && id !in Exec(cfg, evs).ledger.records
  {}

  /** Every record comes from one arrival, and keeps the lane of that arrival. */
  lemma {:induction false} RecordOrigin(cfg: Config, evs: seq<Event>, id: Id)
    requires id in Exec(cfg, evs).ledger.records && evs != []
    ensures exists n: nat :: Arrived(cfg, evs, n, id) && Exec(cfg, evs).ledger.records[id].lane == evs[n].lane
    decreases |evs|
  {
    hide Next, Owned, Ceiling, Exec, At;
    var k := |evs| - 1;
    var b := Exec(cfg, evs[..k]);
    LastStep(cfg, evs);
    OneStep(cfg, b, evs[k], id);
    if id in b.ledger.records {
      NothingAtFirst(cfg, evs[..k], id);
      RecordOrigin(cfg, evs[..k], id);
      var n: nat :| Arrived(cfg, evs[..k], n, id) && b.ledger.records[id].lane == evs[..k][n].lane;
      StillArrived(cfg, evs, n, id);
    } else {
      assert Arrived(cfg, evs, k, id);
    }
  }

  // ---------------------------------------------------------------------------
  // Returns
  // ---------------------------------------------------------------------------

  /** A return, explained by its entry's deadline or a cancellation. */
  ghost predicate Explained(b: State, r: Return) {
    && r.id in b.entries && r.at <= b.now
    && (r.ok ==> r.at < b.entries[r.id].deadline)
    && (!r.ok && r.id !in b.tokens ==> r.at >= b.entries[r.id].deadline)
  }

  ghost predicate AllExplained(b: State) { forall r :: r in b.returned ==> Explained(b, r) }

  lemma ExplainedFrame(b: State, n: State)
    requires AllExplained(b) && n.returned == b.returned && n.now >= b.now && b.tokens <= n.tokens
    requires forall id :: id in b.entries ==> id in n.entries && n.entries[id] == b.entries[id]
    ensures AllExplained(n)
  {}

  /** What a poll may add to the returns. */
  lemma PollReturns(cfg: Config, b: State, x: Id, ready: set<Id>, env: Env)
    requires Owned(cfg, b) && x in b.waiting
    ensures x in b.entries
    ensures var n := Next(cfg, b, Poll(x, ready, env));
      && n.entries == b.entries && n.now == b.now && n.tokens == b.tokens
      && (n.returned == b.returned || n.returned == b.returned + [Return(x, true, b.now)]
          || n.returned == b.returned + [Return(x, false, b.now)])
      && (n.returned == b.returned + [Return(x, true, b.now)] ==> b.now < b.entries[x].deadline)
      && (n.returned == b.returned + [Return(x, false, b.now)] ==> x in b.tokens || b.now >= b.entries[x].deadline)
  {
    PollExactly(cfg, b, x, ready, env);
    OpenOwn(cfg, b, x);
    var yes, no := b.returned + [Return(x, true, b.now)], b.returned + [Return(x, false, b.now)];
    assert yes[|b.returned|].ok && !no[|b.returned|].ok && |yes| == |no| == |b.returned| + 1;
    hide Next, Owned, Open, MaySelect;
  }

  /** An open entry with the caller's id is the caller's own, and before its deadline. */
  lemma OpenOwn(cfg: Config, b: State, x: Id)
    requires Owned(cfg, b) && x in b.entries
    ensures forall c :: Open(cfg, b, c) && c.id == x ==> b.now < b.entries[x].deadline
  {}

  /** Outside polls nothing returns, time does not go back, and cancellations stay. */
  lemma OtherReturns(cfg: Config, b: State, ev: Event)
    requires Owned(cfg, b) && !(ev.Poll? && ev.id in b.waiting)
    ensures var n := Next(cfg, b, ev); n.returned == b.returned && n.now >= b.now && b.tokens <= n.tokens
  {
    match ev {
      case Chat(x, _, _, _, _, _, _, _) =>
        if x !in b.ledger.records { ChatExactly(cfg, b, ev); hide Next, Free, Fits, Owned, Ceiling; }
      case Generate(x, _, _, _) =>
        if x !in b.ledger.records { GenerateExactly(cfg, b, ev); hide Next, Free, Owned; }
      case Start(x, kind) =>
        if x in b.claimed { StartExactly(cfg, b, x, kind); hide Next, Owned; }
      case Finish(x, kind) =>
        if x in b.executing { FinishExactly(cfg, b, x, kind); hide Next, Owned; }
      case CancelCall(x) => CancelExactly(cfg, b, x); hide Next, Owned;
      case Advance(d) =>
      case Poll(x, ready, env) => hide PollStep, Owned;
    }
  }

  lemma NextExplained(cfg: Config, b: State, ev: Event)
    requires Owned(cfg, b) && AllExplained(b)
    ensures AllExplained(Next(cfg, b, ev))
  {
    var n := Next(cfg, b, ev);
    forall id | id in b.entries ensures id in n.entries && n.entries[id] == b.entries[id] { OneStep(cfg, b, ev, id); }
    hide Next, Owned, Ceiling;
    if ev.Poll? && ev.id in b.waiting {
      PollReturns(cfg, b, ev.id, ev.ready, ev.env);
    } else {
      OtherReturns(cfg, b, ev);
      ExplainedFrame(b, n);
    }
  }

  lemma {:induction false} AlwaysExplained(cfg: Config, evs: seq<Event>)
    ensures AllExplained(Exec(cfg, evs))
  {
    if evs != [] {
      LastStep(cfg, evs);
      hide Next, Owned;
      AlwaysExplained(cfg, evs[..|evs|-1]);
      NextExplained(cfg, Exec(cfg, evs[..|evs|-1]), evs[|evs|-1]);
    }
  }

  lemma NewToken(cfg: Config, b: State, ev: Event, id: Id)
    requires Owned(cfg, b)
    ensures id in Next(cfg, b, ev).tokens ==> id in b.tokens || ev == CancelCall(id)
  {
    match ev {
      case Poll(x, ready, env) =>
        if x in b.waiting { PollReturns(cfg, b, x, ready, env); hide Next, Owned; } else { hide PollStep, Owned; }
      case Chat(x, _, _, _, _, _, _, _) =>
        if x !in b.ledger.records { ChatExactly(cfg, b, ev); hide Next, Free, Fits, Owned, Ceiling; }
      case Generate(x, _, _, _) =>
        if x !in b.ledger.records { GenerateExactly(cfg, b, ev); hide Next, Free, Owned; }
      case _ => hide Owned;
    }
  }

  /** Only a call of the cancellation endpoint cancels. */
  lemma {:induction false} TokenOrigin(cfg: Config, evs: seq<Event>, id: Id)
    requires id in Exec(cfg, evs).tokens
    ensures CancelCall(id) in evs
    decreases |evs|
  {
    if evs != [] {
      LastStep(cfg, evs);
      hide Next, Owned;
      var k := |evs| - 1;
      NewToken(cfg, Exec(cfg, evs[..k]), evs[k], id);
      if id in Exec(cfg, evs[..k]).tokens {
        TokenOrigin(cfg, evs[..k], id);
      }
    }
  }

  /**
  Over every run, every return has an arrival: True comes less than one time-out after it, and False, unless the request
  was cancelled, no sooner than that.
  */
  lemma WaitsForTheTimeout(cfg: Config, evs: seq<Event>, i: nat)
    requires i < |Exec(cfg, evs).returned|
    ensures var r := Exec(cfg, evs).returned[i];
      exists n: nat :: QueuedAt(cfg, evs, n, r.id)
        && (r.ok ==> r.at < At(cfg, evs, n).now + cfg.timeout)
        && (!r.ok && CancelCall(r.id) !in evs ==> r.at >= At(cfg, evs, n).now + cfg.timeout)
  {
    AlwaysExplained(cfg, evs);
    var b := Exec(cfg, evs);
    assert evs != [];
    hide Exec, At, Ceiling;
    var r := b.returned[i];
    assert Explained(b, r);
    EntryOrigin(cfg, evs, r.id);
    if r.id in b.tokens {
      TokenOrigin(cfg, evs, r.id);
    }
    var n: nat :| QueuedAt(cfg, evs, n, r.id) && FromChat(cfg, evs, n, b.entries[r.id]);
    assert b.entries[r.id].deadline == At(cfg, evs, n).now + cfg.timeout;
  }

  /** Every grant goes to an entry less than one time-out after its arrival. */
  lemma GrantedInTime(cfg: Config, evs: seq<Event>, i: nat)
    requires i < |Exec(cfg, evs).grants|
    ensures var g := Exec(cfg, evs).grants[i];
      exists n: nat :: QueuedAt(cfg, evs, n, g.entry.id) && FromChat(cfg, evs, n, g.entry)
        && g.at < At(cfg, evs, n).now + cfg.timeout
  {
    BrokerSafety.AlwaysLogged(cfg, evs);
    BrokerSafety.DeadlineDiscipline(cfg, evs, i);
    var b := Exec(cfg, evs);
    assert evs != [];
    var g := b.grants[i];
    assert g.entry.id in b.entries && b.entries[g.entry.id] == g.entry;
    hide Exec, At, Ceiling;
    EntryOrigin(cfg, evs, g.entry.id);
    var n: nat :| QueuedAt(cfg, evs, n, g.entry.id) && FromChat(cfg, evs, n, g.entry);
  }

  // ---------------------------------------------------------------------------
  // Causes of a status
  // ---------------------------------------------------------------------------

  /** An arrival of `id` that starts at once, streaming or not. */
  ghost predicate StartsAtOnce(evs: seq<Event>, id: Id, stream: bool) {
    exists n :: 0 <= n < |evs| && (evs[n].Chat? || evs[n].Generate?) && evs[n].id == id
      && (stream <==> evs[n].Chat? && evs[n].stream)
  }

  /** The status of a request has its cause among the events of the run. */
  ghost predicate Caused(evs: seq<Event>, b: State, id: Id)
    requires id in b.ledger.records
  {
    match b.ledger.records[id].status
    case Accepted => false
    case Queued => id in b.entries
    case Running => id in b.executing && (Start(id, RunNow) in evs || StartsAtOnce(evs, id, false))
    case Streaming => id in b.executing && (Start(id, StreamNow) in evs || StartsAtOnce(evs, id, true))
    case Completed => Finish(id, CompleteIt) in evs
    case Failed => Finish(id, FailIt) in evs || Start(id, StreamUnsupported) in evs
    case Cancelled => CancelCall(id) in evs || Finish(id, AbortIt) in evs
    case TimedOut =>
      exists r :: r in b.returned && r.id == id && !r.ok && id in b.entries && r.at >= b.entries[id].deadline
  }

  /** A cause stays a cause as the run goes on, unless the status changes. */
  lemma StillCaused(front: seq<Event>, b: State, ev: Event, n: State, id: Id)
    requires id in b.ledger.records && Caused(front, b, id) && id in n.ledger.records
    requires n.ledger.records[id].status == b.ledger.records[id].status
    requires id in b.executing && b.ledger.records[id].status in {Running, Streaming} ==> id in n.executing
    requires id in b.entries ==> id in n.entries && n.entries[id] == b.entries[id]
    requires forall r :: r in b.returned ==> r in n.returned
    ensures Caused(front + [ev], n, id)
  {
    forall s: bool | StartsAtOnce(front, id, s) ensures StartsAtOnce(front + [ev], id, s) {
      var k :| 0 <= k < |front| && (front[k].Chat? || front[k].Generate?) && front[k].id == id
        && (s <==> front[k].Chat? && front[k].stream);
      assert (front + [ev])[k] == front[k];
    }
    hide StartsAtOnce;
  }

  lemma StartedCaused(front: seq<Event>, ev: Event, n: State)
    requires (ev.Chat? || ev.Generate?) && ev.id in n.executing && ev.id in n.ledger.records
    requires n.ledger.records[ev.id].status == if ev.Chat? && ev.stream then Streaming else Running
    ensures Caused(front + [ev], n, ev.id)
  {
    assert (front + [ev])[|front|] == ev;
  }

  lemma ArrivalCaused(cfg: Config, front: seq<Event>, b: State, ev: Event, id: Id)
    requires Owned(cfg, b) && (ev.Chat? || ev.Generate?) && id in Next(cfg, b, ev).ledger.records
    requires id in b.ledger.records ==> Caused(front, b, id)
    ensures Caused(front + [ev], Next(cfg, b, ev), id)
  {
    var n := Next(cfg, b, ev);
    if ev.id in b.ledger.records {
      assert n == b by { hide ChatStep, GenerateStep, Owned; }
      hide Next, Owned, Caused;
      StillCaused(front, b, ev, n, id);
    } else {
      NewHasNoEntry(cfg, b, ev.id);
      hide *;
      if ev.Chat? { ChatExactly(cfg, b, ev); } else { GenerateExactly(cfg, b, ev); }
      NewCaused(cfg, front, b, ev, n, id);
    }
  }

  lemma NewCaused(cfg: Config, front: seq<Event>, b: State, ev: Event, n: State, id: Id)
    requires (ev.Chat? || ev.Generate?) && ev.id !in b.ledger.records && ev.id !in b.entries
    requires
      || n == b || (ev.Chat? && Queues(cfg, b, ev, n))
      || Admits(b, ev.id, ev.lane, if ev.Chat? && ev.stream then Streaming else Running, n)
    requires id in n.ledger.records && (id in b.ledger.records ==> Caused(front, b, id))
    ensures Caused(front + [ev], n, id)
  {
    hide StartsAtOnce, Ceiling;
    if id != ev.id {
      hide Caused;
      StillCaused(front, b, ev, n, id);
    } else if n.ledger.records[id].status != Queued {
      hide Caused;
      StartedCaused(front, ev, n);
    }
  }

  lemma PollCaused(cfg: Config, front: seq<Event>, b: State, ev: Event, id: Id)
    requires Owned(cfg, b) && ev.Poll? && b == Exec(cfg, front) && id in b.ledger.records && Caused(front, b, id)
    ensures id in Next(cfg, b, ev).ledger.records && Caused(front + [ev], Next(cfg, b, ev), id)
  {
    var n := Next(cfg, b, ev);
    if ev.id !in b.waiting {
      assert n == b by { hide PollStep, Owned; }
      hide *;
      StillCaused(front, b, ev, n, id);
    } else {
      hide *;
      PollStatus(cfg, b, ev.id, ev.ready, ev.env, id);
      if n.ledger.records[id].status == b.ledger.records[id].status {
        StillCaused(front, b, ev, n, id);
      } else {
        if ev.id in b.tokens { TokenOrigin(cfg, front, ev.id); }
        GaveUpCaused(front + [ev], b, n, id);
      }
    }
  }

  lemma GaveUpCaused(evs: seq<Event>, b: State, n: State, id: Id)
    requires id in n.ledger.records && id in b.entries && n.entries == b.entries
    requires
      || (n.ledger.records[id].status == Cancelled && CancelCall(id) in evs)
      || (n.ledger.records[id].status == TimedOut && b.now >= b.entries[id].deadline
          && Return(id, false, b.now) in n.returned)
    ensures Caused(evs, n, id)
  {
    hide StartsAtOnce;
  }

  /** A poll changes at most the polling request's own status, to cancelled or timed out. */
  lemma PollStatus(cfg: Config, b: State, x: Id, ready: set<Id>, env: Env, id: Id)
    requires Owned(cfg, b) && x in b.waiting && id in b.ledger.records
    ensures var n := Next(cfg, b, Poll(x, ready, env));
      && n.entries == b.entries && n.executing == b.executing && id in n.ledger.records && x in b.entries
      && (forall r :: r in b.returned ==> r in n.returned)
      && (n.ledger.records[id] == b.ledger.records[id] ||
          (id == x && x in b.tokens && n.ledger.records[id].status == Cancelled) ||
          (id == x && n.ledger.records[id].status == TimedOut && b.now >= b.entries[x].deadline
           && Return(x, false, b.now) in n.returned))
  {
    PollExactly(cfg, b, x, ready, env);
    assert Return(x, false, b.now) in b.returned + [Return(x, false, b.now)];
    hide Next, Owned, Open, MaySelect;
  }

  lemma StartCaused(cfg: Config, front: seq<Event>, b: State, ev: Event, id: Id)
    requires Owned(cfg, b) && (ev.Start? || ev.Finish? || ev.CancelCall? || ev.Advance?) && id in b.ledger.records
    requires Caused(front, b, id)
    ensures id in Next(cfg, b, ev).ledger.records && Caused(front + [ev], Next(cfg, b, ev), id)
  {
    var n := Next(cfg, b, ev);
    OwnStatus(cfg, b, id);
    if ev.Start? && ev.id in b.claimed {
      StartExactly(cfg, b, ev.id, ev.startKind);
    } else if ev.Finish? && ev.id in b.executing {
      FinishExactly(cfg, b, ev.id, ev.finishKind);
    } else if ev.CancelCall? {
      CancelExactly(cfg, b, ev.id);
    } else {
      assert n == b.(now := n.now) by { hide Owned; }
    }
    hide Next, Owned, StartsAtOnce;
    if n.ledger.records[id].status == b.ledger.records[id].status {
      StillCaused(front, b, ev, n, id);
    }
  }

  /** Who executes is not claimed, and whose record is live executes. */
  lemma OwnStatus(cfg: Config, b: State, id: Id)
    requires Owned(cfg, b)
    ensures id in b.executing ==> id !in b.claimed && id in b.ledger.records
    ensures id in b.executing ==> b.ledger.records[id].status in {Running, Streaming, Cancelled}
  {
    assert Legal(ViewOf(b, id));
  }

  /** Over every run the status of every request was caused by the events of the run. */
  lemma {:induction false} StatusIsCaused(cfg: Config, evs: seq<Event>, id: Id)
    requires id in Exec(cfg, evs).ledger.records
    ensures Caused(evs, Exec(cfg, evs), id)
    decreases |evs|
  {
    NothingAtFirst(cfg, evs, id);
    if evs != [] {
      var k := |evs| - 1;
      var front, ev := evs[..k], evs[k];
      var b := Exec(cfg, front);
      LastStep(cfg, evs);
      assert evs == front + [ev];
      hide Next, Owned, Exec, Caused;
      if id in b.ledger.records { StatusIsCaused(cfg, front, id); }
      OneStep(cfg, b, ev, id);
      match ev {
        case Chat(_, _, _, _, _, _, _, _) => ArrivalCaused(cfg, front, b, ev, id);
        case Generate(_, _, _, _) => ArrivalCaused(cfg, front, b, ev, id);
        case Poll(_, _, _) => PollCaused(cfg, front, b, ev, id);
        case _ => StartCaused(cfg, front, b, ev, id);
      }
    }
  }
}
