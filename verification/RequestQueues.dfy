/**
The bounded request queue and the grant protocol.

Every waiting caller polls; only the caller whose entry is at the front selects, but the scheduler may hand the
free slot to another caller's entry.  Removal, reservation and grant are one step.
*/
module RequestQueues {
  import opened Core
  import opened Runtime
  import Capacity
  import Scheduling

  /** `ticket` numbers the entries in order of arrival; the code has no such field and never reads it. */
  datatype Entry = Entry(id: Id, enqueuedAt: real, lane: Lane, laneMax: Option<int>, deadline: real, ticket: nat)

  /** `granted` holds the ids of the entries whose granted flag is set. */
  datatype QueueState = QueueState(deque: seq<Entry>, granted: set<Id>, scheduler: Scheduling.SchedulerState)

  /** What a selection reads from its surroundings: policy, controller, clock and the entries marked cache-ready. */
  datatype Setting = Setting(
    policy: Scheduling.Policy, maxBypass: nat, controller: Capacity.Controller, pressure: Capacity.PressureClass,
    now: real, ready: set<Id>)

  predicate Expired(now: real, e: Entry) { now >= e.deadline }

  /** capacity_available: the global constraint alone. */
  predicate GlobalRoom(s: Setting, l: Ledger) {
    Capacity.ActiveCapacityAvailable(s.controller, s.pressure, l.ActiveJobs(), None, None, 0)
  }

  /** entry_eligible: the candidate's own lane, checked together with the global constraint. */
  predicate LaneRoom(s: Setting, l: Ledger, e: Entry) {
    Capacity.ActiveCapacityAvailable(s.controller, s.pressure, l.ActiveJobs(),
                                     e.lane, e.laneMax, l.ActiveJobsFor(e.lane))
  }

  function Live(s: Setting, deque: seq<Entry>): seq<Entry> { Filter(deque, e => !Expired(s.now, e)) }

  function Eligible(s: Setting, l: Ledger, deque: seq<Entry>): seq<Entry> {
    Filter(Live(s, deque), e => LaneRoom(s, l, e))
  }

  function CandidateOf(s: Setting, e: Entry): Scheduling.Candidate {
    Scheduling.Candidate(e.id, e.enqueuedAt, e.id in s.ready)
  }

  function Candidates(s: Setting, es: seq<Entry>): (cs: seq<Scheduling.Candidate>)
    ensures |cs| == |es| && forall i :: 0 <= i < |es| ==> cs[i] == CandidateOf(s, es[i])
  {
    if es == [] then [] else Candidates(s, es[..|es|-1]) + [CandidateOf(s, es[|es|-1])]
  }

  /** Delete the first entry with this id. */
  function Without(deque: seq<Entry>, id: Id): seq<Entry> {
    if deque == [] then [] else if deque[0].id == id then deque[1..] else [deque[0]] + Without(deque[1..], id)
  }

  predicate Holds(deque: seq<Entry>, id: Id) { exists e :: e in deque && e.id == id }

  /** RequestQueue.remove: the scheduler forgets the request only when an entry was really removed. */
  function Remove(q: QueueState, id: Id): QueueState {
    if Holds(q.deque, id)
    then q.(deque := Without(q.deque, id), scheduler := Scheduling.Forget(q.scheduler, id))
    else q
  }

  datatype Selection = Selection(selected: Option<Entry>, queue: QueueState, ledger: Ledger)

  function Refused(s: Setting, q: QueueState, l: Ledger, es: seq<Entry>): Selection {
    var sch := Scheduling.Decide(s.policy, s.maxBypass, q.scheduler, Candidates(s, es), false).1;
    Selection(None, q.(scheduler := sch), l)
  }

  /** The entry the scheduler picks among the eligible ones. */
  function Chosen(s: Setting, q: QueueState, l: Ledger): Entry
    requires Eligible(s, l, q.deque) != []
  {
    var es := Eligible(s, l, q.deque);
    es[Scheduling.ChooseIndex(s.policy, q.scheduler.bypass, s.maxBypass, Candidates(s, es)).index]
  }

  /** The scheduler's state once it has decided. */
  function Decided(s: Setting, q: QueueState, l: Ledger): Scheduling.SchedulerState {
    Scheduling.Decide(s.policy, s.maxBypass, q.scheduler, Candidates(s, Eligible(s, l, q.deque)), true).1
  }

  /** Remove, reserve and grant in one step. */
  function GrantTo(q: QueueState, l: Ledger, e: Entry): Selection {
    var q' := Remove(q, e.id);
    Selection(Some(e), q'.(granted := q'.granted + {e.id}), l.Reserve(e.id, e.lane))
  }

  /** select_and_dequeue */
  function SelectAndDequeue(s: Setting, q: QueueState, l: Ledger): Selection {
    if q.deque == [] then Selection(None, q, l)
    else if !GlobalRoom(s, l) then Refused(s, q, l, q.deque)
    else if Live(s, q.deque) == [] then Refused(s, q, l, q.deque)
    else if Eligible(s, l, q.deque) == [] then Refused(s, q, l, Live(s, q.deque))
    else GrantTo(q.(scheduler := Decided(s, q, l)), l, Chosen(s, q, l))
  }

  lemma EligibleExactly(s: Setting, l: Ledger, deque: seq<Entry>, e: Entry)
    ensures e in Eligible(s, l, deque) <==> e in deque && !Expired(s.now, e) && LaneRoom(s, l, e)
  {}

  // ---------------------------------------------------------------------------
  // One poll of a waiting caller
  // ---------------------------------------------------------------------------

  datatype Verdict = Wait | Execute | GiveUpCancelled | GiveUpTimedOut

  datatype PollResult = PollResult(verdict: Verdict, queue: QueueState, ledger: Ledger)

  function TimeoutCheck(s: Setting, q: QueueState, l: Ledger, e: Entry): PollResult {
    if Expired(s.now, e) then PollResult(GiveUpTimedOut, Remove(q, e.id), l) else PollResult(Wait, q, l)
  }

  /** One iteration of wait_for_execution, up to its return or its next await. */
  function PollOnce(s: Setting, q: QueueState, l: Ledger, e: Entry, cancelled: bool): PollResult {
    if cancelled then PollResult(GiveUpCancelled, Remove(q, e.id), l)
    else if e.id in q.granted then
      if Expired(s.now, e) then PollResult(GiveUpTimedOut, Remove(q, e.id), l) else PollResult(Execute, q, l)
    else if q.deque != [] && q.deque[0].id == e.id && GlobalRoom(s, l) then
      var sel := SelectAndDequeue(s, q, l);
      if sel.selected.Some? && sel.selected.value.id == e.id then PollResult(Execute, sel.queue, sel.ledger)
      else TimeoutCheck(s, sel.queue, sel.ledger, e)
    else TimeoutCheck(s, q, l, e)
  }

  // ---------------------------------------------------------------------------
  // Removal
  // ---------------------------------------------------------------------------

  /** The orders a deque may respect from front to back. */
  datatype Order = ByIdentity | ByTicket | ByStamp | ByStrictStamp

  ghost predicate Before(o: Order, a: Entry, b: Entry) {
    match o
    case ByIdentity => a.id != b.id
    case ByTicket => a.ticket < b.ticket
    case ByStamp => a.enqueuedAt <= b.enqueuedAt
    case ByStrictStamp => a.enqueuedAt < b.enqueuedAt
  }

  ghost predicate Ordered(o: Order, deque: seq<Entry>) {
    forall i, j :: 0 <= i < j < |deque| ==> Before(o, deque[i], deque[j])
  }

  ghost predicate DistinctIds(deque: seq<Entry>) { Ordered(ByIdentity, deque) }

  /** Removing an id takes out exactly the entry that has it. */
  lemma {:induction false} WithoutExactly(deque: seq<Entry>, id: Id)
    requires DistinctIds(deque)
    ensures forall e :: e in Without(deque, id) <==> e in deque && e.id != id
    ensures DistinctIds(Without(deque, id))
    ensures |Without(deque, id)| == |deque| - if Holds(deque, id) then 1 else 0
  {
    WithoutKeepsOrder(ByIdentity, deque, id);
    if deque != [] {
      var d, tail := deque[0], deque[1..];
      assert deque == [d] + tail;
      OthersDiffer(deque);
      WithoutExactly(tail, id);
      assert Holds(deque, id) <==> d.id == id || Holds(tail, id) by { HoldsSplits(deque, id); }
      hide Holds, Ordered;
    }
  }

  lemma OthersDiffer(deque: seq<Entry>)
    requires deque != [] && DistinctIds(deque)
    ensures DistinctIds(deque[1..]) && (forall e :: e in deque[1..] ==> e.id != deque[0].id)
    ensures !Holds(deque[1..], deque[0].id)
  {
    forall e | e in deque[1..] ensures e.id != deque[0].id {
      assert deque[0] == deque[0];
    }
  }

  lemma HoldsSplits(deque: seq<Entry>, id: Id)
    requires deque != []
    ensures Holds(deque, id) <==> deque[0].id == id || Holds(deque[1..], id)
  {
    assert deque[0] in deque;
  }

  lemma {:induction false} WithoutKeepsOrder(o: Order, deque: seq<Entry>, id: Id)
    requires Ordered(o, deque)
    ensures Ordered(o, Without(deque, id))
    ensures forall e :: e in Without(deque, id) ==> e in deque
  {
    if deque != [] && deque[0].id != id {
      var d, tail, rest := deque[0], deque[1..], Without(deque[1..], id);
      WithoutKeepsOrder(o, tail, id);
      forall i | 0 <= i < |rest| ensures Before(o, d, rest[i]) {
        assert rest[i] in tail;
      }
    }
  }

  lemma {:induction false} FilterKeepsOrder(o: Order, deque: seq<Entry>, p: Entry -> bool)
    requires Ordered(o, deque)
    ensures Ordered(o, Filter(deque, p))
  {
    if deque != [] {
      var n := |deque| - 1;
      var front, last := Filter(deque[..n], p), deque[n];
      FilterKeepsOrder(o, deque[..n], p);
      forall i | 0 <= i < |front| ensures Before(o, front[i], last) {
        assert front[i] in deque[..n];
      }
    }
  }

  lemma EligibleKeepsOrder(o: Order, s: Setting, l: Ledger, deque: seq<Entry>)
    requires Ordered(o, deque)
    ensures Ordered(o, Eligible(s, l, deque))
  {
    FilterKeepsOrder(o, deque, e => !Expired(s.now, e));
    FilterKeepsOrder(o, Live(s, deque), e => LaneRoom(s, l, e));
  }

  // ---------------------------------------------------------------------------
  // The queue object
  // ---------------------------------------------------------------------------

  lemma {:induction false} WithoutAt(deque: seq<Entry>, id: Id, k: nat)
    requires k < |deque| && deque[k].id == id && forall j :: 0 <= j < k ==> deque[j].id != id
    ensures Without(deque, id) == deque[..k] + deque[k+1..]
  {
    if k == 0 {
      assert deque[..0] + deque[1..] == deque[1..];
    } else {
      var tail := deque[1..];
      WithoutAt(tail, id, k - 1);
      hide Without;
      assert [deque[0]] + tail[..k-1] == deque[..k];
      assert tail[k..] == deque[k+1..];
      assert [deque[0]] + (tail[..k-1] + tail[k..]) == ([deque[0]] + tail[..k-1]) + tail[k..];
      assert Without(deque, id) == [deque[0]] + Without(tail, id) by { WithoutSkips(deque, id); }
    }
  }

  lemma WithoutSkips(deque: seq<Entry>, id: Id)
    requires deque != [] && deque[0].id != id
    ensures Without(deque, id) == [deque[0]] + Without(deque[1..], id)
  {}

  class RequestQueue {
    var deque: seq<Entry>
    var granted: set<Id>
    const scheduler: Scheduling.Scheduler

    ghost function State(): QueueState reads this, scheduler { QueueState(deque, granted, scheduler.State()) }

    ghost predicate Valid() reads this { DistinctIds(deque) }

    constructor ()
      ensures Valid() && fresh(scheduler)
      ensures State() == QueueState([], {}, Scheduling.SchedulerState(map[], 0, 0, None))
    {
      deque, granted := [], {};
      scheduler := new Scheduling.Scheduler();
    }

    method Enqueue(e: Entry)
      requires Valid() && !Holds(deque, e.id)
      modifies this
      ensures Valid() && State() == old(State()).(deque := old(deque) + [e])
    {
      forall d | d in deque ensures d.id != e.id { }
      deque := deque + [e];
    }

    /** remove: find the first entry with the id, delete it, and let the scheduler forget it. */
    method RemoveById(id: Id) returns (removed: Option<Entry>)
      requires Valid()
      modifies this`deque, scheduler
      ensures Valid() && State() == Remove(old(State()), id)
      ensures removed.Some? <==> Holds(old(deque), id)
      ensures removed.Some? ==> removed.value in old(deque) && removed.value.id == id
    {
      for i := 0 to |deque|
        invariant deque == old(deque) && scheduler.State() == old(scheduler.State())
        invariant forall j :: 0 <= j < i ==> deque[j].id != id
      {
        if deque[i].id == id {
          removed := Some(deque[i]);
          assert deque[i] in deque;
          WithoutAt(deque, id, i);
          WithoutExactly(deque, id);
          deque := deque[..i] + deque[i+1..];
          scheduler.RemoveRequest(id);
          return;
        }
      }
      return None;
    }

    method BuildCandidates(s: Setting, es: seq<Entry>) returns (cs: seq<Scheduling.Candidate>)
      ensures cs == Candidates(s, es)
    {
      cs := [];
      for i := 0 to |es|
        invariant cs == Candidates(s, es[..i])
      {
        assert es[..i+1][..i] == es[..i];
        cs := cs + [CandidateOf(s, es[i])];
      }
      assert es[..|es|] == es;
    }

    method KeepLive(s: Setting) returns (live: seq<Entry>)
      ensures live == Live(s, deque)
    {
      live := [];
      for i := 0 to |deque|
        invariant live == Live(s, deque[..i])
      {
        assert deque[..i+1][..i] == deque[..i];
        if !Expired(s.now, deque[i]) {
          live := live + [deque[i]];
        }
      }
      assert deque[..|deque|] == deque;
    }

    method KeepEligible(s: Setting, l: Ledger, live: seq<Entry>) returns (es: seq<Entry>)
      ensures es == Filter(live, e => LaneRoom(s, l, e))
    {
      es := [];
      for i := 0 to |live|
        invariant es == Filter(live[..i], e => LaneRoom(s, l, e))
      {
        assert live[..i+1][..i] == live[..i];
        if LaneRoom(s, l, live[i]) {
          es := es + [live[i]];
        }
      }
      assert live[..|live|] == live;
    }

    /** select_and_dequeue: the reservation and the grant follow the removal with nothing in between. */
    method SelectAndReserve(s: Setting, rt: RuntimeLedger) returns (selected: Option<Entry>)
      requires Valid()
      modifies this, scheduler, rt
      ensures Valid()
      ensures Selection(selected, State(), rt.State()) == SelectAndDequeue(s, old(State()), old(rt.State()))
    {
      hide GlobalRoom, GrantTo, Chosen, Decided;
      if deque == [] {
        return None;
      }
      var l := Ledger(rt.requests, rt.reservations);
      var all := BuildCandidates(s, deque);
      if !GlobalRoom(s, l) {
        var _ := scheduler.ChooseNext(s.policy, s.maxBypass, all, false);
        return None;
      }
      var live := KeepLive(s);
      if live == [] {
        var _ := scheduler.ChooseNext(s.policy, s.maxBypass, all, false);
        return None;
      }
      var es := KeepEligible(s, l, live);
      if es == [] {
        var some := BuildCandidates(s, live);
        var _ := scheduler.ChooseNext(s.policy, s.maxBypass, some, false);
        return None;
      }
      selected := Commit(s, rt, es);
    }

    /** Decide among the eligible entries, remove the chosen one by id, reserve its slot and mark it granted. */
    method Commit(s: Setting, rt: RuntimeLedger, es: seq<Entry>) returns (selected: Option<Entry>)
      requires Valid() && es == Eligible(s, rt.State(), deque) && es != []
      modifies this, scheduler, rt
      ensures Valid()
      ensures Selection(selected, State(), rt.State()) ==
        GrantTo(old(State()).(scheduler := Decided(s, old(State()), old(rt.State()))), old(rt.State()),
                Chosen(s, old(State()), old(rt.State())))
    {
      ghost var chosen := Chosen(s, State(), rt.State());
      EligibleExactly(s, rt.State(), deque, chosen);
      var cs := BuildCandidates(s, es);
      var decision := scheduler.ChooseNext(s.policy, s.maxBypass, cs, true);
      selected := RemoveById(decision.chosen.value);
      assert selected == Some(chosen) by { SameId(old(deque), chosen, selected.value); }
      var _ := rt.ReserveCapacity(selected.value.id, selected.value.lane);
      granted := granted + {selected.value.id};
    }

    /** One iteration of wait_for_execution. */
    method PollWaiter(s: Setting, rt: RuntimeLedger, e: Entry, cancelled: bool) returns (verdict: Verdict)
      requires Valid()
      modifies this, scheduler, rt
      ensures Valid()
      ensures PollResult(verdict, State(), rt.State()) == PollOnce(s, old(State()), old(rt.State()), e, cancelled)
    {
      if cancelled {
        var _ := RemoveById(e.id);
        return GiveUpCancelled;
      }
      if e.id in granted {
        if Expired(s.now, e) {
          var _ := RemoveById(e.id);
          return GiveUpTimedOut;
        }
        return Execute;
      }
      if deque != [] && deque[0].id == e.id && GlobalRoom(s, Ledger(rt.requests, rt.reservations)) {
        var selected := SelectAndReserve(s, rt);
        if selected.Some? && selected.value.id == e.id {
          return Execute;
        }
      }
      if Expired(s.now, e) {
        var _ := RemoveById(e.id);
        return GiveUpTimedOut;
      }
      return Wait;
    }
  }

  lemma SameId(deque: seq<Entry>, a: Entry, b: Entry)
    requires DistinctIds(deque) && a in deque && b in deque && a.id == b.id
    ensures a == b
  {
    var i :| 0 <= i < |deque| && deque[i] == a;
    var j :| 0 <= j < |deque| && deque[j] == b;
    assert i < j ==> Before(ByIdentity, a, b);
    assert j < i ==> Before(ByIdentity, b, a);
  }
}
