/** The runtime's request ledger: lifecycle records and capacity reservations. */
module Runtime {
  import opened Core
  import Capacity

  type Id = string
  type Lane = Option<string>

  datatype Status = Accepted | Queued | Running | Streaming | Completed | Cancelled | Failed | TimedOut {
    predicate Active() { Accepted? || Running? || Streaming? }
    predicate Terminal() { Completed? || Cancelled? || Failed? || TimedOut? }
  }

  datatype Record = Record(lane: Lane, status: Status)

  datatype Ledger = Ledger(records: map<Id, Record>, reservations: map<Id, Lane>) {

    function ActiveRecords(): set<Id> {
      set id | id in records && records[id].status.Active()
    }

    /** active_jobs: active records plus granted requests that have not started yet. */
    function ActiveJobs(): nat { |ActiveRecords()| + |reservations| }

    function ActiveRecordsIn(lane: Lane): set<Id> {
      set id | id in records && records[id].lane == lane && records[id].status.Active()
    }

    function ReservedIn(lane: Lane): set<Id> {
      set id | id in reservations && reservations[id] == lane
    }

    /** active_jobs_for_lane */
    function ActiveJobsFor(lane: Lane): nat {
      if Capacity.Named(lane) then |ActiveRecordsIn(lane)| + |ReservedIn(lane)| else 0
    }

    function WaitingRecords(): set<Id> {
      set id | id in records && records[id].status == Queued && id !in reservations
    }

    /** queue_depth */
    function QueueDepth(): nat { |WaitingRecords()| }

    function WithStatus(id: Id, st: Status): Ledger {
      if id in records then this.(records := records[id := records[id].(status := st)]) else this
    }

    function Release(id: Id): Ledger { this.(reservations := reservations - {id}) }

    /** reserve_capacity: a second reservation for the same request changes nothing. */
    function Reserve(id: Id, lane: Lane): Ledger {
      if id in reservations then this else this.(reservations := reservations[id := lane])
    }

    function Begin(id: Id, lane: Lane): Ledger { this.(records := records[id := Record(lane, Accepted)]) }

    function MarkQueued(id: Id): Ledger { WithStatus(id, Queued) }

    /** mark_running and mark_streaming: the reservation, if any, is handed over to the record. */
    function MarkExecuting(id: Id, st: Status): Ledger {
      if id in records && (records[id].status == Accepted || records[id].status == Queued)
      then WithStatus(id, st).Release(id) else this
    }

    function MarkTimedOut(id: Id): Ledger { WithStatus(id, TimedOut).Release(id) }

    function Cancel(id: Id): Ledger { WithStatus(id, Cancelled).Release(id) }

    function Fail(id: Id): Ledger { WithStatus(id, Failed).Release(id) }

    /** complete_request keeps an earlier cancelled, failed or timed-out status. */
    function Complete(id: Id): Ledger {
      (if id in records && (records[id].status.Cancelled? || records[id].status.Failed? || records[id].status.TimedOut?)
       then this else WithStatus(id, Completed)).Release(id)
    }

    // -- the occupied slots as one set ------------------------------------------

    ghost function Occupied(): set<Id> { ActiveRecords() + reservations.Keys }

    ghost function OccupiedIn(lane: Lane): set<Id> { ActiveRecordsIn(lane) + ReservedIn(lane) }

    /** No request holds both an active record and a reservation. */
    ghost predicate NoDoubleCount() { ActiveRecords() !! reservations.Keys }
  }

  /** The three counters: who occupies a slot, who occupies one of a lane, and who waits. */
  lemma CountersExactly(l: Ledger, lane: Lane)
    ensures var working := set id | id in l.records && l.records[id].status in {Accepted, Running, Streaming};
      var ofLane := set id | id in working && l.records[id].lane == lane;
      var reserved := set id | id in l.reservations && l.reservations[id] == lane;
      var waiting := set id | id in l.records && l.records[id].status == Queued && id !in l.reservations;
      && l.ActiveJobs() == |working| + |l.reservations.Keys|
      && l.ActiveJobsFor(lane) == (if lane == None || lane == Some("") then 0 else |ofLane| + |reserved|)
      && l.QueueDepth() == |waiting|
  {
    var working := set id | id in l.records && l.records[id].status in {Accepted, Running, Streaming};
    assert l.ActiveRecords() == working;
    assert l.ActiveRecordsIn(lane) == set id | id in working && l.records[id].lane == lane;
    assert |l.reservations| == |l.reservations.Keys|;
  }

  lemma OccupiedCounts(l: Ledger, lane: Lane)
    requires l.NoDoubleCount()
    ensures l.ActiveJobs() == |l.Occupied()|
    ensures Capacity.Named(lane) ==> l.ActiveJobsFor(lane) == |l.OccupiedIn(lane)|
  {
    assert |l.reservations| == |l.reservations.Keys|;
    assert l.ActiveRecordsIn(lane) <= l.ActiveRecords();
    assert l.ReservedIn(lane) <= l.reservations.Keys;
    assert l.ActiveRecordsIn(lane) !! l.ReservedIn(lane);
  }

  /** Records are never dropped and never change lane. */
  ghost predicate KeepsLanes(l: Ledger, m: Ledger) {
    forall x :: x in l.records ==> x in m.records && m.records[x].lane == l.records[x].lane
  }

  lemma LeavingFreesSlot(l: Ledger, id: Id, st: Status)
    requires !st.Active()
    ensures l.WithStatus(id, st).Release(id).Occupied() <= l.Occupied()
    ensures KeepsLanes(l, l.WithStatus(id, st).Release(id))
  {}

  lemma CompletingFreesSlot(l: Ledger, id: Id)
    ensures l.Complete(id).Occupied() <= l.Occupied() && KeepsLanes(l, l.Complete(id))
  {}

  lemma ReservingTakesSlot(l: Ledger, id: Id, lane: Lane)
    ensures l.Reserve(id, lane).Occupied() <= l.Occupied() + {id} && KeepsLanes(l, l.Reserve(id, lane))
  {}

  lemma QueueingTakesNoSlot(l: Ledger, id: Id, lane: Lane)
    requires id !in l.records
    ensures l.Begin(id, lane).MarkQueued(id).Occupied() <= l.Occupied()
    ensures KeepsLanes(l, l.Begin(id, lane).MarkQueued(id))
  {}

  lemma AdmittingTakesSlot(l: Ledger, id: Id, lane: Lane, st: Status)
    requires id !in l.records
    ensures l.Begin(id, lane).MarkExecuting(id, st).Occupied() <= l.Occupied() + {id}
    ensures KeepsLanes(l, l.Begin(id, lane).MarkExecuting(id, st))
  {}

  /** A start hands the reserved slot to the record: nothing new is taken. */
  lemma StartingKeepsSlots(l: Ledger, id: Id, st: Status)
    requires id in l.records && (l.records[id].status == Queued ==> id in l.reservations)
    ensures l.MarkExecuting(id, st).Occupied() <= l.Occupied() && KeepsLanes(l, l.MarkExecuting(id, st))
  {}

  class RuntimeLedger {
    var requests: map<Id, Record>
    var reservations: map<Id, Lane>

    ghost function State(): Ledger reads this { Ledger(requests, reservations) }

    constructor ()
      ensures State() == Ledger(map[], map[])
    {
      requests, reservations := map[], map[];
    }

    method BeginRequest(id: Id, lane: Lane)
      modifies this
      ensures State() == old(State()).Begin(id, lane)
    {
      requests := requests[id := Record(lane, Accepted)];
    }

    method ReserveCapacity(id: Id, lane: Lane) returns (created: bool)
      modifies this`reservations
      ensures State() == old(State()).Reserve(id, lane)
      ensures created <==> id !in old(reservations)
    {
      created := id !in reservations;
      if created {
        reservations := reservations[id := lane];
      }
    }

    method ReleaseCapacity(id: Id)
      modifies this`reservations
      ensures State() == old(State()).Release(id)
    {
      reservations := reservations - {id};
    }

    method SetStatus(id: Id, st: Status)
      modifies this`requests
      ensures State() == old(State()).WithStatus(id, st)
    {
      if id in requests {
        requests := requests[id := requests[id].(status := st)];
      }
    }

    method MarkExecuting(id: Id, st: Status)
      modifies this
      ensures State() == old(State()).MarkExecuting(id, st)
    {
      if id in requests && (requests[id].status == Accepted || requests[id].status == Queued) {
        SetStatus(id, st);
        ReleaseCapacity(id);
      }
    }

    method MarkTimedOut(id: Id)
      modifies this
      ensures State() == old(State()).MarkTimedOut(id)
    {
      SetStatus(id, TimedOut);
      ReleaseCapacity(id);
    }

    method CancelRequest(id: Id)
      modifies this
      ensures State() == old(State()).Cancel(id)
    {
      SetStatus(id, Cancelled);
      ReleaseCapacity(id);
    }

    method FailRequest(id: Id)
      modifies this
      ensures State() == old(State()).Fail(id)
    {
      SetStatus(id, Failed);
      ReleaseCapacity(id);
    }

    method CompleteRequest(id: Id)
      modifies this
      ensures State() == old(State()).Complete(id)
    {
      if !(id in requests
           && (requests[id].status.Cancelled? || requests[id].status.Failed? || requests[id].status.TimedOut?)) {
        SetStatus(id, Completed);
      }
      ReleaseCapacity(id);
    }
  }
}
