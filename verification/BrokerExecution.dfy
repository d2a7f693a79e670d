/**
Requests that really execute, against the active jobs the ledger counts: a cancelled request frees its slot at once.
*/
module BrokerExecution {
  import opened Core
  import opened Runtime
  import opened RequestQueues
  import opened Broker
  import BrokerSafety
  import Capacity
  import Scheduling

  /** Released to execute and not finished. */
  ghost function Under(b: State): set<Id> { b.claimed + b.executing }

  /** Of those, the cancelled ones: their slots are given back while they go on. */
  ghost function Unstopped(b: State): set<Id> {
    set id | id in Under(b) && id in b.ledger.records && b.ledger.records[id].status == Cancelled
  }

  /** Granted requests whose callers have not noticed yet. */
  ghost function GrantedWaiting(b: State): set<Id> { b.waiting * b.ledger.reservations.Keys }

  lemma PlaceOf(cfg: Config, b: State, id: Id)
    requires Owned(cfg, b)
    ensures id in b.ledger.Occupied() <==> (id in Under(b) && id !in Unstopped(b)) || id in GrantedWaiting(b)
    ensures id in GrantedWaiting(b) ==> id !in Under(b)
  {
    assert Legal(ViewOf(b, id));
    hide Owned;
  }

  /**
  Over every run the active jobs are the requests under execution, less the cancelled ones that go on, plus the granted
  ones whose callers have not returned yet.
  */
  lemma ActiveJobsExactly(cfg: Config, evs: seq<Event>)
    ensures var b := Exec(cfg, evs);
      b.ledger.ActiveJobs() == |Under(b)| - |Unstopped(b)| + |GrantedWaiting(b)|
  {
    var b := Exec(cfg, evs);
    AlwaysOwned(cfg, evs);
    BrokerSafety.ExecutionOwnership(cfg, evs, "");
    hide Exec, Owned;
    OccupiedCounts(b.ledger, None);
    forall id
      ensures id in b.ledger.Occupied() <==> id in (Under(b) - Unstopped(b)) + GrantedWaiting(b)
      ensures id in GrantedWaiting(b) ==> id !in Under(b)
    {
      PlaceOf(cfg, b, id);
    }
    assert b.ledger.Occupied() == (Under(b) - Unstopped(b)) + GrantedWaiting(b);
    assert Unstopped(b) <= Under(b);
    hide Unstopped, Under, GrantedWaiting, Ledger.Occupied, Ledger.ActiveJobs;
    CountPieces(Under(b), Unstopped(b), GrantedWaiting(b));
  }

  lemma CountPieces(a: set<Id>, less: set<Id>, more: set<Id>)
    requires less <= a && a !! more
    ensures |(a - less) + more| == |a| - |less| + |more|
  {
    assert a == (a - less) + less;
  }

  /** What really executes exceeds the operator's ceiling by no more than the cancelled requests that go on. */
  lemma ExecutingBounded(cfg: Config, evs: seq<Event>)
    ensures var b := Exec(cfg, evs); |Under(b)| <= Capacity.Max(cfg.maxActive, 1) + |Unstopped(b)|
  {
    ActiveJobsExactly(cfg, evs);
    BrokerSafety.OperatorCeilingHolds(cfg, evs);
  }

  // ---------------------------------------------------------------------------
  // A run with more requests executing than the limit allows
  // ---------------------------------------------------------------------------

  function OneSlot(): Config {
    Config(Scheduling.Fifo, 1, 8, Capacity.Limits(10, 100, 100, true), 60.0, 1, map[])
  }

  function Quick(id: Id): Event {
    Generate(id, None, false, Env(Capacity.Fixed, Capacity.NoProfile, true, Capacity.ReportedNormal))
  }

  lemma QuickRuns(b: State, id: Id)
    requires id !in b.ledger.records && b.ledger.ActiveJobs() == 0
    ensures Next(OneSlot(), b, Quick(id)) == AdmitNow(b, id, None, Running)
  {
    hide AdmitNow, Ledger.ActiveJobs, Ledger.ActiveJobsFor;
  }

  lemma CancelRuns(b: State, id: Id)
    requires id in b.ledger.records && !b.ledger.records[id].status.Terminal()
    ensures Next(OneSlot(), b, CancelCall(id)) == CancelStep(b, id)
  {}

  lemma ThreeSteps(cfg: Config, a: Event, b: Event, c: Event)
    ensures Exec(cfg, [a, b, c]) == Next(cfg, Next(cfg, Next(cfg, Init(), a), b), c)
  {
    hide Next, Init;
    assert [a, b, c][..2] == [a, b] && [a, b][..1] == [a] && [a][..0] == [];
    assert Exec(cfg, []) == Init();
    assert Exec(cfg, [a]) == Next(cfg, Init(), a);
    assert Exec(cfg, [a, b]) == Next(cfg, Exec(cfg, [a]), b);
  }

  lemma IdleLedgers()
    ensures Ledger(map[], map[]).ActiveJobs() == 0
    ensures var l := Ledger(map[], map[]).Begin("x", None).MarkExecuting("x", Running);
      && "x" in l.records && !l.records["x"].status.Terminal()
      && l.Cancel("x").ActiveJobs() == 0 && "y" !in l.Cancel("x").records
  {
    assert Ledger(map[], map[]).ActiveRecords() == {};
    var l := Ledger(map[], map[]).Begin("x", None).MarkExecuting("x", Running).Cancel("x");
    assert l.ActiveRecords() == {} && l.reservations == map[];
  }

  /** One slot: "x" runs, is cancelled and goes on, and "y" is admitted into the slot "x" gave back. */
  lemma CancelledGoesOn()
    ensures var b := Exec(OneSlot(), [Quick("x"), CancelCall("x"), Quick("y")]);
      |Under(b)| == 2 && Capacity.Max(OneSlot().maxActive, 1) == 1 && b.ledger.ActiveJobs() <= 1
  {
    ThreeSteps(OneSlot(), Quick("x"), CancelCall("x"), Quick("y"));
    BrokerSafety.OperatorCeilingHolds(OneSlot(), [Quick("x"), CancelCall("x"), Quick("y")]);
    IdleLedgers();
    hide Next, Exec, Quick, Ledger.ActiveJobs, Ledger.Begin, Ledger.MarkExecuting, Ledger.Cancel;
    QuickRuns(Init(), "x");
    var s1 := AdmitNow(Init(), "x", None, Running);
    CancelRuns(s1, "x");
    var s2 := CancelStep(s1, "x");
    QuickRuns(s2, "y");
    assert Under(AdmitNow(s2, "y", None, Running)) == {"x", "y"};
  }
}
