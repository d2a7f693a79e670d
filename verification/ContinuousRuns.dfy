/**
Whole runs of the token-level scheduler: any sequence of admissions, endings, ticks and drains, with a log of the
chunks that were drained from each request.
*/
module ContinuousRuns {
  import opened Core
  import opened Continuous
  import Progress = ContinuousProgress
  import Contract = ContinuousContract
  import Demux

  datatype Ending = Cancel | TimeOut | Fail

  datatype Op = AdmitOp(id: Id) | EndOp(id: Id, ending: Ending) | TakeOp(id: Id) | TickOp

  datatype Run = Run(sched: Scheduler, taken: map<Id, seq<Chunk>>)

  function PhaseOf(e: Ending): Phase {
    match e case Cancel => Cancelled case TimeOut => TimedOut case Fail => Failed
  }

  function ReasonOf(e: Ending): FinishReason {
    match e case Cancel => WasCancelled case TimeOut => WasTimedOut case Fail => WasError
  }

  function TakenFrom(r: Run, id: Id): seq<Chunk> { if id in r.taken then r.taken[id] else [] }

  function Step(cfg: Config, r: Run, op: Op): Run {
    match op
    case AdmitOp(id) => r.(sched := Admit(r.sched, id))
    case EndOp(id, e) => r.(sched := EndRequest(r.sched, id, PhaseOf(e), ReasonOf(e)))
    case TickOp => r.(sched := Tick(cfg, r.sched))
    case TakeOp(id) =>
      var (s, chunks) := DrainOutputs(r.sched, id);
      Run(s, r.taken[id := TakenFrom(r, id) + chunks])
  }

  function Exec(cfg: Config, ops: seq<Op>): Run {
    if ops == [] then Run(Start(cfg), map[]) else Step(cfg, Exec(cfg, ops[..|ops|-1]), ops[|ops|-1])
  }

  /** No id is admitted twice. */
  ghost predicate DistinctIds(ops: seq<Op>) {
    forall i, j :: 0 <= i < j < |ops| && ops[i].AdmitOp? && ops[j].AdmitOp? ==> ops[i].id != ops[j].id
  }

  // ---------------------------------------------------------------------------
  // Conservation of chunks
  // ---------------------------------------------------------------------------

  /** The first `n` chunks of a request. */
  function Produced(id: Id, slot: Option<nat>, n: nat): seq<Chunk> {
    seq(n, j requires 0 <= j < n => Chunk(id, slot, j))
  }

  /** What was drained and what is still held are together all chunks the request ever produced, in order. */
  ghost predicate Conserved(taken: seq<Chunk>, r: Req) { taken + r.chunks == Produced(r.id, r.slot, r.steps) }

  /** Nothing is ever taken from a request that has no record. */
  ghost predicate Good(cfg: Config, r: Run) {
    && Inv(r.sched) && |r.sched.slots| == cfg.maxSlots
    && (forall i :: 0 <= i < |r.sched.reqs| ==> Conserved(TakenFrom(r, r.sched.reqs[i].id), r.sched.reqs[i]))
    && (forall id :: id in r.taken && Find(r.sched.reqs, id).None? ==> r.taken[id] == [])
  }

  /** What a tick may do to the output of a request: nothing, or one more chunk. */
  ghost predicate Extends(r: Req, n: Req) {
    && n.id == r.id && (n.slot == r.slot || (r.steps == 0 && r.chunks == []))
    && (n.steps == r.steps ==> n.chunks == r.chunks)
    && (n.steps != r.steps ==> n.steps == r.steps + 1 && n.chunks == r.chunks + [Chunk(r.id, n.slot, r.steps)])
  }

  lemma ExtendsConserves(taken: seq<Chunk>, r: Req, n: Req)
    requires Conserved(taken, r) && Extends(r, n)
    ensures Conserved(taken, n)
  {
    if n.steps == r.steps + 1 {
      assert taken + n.chunks == (taken + r.chunks) + [Chunk(r.id, n.slot, r.steps)];
    }
  }

  /** Admission changes the phase and the slot of waiting requests, nothing else. */
  ghost predicate OnlyPlaced(r: Req, n: Req) {
    n == r || (r.phase.Admitted? && n == r.(phase := n.phase, slot := n.slot))
  }

  lemma {:induction false} AdmissionPlaces(s: Scheduler, todo: seq<Id>)
    ensures var a := AdmitPending(s, todo);
      |a.reqs| == |s.reqs| && |a.slots| == |s.slots| && forall i :: 0 <= i < |s.reqs| ==>
        OnlyPlaced(s.reqs[i], a.reqs[i])
    decreases |todo|
  {
    if todo != [] {
      var at := Find(s.reqs, todo[0]);
      if at.None? || s.reqs[at.value].phase != Admitted {
        AdmissionPlaces(s.(pending := RemoveFirst(s.pending, todo[0])), todo[1..]);
      } else if FirstEmpty(s.slots).Some? {
        var t := Assign(s, at.value, FirstEmpty(s.slots).value);
        AdmissionPlaces(t, todo[1..]);
        forall i | 0 <= i < |s.reqs| ensures OnlyPlaced(s.reqs[i], AdmitPending(s, todo).reqs[i]) {
          assert OnlyPlaced(t.reqs[i], AdmitPending(t, todo[1..]).reqs[i]);
        }
      }
    }
  }

  /** A waiting request has produced nothing. */
  lemma WaitingIsIdle(s: Scheduler, i: nat)
    requires Inv(s) && i < |s.reqs|
    ensures s.reqs[i].phase.Admitted? ==> s.reqs[i].steps == 0 && s.reqs[i].chunks == []
  {
    assert ReqOk(s.slots, s.reqs[i]);
  }

  lemma TickExtends(cfg: Config, s: Scheduler, i: nat)
    requires Inv(s) && i < |s.reqs|
    ensures i < |Tick(cfg, s).reqs| && Extends(s.reqs[i], Tick(cfg, s).reqs[i])
  {
    hide Inv, AdmitPending, Prefill, Decode, DrainSlots, Extends, OnlyPlaced, PrefillOne, DecodeOne;
    var x := s.(tick := s.tick + 1);
    AdmissionPlaces(x, s.pending);
    var a := AdmitPending(x, s.pending);
    WaitingIsIdle(s, i);
    Progress.PrefillPointwise(a.reqs, 0, cfg.maxPrefill);
    var p := Prefill(a.reqs, 0, cfg.maxPrefill);
    Progress.DecodePointwise(p, 0, cfg.maxDecode, cfg.maxSteps);
    var d := Decode(p, 0, cfg.maxDecode, cfg.maxSteps);
    assert Tick(cfg, s).reqs[i] == DrainOne(d[i]);
    PiecesExtend(cfg, s.reqs[i], a.reqs[i], p[i], d[i]);
  }

  lemma PiecesExtend(cfg: Config, r: Req, a: Req, p: Req, d: Req)
    requires OnlyPlaced(r, a) && (p == a || p == PrefillOne(a))
    requires d == p || d == DecodeOne(p, cfg.maxSteps)
    requires r.phase.Admitted? ==> r.steps == 0 && r.chunks == []
    ensures Extends(r, DrainOne(d))
  {}

  lemma TickSlots(cfg: Config, s: Scheduler)
    ensures |Tick(cfg, s).slots| == |s.slots| && |Tick(cfg, s).reqs| == |s.reqs|
  {
    var x := s.(tick := s.tick + 1);
    AdmissionPlaces(x, s.pending);
    var a := AdmitPending(x, s.pending);
    Progress.PrefillPointwise(a.reqs, 0, cfg.maxPrefill);
    Progress.DecodePointwise(Prefill(a.reqs, 0, cfg.maxPrefill), 0, cfg.maxDecode, cfg.maxSteps);
    DrainKeepsLength(Worked(cfg, a.reqs), a.slots);
  }

  lemma TickGood(cfg: Config, r: Run)
    requires Good(cfg, r)
    ensures Good(cfg, Step(cfg, r, TickOp))
  {
    var s, t := r.sched, Tick(cfg, r.sched);
    TickInv(cfg, s);
    TickSlots(cfg, s);
    hide Tick, Inv;
    forall i | 0 <= i < |t.reqs|
      ensures t.reqs[i].id == s.reqs[i].id && Conserved(TakenFrom(r, t.reqs[i].id), t.reqs[i])
    {
      TickExtends(cfg, s, i);
      ExtendsConserves(TakenFrom(r, s.reqs[i].id), s.reqs[i], t.reqs[i]);
    }
    forall id | id in r.taken && Find(t.reqs, id).None? ensures r.taken[id] == [] {
      SameIdsFind(s.reqs, t.reqs, id);
    }
  }

  lemma SameIdsFind(a: seq<Req>, b: seq<Req>, id: Id)
    requires |a| == |b| && forall i :: 0 <= i < |a| ==> a[i].id == b[i].id
    ensures Find(a, id).None? <==> Find(b, id).None?
  {}

  lemma TakeGood(cfg: Config, r: Run, id: Id)
    requires Good(cfg, r)
    ensures Good(cfg, Step(cfg, r, TakeOp(id)))
  {
    var s, n := r.sched, Step(cfg, r, TakeOp(id));
    DrainOutputsInv(s, id);
    hide Inv, Conserved, Find;
    forall i | 0 <= i < |n.sched.reqs| ensures Conserved(TakenFrom(n, n.sched.reqs[i].id), n.sched.reqs[i]) {
      var q := s.reqs[i];
      assert Conserved(TakenFrom(r, q.id), q);
      if q.id == id {
        OneRecord(s, i, id);
        TakingConserves(TakenFrom(r, id), q);
      }
    }
    SameIdsFind(s.reqs, n.sched.reqs, id);
    forall x | x in n.taken && Find(n.sched.reqs, x).None? ensures n.taken[x] == [] {
      SameIdsFind(s.reqs, n.sched.reqs, x);
    }
  }

  lemma TakingConserves(taken: seq<Chunk>, q: Req)
    requires Conserved(taken, q)
    ensures Conserved(taken + q.chunks, q.(chunks := []))
  {
    assert (taken + q.chunks) + [] == taken + q.chunks;
  }

  lemma OneRecord(s: Scheduler, i: nat, id: Id)
    requires Inv(s) && i < |s.reqs| && s.reqs[i].id == id
    ensures Find(s.reqs, id) == Some(i)
  {
    Progress.FindIsPosition(s.reqs, i);
  }

  lemma EndGood(cfg: Config, r: Run, id: Id, e: Ending)
    requires Good(cfg, r)
    ensures Good(cfg, Step(cfg, r, EndOp(id, e)))
  {
    var s, n := r.sched, Step(cfg, r, EndOp(id, e));
    EndInv(s, id, PhaseOf(e), ReasonOf(e));
    hide Inv;
    assert |n.sched.reqs| == |s.reqs| && forall i :: 0 <= i < |s.reqs| ==> Extends(s.reqs[i], n.sched.reqs[i]);
    forall i | 0 <= i < |s.reqs| ensures Conserved(TakenFrom(n, n.sched.reqs[i].id), n.sched.reqs[i]) {
      ExtendsConserves(TakenFrom(r, s.reqs[i].id), s.reqs[i], n.sched.reqs[i]);
    }
    forall x | x in n.taken && Find(n.sched.reqs, x).None? ensures n.taken[x] == [] {
      SameIdsFind(s.reqs, n.sched.reqs, x);
    }
  }

  lemma AdmitGood(cfg: Config, r: Run, id: Id)
    requires Good(cfg, r) && Find(r.sched.reqs, id).None?
    ensures Good(cfg, Step(cfg, r, AdmitOp(id)))
  {
    var s, n := r.sched, Step(cfg, r, AdmitOp(id));
    AdmitInv(s, id);
    hide Inv;
    assert TakenFrom(r, id) == [];
    assert Conserved(TakenFrom(n, id), NewReq(id));
    forall i | 0 <= i < |s.reqs| ensures n.sched.reqs[i] == s.reqs[i] { }
    forall x | x in n.taken && Find(n.sched.reqs, x).None? ensures n.taken[x] == [] {
      assert forall i :: 0 <= i < |s.reqs| ==> n.sched.reqs[i].id != x;
    }
  }

  /** Every record was admitted. */
  ghost predicate AllAdmitted(ops: seq<Op>, reqs: seq<Req>) {
    forall i :: 0 <= i < |reqs| ==> AdmitOp(reqs[i].id) in ops
  }

  lemma StepAdmitted(cfg: Config, r: Run, front: seq<Op>, op: Op)
    requires AllAdmitted(front, r.sched.reqs) && Inv(r.sched)
    ensures AllAdmitted(front + [op], Step(cfg, r, op).sched.reqs)
  {
    var s, t := r.sched, Step(cfg, r, op).sched;
    forall i | 0 <= i < |t.reqs| ensures AdmitOp(t.reqs[i].id) in front + [op] {
      if op.TickOp? {
        TickSlots(cfg, s);
        TickExtends(cfg, s, i);
      }
    }
  }

  /** With distinct admitted ids, every reachable state keeps slot ownership and conserves chunks. */
  lemma {:induction false} AlwaysGood(cfg: Config, ops: seq<Op>)
    requires DistinctIds(ops)
    ensures Good(cfg, Exec(cfg, ops)) && AllAdmitted(ops, Exec(cfg, ops).sched.reqs)
  {
    if ops == [] {
      StartInv(cfg);
    } else {
      var front, op := ops[..|ops|-1], ops[|ops|-1];
      AlwaysGood(cfg, front);
      var r := Exec(cfg, front);
      assert ops == front + [op];
      StepAdmitted(cfg, r, front, op);
      hide Good, Tick, DrainOutputs, EndRequest, Admit, Inv;
      match op {
        case AdmitOp(id) =>
          assert Find(r.sched.reqs, id).None? by {
            assert AdmitOp(id) !in front;
          }
          AdmitGood(cfg, r, id);
        case EndOp(id, e) => EndGood(cfg, r, id, e);
        case TakeOp(id) => TakeGood(cfg, r, id);
        case TickOp => TickGood(cfg, r);
      }
    }
  }

  // ---------------------------------------------------------------------------
  // What holds over every run
  // ---------------------------------------------------------------------------

  /** No admission along the run names a request that holds a slot at that moment. */
  ghost predicate NoSlottedReadmission(cfg: Config, ops: seq<Op>) {
    forall n :: 0 <= n < |ops| && ops[n].AdmitOp? ==> MayAdmit(Exec(cfg, ops[..n]).sched, ops[n].id)
  }

  lemma NoSlottedReadmissionBefore(cfg: Config, ops: seq<Op>)
    requires ops != [] && NoSlottedReadmission(cfg, ops)
    ensures NoSlottedReadmission(cfg, ops[..|ops|-1])
  {
    var front := ops[..|ops|-1];
    forall n | 0 <= n < |front| && front[n].AdmitOp? ensures MayAdmit(Exec(cfg, front[..n]).sched, front[n].id) {
      assert front[..n] == ops[..n] && front[n] == ops[n];
    }
  }

  /** One operation keeps ownership exactly when it is no admission of a slotted request. */
  lemma StepInv(cfg: Config, r: Run, op: Op)
    requires Inv(r.sched)
    ensures Inv(Step(cfg, r, op).sched) <==> (op.AdmitOp? ==> MayAdmit(r.sched, op.id))
    ensures |Step(cfg, r, op).sched.slots| == |r.sched.slots|
  {
    match op {
      case AdmitOp(id) => AdmitInv(r.sched, id);
      case EndOp(id, e) => EndInv(r.sched, id, PhaseOf(e), ReasonOf(e));
      case TakeOp(id) => DrainOutputsInv(r.sched, id);
      case TickOp =>
        TickInv(cfg, r.sched);
        TickSlots(cfg, r.sched);
        hide Tick;
    }
  }

  lemma {:induction false} AlwaysInv(cfg: Config, ops: seq<Op>)
    requires NoSlottedReadmission(cfg, ops)
    ensures Inv(Exec(cfg, ops).sched) && |Exec(cfg, ops).sched.slots| == cfg.maxSlots
  {
    hide Inv, Step, MayAdmit;
    if ops == [] {
      StartInv(cfg);
    } else {
      NoSlottedReadmissionBefore(cfg, ops);
      AlwaysInv(cfg, ops[..|ops|-1]);
      StepInv(cfg, Exec(cfg, ops[..|ops|-1]), ops[|ops|-1]);
    }
  }

  /** Ownership holds all along a run if and only if no admission in it names a request that holds a slot. */
  lemma OwnershipExactly(cfg: Config, ops: seq<Op>)
    ensures NoSlottedReadmission(cfg, ops) <==> forall n :: 0 <= n <= |ops| ==> Inv(Exec(cfg, ops[..n]).sched)
  {
    hide Inv, Step, MayAdmit;
    if NoSlottedReadmission(cfg, ops) {
      forall n | 0 <= n <= |ops| ensures Inv(Exec(cfg, ops[..n]).sched) {
        assert NoSlottedReadmission(cfg, ops[..n]) by { PrefixReadmission(cfg, ops, n); }
        AlwaysInv(cfg, ops[..n]);
      }
    }
    if forall n :: 0 <= n <= |ops| ==> Inv(Exec(cfg, ops[..n]).sched) {
      forall n | 0 <= n < |ops| && ops[n].AdmitOp? ensures MayAdmit(Exec(cfg, ops[..n]).sched, ops[n].id) {
        assert ops[..n+1][..n] == ops[..n];
        assert Inv(Exec(cfg, ops[..n]).sched) && Inv(Exec(cfg, ops[..n+1]).sched);
        StepInv(cfg, Exec(cfg, ops[..n]), ops[n]);
      }
    }
  }

  lemma PrefixReadmission(cfg: Config, ops: seq<Op>, m: nat)
    requires m <= |ops| && NoSlottedReadmission(cfg, ops)
    ensures NoSlottedReadmission(cfg, ops[..m])
  {
    forall n | 0 <= n < m && ops[..m][n].AdmitOp? ensures MayAdmit(Exec(cfg, ops[..m][..n]).sched, ops[..m][n].id) {
      assert ops[..m][..n] == ops[..n];
    }
  }

  /** Distinct ids are one way to guarantee that. */
  lemma DistinctNeverReadmits(cfg: Config, ops: seq<Op>)
    requires DistinctIds(ops)
    ensures NoSlottedReadmission(cfg, ops)
  {
    forall n | 0 <= n < |ops| && ops[n].AdmitOp? ensures MayAdmit(Exec(cfg, ops[..n]).sched, ops[n].id) {
      AlwaysGood(cfg, ops[..n]);
      hide Exec, Good;
      assert AdmitOp(ops[n].id) !in ops[..n];
    }
  }

  /**
  Over every run that admits no slotted request again: slots and live slotted requests match one to one, and `validate`
  finds nothing exactly when no finished request still holds chunks.
  */
  lemma OwnershipOverRuns(cfg: Config, ops: seq<Op>, i: nat, k: nat)
    requires NoSlottedReadmission(cfg, ops)
    ensures var s := Exec(cfg, ops).sched;
      && |s.slots| == cfg.maxSlots
      && (i < |s.reqs| && k < |s.slots| ==> (s.slots[k].owner == Some(s.reqs[i].id) <==> Holds(s.reqs[i], k)))
      && (Contract.Validate(s) == [] <==>
            forall j :: 0 <= j < |s.reqs| && s.reqs[j].phase.Terminal() ==> s.reqs[j].chunks == [])
  {
    AlwaysInv(cfg, ops);
    var s := Exec(cfg, ops).sched;
    Contract.ValidateExactly(s);
    if i < |s.reqs| && k < |s.slots| {
      SlotOwnership(s, i, k);
    }
  }

  function WireOf(cs: seq<Chunk>, name: Option<nat> -> string, text: (Id, nat) -> string): seq<Demux.Output> {
    seq(|cs|, j requires 0 <= j < |cs| =>
      Demux.Output(cs[j].id, name(cs[j].slot), cs[j].index, Some(text(cs[j].id, cs[j].index))))
  }

  /**
  Whatever was drained from a request over a whole run, in as many calls as one likes, is its chunks 0, 1, 2, ...;
  fed in order to a new stream it is reproduced event for event, without one rejection.
  */
  lemma DrainedFeedsAStream(cfg: Config, ops: seq<Op>, id: Id, m: Demux.Streams, ids: set<Id>, slots: set<string>,
                            name: Option<nat> -> string, text: (Id, nat) -> string)
    requires DistinctIds(ops) && id !in m
    ensures var taken := TakenFrom(Exec(cfg, ops), id);
      var cs := WireOf(taken, name, text);
      var (n, v) := Demux.Feed(Demux.OpenStream(m, id), cs, ids, slots);
      && (forall j :: 0 <= j < |taken| ==> taken[j].id == id && taken[j].index == j)
      && id in n && n[id].state == Demux.Open && n[id].next == |n[id].events| == |taken|
      && (forall j :: 0 <= j < |taken| ==>
            n[id].events[j] == Demux.Event(id, j, Demux.ChunkEvent, Some(text(id, j)), None))
      && (id in ids && (forall j :: 0 <= j < |taken| ==> name(taken[j].slot) in slots) ==> v == [])
  {
    AlwaysGood(cfg, ops);
    var r := Exec(cfg, ops);
    var taken := TakenFrom(r, id);
    TakenInOrder(cfg, r, id);
    Demux.FeedReproduces(m, id, WireOf(taken, name, text), ids, slots);
  }

  lemma TakenInOrder(cfg: Config, r: Run, id: Id)
    requires Good(cfg, r)
    ensures forall j :: 0 <= j < |TakenFrom(r, id)| ==> TakenFrom(r, id)[j].id == id && TakenFrom(r, id)[j].index == j
  {
    var at := Find(r.sched.reqs, id);
    if at.Some? {
      var q := r.sched.reqs[at.value];
      var taken := TakenFrom(r, id);
      assert Conserved(taken, q);
      forall j | 0 <= j < |taken| ensures taken[j].id == id && taken[j].index == j {
        assert taken[j] == (taken + q.chunks)[j];
      }
    }
  }

  // ---------------------------------------------------------------------------
  // Slots are single-use
  // ---------------------------------------------------------------------------

  /** The requests that were ever given a slot. */
  ghost function Served(reqs: seq<Req>): nat {
    if reqs == [] then 0 else Served(reqs[..|reqs|-1]) + if reqs[|reqs|-1].slot.Some? then 1 else 0
  }

  ghost function SlotsUsed(reqs: seq<Req>): set<nat> {
    if reqs == [] then {}
    else SlotsUsed(reqs[..|reqs|-1]) + if reqs[|reqs|-1].slot.Some? then {reqs[|reqs|-1].slot.value} else {}
  }

  lemma {:induction false} SlotsUsedHeld(reqs: seq<Req>, k: nat)
    requires k in SlotsUsed(reqs)
    ensures exists i :: 0 <= i < |reqs| && reqs[i].slot == Some(k)
  {
    var front := reqs[..|reqs|-1];
    if k in SlotsUsed(front) {
      SlotsUsedHeld(front, k);
      var i :| 0 <= i < |front| && front[i].slot == Some(k);
      assert reqs[i].slot == Some(k);
    } else {
      assert reqs[|reqs|-1].slot == Some(k);
    }
  }

  lemma {:induction false} SlotsUsedCount(reqs: seq<Req>)
    requires forall i, j :: 0 <= i < j < |reqs| && reqs[i].slot.Some? ==> reqs[i].slot != reqs[j].slot
    ensures |SlotsUsed(reqs)| == Served(reqs)
  {
    if reqs != [] {
      var front, last := reqs[..|reqs|-1], reqs[|reqs|-1];
      SlotsUsedCount(front);
      if last.slot.Some? {
        assert last.slot.value !in SlotsUsed(front) by {
          if last.slot.value in SlotsUsed(front) {
            SlotsUsedHeld(front, last.slot.value);
          }
        }
      }
    }
  }

  /**
  Slots are single-use: over a whole run, however many ticks it has, at most `max_slots` requests are ever given a
  slot, and a request without one produces nothing.
  */
  lemma SlotsAreSingleUse(cfg: Config, ops: seq<Op>)
    requires DistinctIds(ops)
    ensures var s := Exec(cfg, ops).sched;
      && Served(s.reqs) <= cfg.maxSlots
      && (forall i :: 0 <= i < |s.reqs| && s.reqs[i].slot.None? ==>
            TakenFrom(Exec(cfg, ops), s.reqs[i].id) == [] && s.reqs[i].chunks == [])
  {
    AlwaysGood(cfg, ops);
    var r := Exec(cfg, ops);
    var s := r.sched;
    forall i | 0 <= i < |s.reqs| ensures ReqOk(s.slots, s.reqs[i]) { }
    SlotsUsedCount(s.reqs);
    forall k | k in SlotsUsed(s.reqs) ensures k < cfg.maxSlots {
      SlotsUsedHeld(s.reqs, k);
    }
    UsedAtMost(SlotsUsed(s.reqs), cfg.maxSlots);
    forall i | 0 <= i < |s.reqs| && s.reqs[i].slot.None?
      ensures TakenFrom(r, s.reqs[i].id) == [] && s.reqs[i].chunks == []
    {
      assert Conserved(TakenFrom(r, s.reqs[i].id), s.reqs[i]);
      assert |TakenFrom(r, s.reqs[i].id) + s.reqs[i].chunks| == 0;
    }
  }

  lemma {:induction false} UsedAtMost(used: set<nat>, n: nat)
    requires forall k :: k in used ==> k < n
    ensures |used| <= n
  {
    if n == 0 {
      assert used == {};
    } else {
      UsedAtMost(used - {n - 1}, n - 1);
    }
  }

  /** A tick that finds only "a", waiting, and slot `k` as the first empty one of two. */
  lemma TickGivesSlot(s: Scheduler, k: nat)
    requires s.reqs == [NewReq("a")] && s.pending == ["a"] && |s.slots| == 2 && k < 2
    requires s.slots[k].state == Empty && (k == 1 ==> s.slots[0].state != Empty)
    ensures var t := Tick(Config(2, 1, 1, 1), s);
      t.slots == s.slots[k := Slot(Reserved, Some("a"))]
      && t.reqs == [NewReq("a").(phase := PrefillRunning, slot := Some(k))] && t.pending == []
  {
    var x := s.(tick := s.tick + 1);
    assert Find(x.reqs, "a") == Some(0);
    assert FirstEmpty(x.slots) == Some(k);
    var placed := NewReq("a").(phase := PrefillPending, slot := Some(k));
    var y := Assign(x, 0, k);
    assert y.reqs == [placed] && y.pending == [];
    assert AdmitPending(x, ["a"]) == AdmitPending(y, ["a"][1..]) == y;
    var running := placed.(phase := PrefillRunning);
    assert Prefill([placed], 0, 1) == [running] + Prefill([placed][1..], 1, 1) == [running];
    assert Decode([running], 0, 1, 1) == [running] + Decode([running][1..], 0, 1, 1) == [running];
    assert DrainReqs([running]) == [running];
    Progress.NothingDrains([running], y.slots);
  }

  lemma ExecFour(cfg: Config, a: Op, b: Op, c: Op, d: Op)
    ensures Exec(cfg, [a, b, c, d]) == Step(cfg, Step(cfg, Step(cfg, Step(cfg, Run(Start(cfg), map[]), a), b), c), d)
  {
    hide Step, Start;
    var ops := [a, b, c, d];
    assert ops[..3] == [a, b, c] && [a, b, c][..2] == [a, b] && [a, b][..1] == [a] && [a][..0] == [];
    assert Exec(cfg, [a]) == Step(cfg, Run(Start(cfg), map[]), a);
    assert Exec(cfg, [a, b]) == Step(cfg, Exec(cfg, [a]), b);
    assert Exec(cfg, [a, b, c]) == Step(cfg, Exec(cfg, [a, b]), c);
  }

  lemma FirstAdmission()
    ensures var s := Admit(Start(Config(2, 1, 1, 1)), "a");
      s.reqs == [NewReq("a")] && s.pending == ["a"] && s.slots == [Slot(Empty, None), Slot(Empty, None)]
  {}

  /** A second admission of the only id replaces its record. */
  lemma SecondAdmission(s: Scheduler)
    requires |s.reqs| == 1 && s.reqs[0].id == "a" && s.pending == []
    ensures var t := Admit(s, "a"); t.reqs == [NewReq("a")] && t.pending == ["a"] && t.slots == s.slots
  {
    assert Find(s.reqs, "a") == Some(0);
  }

  /** Admitting a live id again breaks ownership: its record is replaced while its old slot keeps it as owner. */
  lemma ReadmissionOwnsTwoSlots()
    ensures var ops := [AdmitOp("a"), TickOp, AdmitOp("a"), TickOp];
      var s := Exec(Config(2, 1, 1, 1), ops).sched;
      !DistinctIds(ops) && |s.slots| == 2 && s.slots[0].owner == Some("a") && s.slots[1].owner == Some("a")
  {
    var cfg := Config(2, 1, 1, 1);
    var ops := [AdmitOp("a"), TickOp, AdmitOp("a"), TickOp];
    assert ops[0].id == ops[2].id;
    hide Exec, Tick, Admit, Start;
    ExecFour(cfg, AdmitOp("a"), TickOp, AdmitOp("a"), TickOp);
    FirstAdmission();
    var s1 := Admit(Start(cfg), "a");
    TickGivesSlot(s1, 0);
    var s2 := Tick(cfg, s1);
    SecondAdmission(s2);
    TickGivesSlot(Admit(s2, "a"), 1);
  }
}
