/**
The token-level scheduler of the continuous-batching contract: admission to slots, prefill, decode and drain,
with cancellation, time-out and failure at any point between ticks.

Slots are taken but never given back: no path returns a slot to EMPTY, and a drained slot stays RESERVED without
an owner.  Request records are kept in order of first admission.
*/
module Continuous {
  import opened Core

  type Id = string

  datatype Phase =
    | Admitted | PrefillPending | PrefillRunning | DecodeActive | StreamDraining
    | Completed | Failed | Cancelled | TimedOut
  {
    predicate Terminal() { Completed? || Failed? || Cancelled? || TimedOut? }
    /** Live and holding a slot. */
    predicate Slotted() { PrefillPending? || PrefillRunning? || DecodeActive? || StreamDraining? }
  }

  datatype FinishReason = Stop | WasCancelled | WasTimedOut | WasError

  /** The slot states the code assigns; PREFILL, DECODING, DRAINING and FAILED are never set. */
  datatype SlotState = Empty | Reserved | Released

  /** A slot is identified by its position. */
  datatype Slot = Slot(state: SlotState, owner: Option<Id>)

  /** The text of a chunk is determined by the id and the index. */
  datatype Chunk = Chunk(id: Id, slot: Option<nat>, index: nat)

  datatype Req = Req(
    id: Id, phase: Phase, slot: Option<nat>, prefillLeft: int, steps: nat, chunks: seq<Chunk>,
    reason: Option<FinishReason>)

  datatype Config = Config(maxSlots: nat, maxPrefill: int, maxDecode: int, maxSteps: int)

  datatype Scheduler = Scheduler(reqs: seq<Req>, slots: seq<Slot>, pending: seq<Id>, tick: nat)

  function Start(cfg: Config): Scheduler {
    Scheduler([], seq(cfg.maxSlots, i => Slot(Empty, None)), [], 0)
  }

  // ---------------------------------------------------------------------------
  // Operations between ticks
  // ---------------------------------------------------------------------------

  function NewReq(id: Id): Req { Req(id, Admitted, None, 1, 0, [], None) }

  /** Position of a request record. */
  function Find(reqs: seq<Req>, id: Id): (r: Option<nat>)
    ensures r.Some? ==> r.value < |reqs| && reqs[r.value].id == id
    ensures r.None? ==> forall i :: 0 <= i < |reqs| ==> reqs[i].id != id
  {
    if reqs == [] then None
    else if reqs[0].id == id then Some(0)
    else
      var r := Find(reqs[1..], id);
      assert forall i :: 1 <= i < |reqs| ==> reqs[i] == reqs[1..][i-1];
      if r.Some? then Some(r.value + 1) else None
  }

  /** A second admission of the same id replaces the record but keeps its place. */
  function Admit(s: Scheduler, id: Id): Scheduler {
    var at := Find(s.reqs, id);
    s.(reqs := if at.Some? then s.reqs[at.value := NewReq(id)] else s.reqs + [NewReq(id)], pending := s.pending + [id])
  }

  /** The first slot owned by a request. */
  function OwnedBy(slots: seq<Slot>, id: Id): (r: Option<nat>)
    ensures r.Some? ==> r.value < |slots| && slots[r.value].owner == Some(id)
    ensures r.None? ==> forall k :: 0 <= k < |slots| ==> slots[k].owner != Some(id)
  {
    if slots == [] then None
    else if slots[0].owner == Some(id) then Some(0)
    else
      var r := OwnedBy(slots[1..], id);
      assert forall k :: 1 <= k < |slots| ==> slots[k] == slots[1..][k-1];
      if r.Some? then Some(r.value + 1) else None
  }

  function ReleaseSlot(slots: seq<Slot>, id: Id): seq<Slot> {
    var k := OwnedBy(slots, id);
    if k.Some? then slots[k.value := Slot(Released, None)] else slots
  }

  /** cancel, timeout and fail_request: end a live request and release its slot. */
  function EndRequest(s: Scheduler, id: Id, phase: Phase, reason: FinishReason): Scheduler {
    var at := Find(s.reqs, id);
    if at.None? || s.reqs[at.value].phase.Terminal() then s
    else s.(reqs := s.reqs[at.value := s.reqs[at.value].(phase := phase, reason := Some(reason))],
            slots := ReleaseSlot(s.slots, id))
  }

  function DrainOutputs(s: Scheduler, id: Id): (Scheduler, seq<Chunk>) {
    var at := Find(s.reqs, id);
    if at.None? then (s, [])
    else (s.(reqs := s.reqs[at.value := s.reqs[at.value].(chunks := [])]), s.reqs[at.value].chunks)
  }

  // ---------------------------------------------------------------------------
  // The four phases of a tick
  // ---------------------------------------------------------------------------

  function FirstEmpty(slots: seq<Slot>): (r: Option<nat>)
    ensures r.Some? ==> r.value < |slots| && slots[r.value].state == Empty
    ensures r.None? ==> forall k :: 0 <= k < |slots| ==> slots[k].state != Empty
  {
    if slots == [] then None
    else if slots[0].state == Empty then Some(0)
    else
      var r := FirstEmpty(slots[1..]);
      assert forall k :: 1 <= k < |slots| ==> slots[k] == slots[1..][k-1];
      if r.Some? then Some(r.value + 1) else None
  }

  function RemoveFirst(ids: seq<Id>, id: Id): seq<Id> {
    if ids == [] then [] else if ids[0] == id then ids[1..] else [ids[0]] + RemoveFirst(ids[1..], id)
  }

  function Assign(s: Scheduler, i: nat, k: nat): Scheduler
    requires i < |s.reqs| && k < |s.slots|
  {
    s.(slots := s.slots[k := Slot(Reserved, Some(s.reqs[i].id))],
       reqs := s.reqs[i := s.reqs[i].(phase := PrefillPending, slot := Some(k))],
       pending := RemoveFirst(s.pending, s.reqs[i].id))
  }

  /** _process_admission over a copy of the pending list; it stops when slots run out. */
  function AdmitPending(s: Scheduler, todo: seq<Id>): Scheduler
    decreases |todo|
  {
    if todo == [] then s
    else
      var at := Find(s.reqs, todo[0]);
      if at.None? || s.reqs[at.value].phase != Admitted then
        AdmitPending(s.(pending := RemoveFirst(s.pending, todo[0])), todo[1..])
      else
        match FirstEmpty(s.slots)
        case None => s
        case Some(k) => AdmitPending(Assign(s, at.value, k), todo[1..])
  }

  function PrefillOne(r: Req): Req {
    match r.phase
    case PrefillPending => r.(phase := PrefillRunning)
    case PrefillRunning =>
      r.(prefillLeft := r.prefillLeft - 1, phase := if r.prefillLeft <= 1 then DecodeActive else PrefillRunning)
    case _ => r
  }

  /** _process_prefill: only a start of prefill counts against the limit. */
  function Prefill(reqs: seq<Req>, count: int, limit: int): seq<Req> {
    if reqs == [] || count >= limit then reqs
    else [PrefillOne(reqs[0])] + Prefill(reqs[1..], if reqs[0].phase == PrefillPending then count + 1 else count, limit)
  }

  function DecodeOne(r: Req, maxSteps: int): Req {
    if r.steps >= maxSteps then r.(phase := StreamDraining, reason := Some(Stop))
    else r.(chunks := r.chunks + [Chunk(r.id, r.slot, r.steps)], steps := r.steps + 1)
  }

  /** _process_decode: only an emitted chunk counts against the limit. */
  function Decode(reqs: seq<Req>, count: int, limit: int, maxSteps: int): seq<Req> {
    if reqs == [] || count >= limit then reqs
    else if reqs[0].phase != DecodeActive then [reqs[0]] + Decode(reqs[1..], count, limit, maxSteps)
    else [DecodeOne(reqs[0], maxSteps)]
         + Decode(reqs[1..], if reqs[0].steps >= maxSteps then count else count + 1, limit, maxSteps)
  }

  function DrainOne(r: Req): Req { if r.phase == StreamDraining then r.(phase := Completed) else r }

  function DisownSlot(slots: seq<Slot>, k: Option<nat>): seq<Slot> {
    if k.Some? && k.value < |slots| then slots[k.value := slots[k.value].(owner := None)] else slots
  }

  /** _process_drain: the slot loses its owner; its state is left as it was. */
  function DrainSlots(reqs: seq<Req>, slots: seq<Slot>): seq<Slot> {
    if reqs == [] then slots
    else DrainSlots(reqs[1..], if reqs[0].phase == StreamDraining then DisownSlot(slots, reqs[0].slot) else slots)
  }

  function DrainReqs(reqs: seq<Req>): (r: seq<Req>)
    ensures |r| == |reqs| && forall i :: 0 <= i < |r| ==> r[i] == DrainOne(reqs[i])
  {
    if reqs == [] then [] else [DrainOne(reqs[0])] + DrainReqs(reqs[1..])
  }

  function Drain(s: Scheduler): Scheduler {
    s.(reqs := DrainReqs(s.reqs), slots := DrainSlots(s.reqs, s.slots))
  }

  function Worked(cfg: Config, reqs: seq<Req>): seq<Req> {
    Decode(Prefill(reqs, 0, cfg.maxPrefill), 0, cfg.maxDecode, cfg.maxSteps)
  }

  /** tick */
  function Tick(cfg: Config, s: Scheduler): Scheduler {
    var a := AdmitPending(s.(tick := s.tick + 1), s.pending);
    Drain(a.(reqs := Worked(cfg, a.reqs)))
  }

  // ---------------------------------------------------------------------------
  // Slot ownership
  // ---------------------------------------------------------------------------

  /** The chunks a request holds are the last ones it produced. */
  ghost predicate ChunksInOrder(r: Req) {
    && |r.chunks| <= r.steps
    && forall j :: 0 <= j < |r.chunks| ==> r.chunks[j] == Chunk(r.id, r.slot, r.steps - |r.chunks| + j)
  }

  ghost predicate ReqOk(slots: seq<Slot>, r: Req) {
    && ChunksInOrder(r)
    && (r.phase.Admitted? ==> r.slot.None? && r.steps == 0)
    && (r.phase.Admitted? || r.phase.PrefillPending? || r.phase.PrefillRunning? ==> r.prefillLeft == 1)
    && (r.phase.Slotted() ==> r.slot.Some?)
    && (r.slot.None? ==> r.steps == 0)
    && (r.slot.Some? ==> r.slot.value < |slots| && slots[r.slot.value].state != Empty)
    && (r.phase.Slotted() ==> slots[r.slot.value] == Slot(Reserved, Some(r.id)))
  }

  ghost predicate SlotOk(reqs: seq<Req>, slots: seq<Slot>, k: nat)
    requires k < |slots|
  {
    && (slots[k].owner.Some? ==> slots[k].state == Reserved)
    && (slots[k].owner.Some? ==> exists i :: 0 <= i < |reqs| && Holds(reqs[i], k) && reqs[i].id == slots[k].owner.value)
  }

  /** A live request holding slot `k`. */
  ghost predicate Holds(r: Req, k: nat) { r.phase.Slotted() && r.slot == Some(k) }

  ghost predicate Inv(s: Scheduler) {
    && (forall i, j :: 0 <= i < j < |s.reqs| ==> s.reqs[i].id != s.reqs[j].id)
    && (forall i :: 0 <= i < |s.reqs| ==> ReqOk(s.slots, s.reqs[i]))
    && (forall i, j :: 0 <= i < j < |s.reqs| && s.reqs[i].slot.Some? ==> s.reqs[i].slot != s.reqs[j].slot)
    && (forall k :: 0 <= k < |s.slots| ==> SlotOk(s.reqs, s.slots, k))
    && (forall i :: 0 <= i < |s.reqs| && s.reqs[i].phase.Admitted? ==> s.reqs[i].id in s.pending)
  }

  lemma StartInv(cfg: Config)
    ensures Inv(Start(cfg))
  {}

  /** A slot owned by a request is the one the request holds. */
  lemma OwnerIs(s: Scheduler, i: nat, k: nat)
    requires Inv(s) && i < |s.reqs| && k < |s.slots| && s.slots[k].owner == Some(s.reqs[i].id)
    ensures Holds(s.reqs[i], k)
  {
    assert SlotOk(s.reqs, s.slots, k);
    var j :| 0 <= j < |s.reqs| && Holds(s.reqs[j], k) && s.reqs[j].id == s.slots[k].owner.value;
    assert i == j;
  }

  /** The id is new, or its record is waiting or finished. */
  predicate MayAdmit(s: Scheduler, id: Id) {
    var at := Find(s.reqs, id);
    at.None? || !s.reqs[at.value].phase.Slotted()
  }

  lemma AdmitNewInv(s: Scheduler, id: Id)
    requires Inv(s) && Find(s.reqs, id).None?
    ensures Inv(Admit(s, id))
  {
    var t := Admit(s, id);
    assert t.reqs == s.reqs + [NewReq(id)];
    hide Admit, Find;
    forall k | 0 <= k < |t.slots| ensures SlotOk(t.reqs, t.slots, k) {
      assert SlotOk(s.reqs, s.slots, k);
      if s.slots[k].owner.Some? {
        var i :| 0 <= i < |s.reqs| && Holds(s.reqs[i], k) && s.reqs[i].id == s.slots[k].owner.value;
        assert t.reqs[i] == s.reqs[i];
      }
    }
  }

  /** Replacing the record of a request that owns no slot. */
  lemma AdmitAgainInv(s: Scheduler, id: Id)
    requires Inv(s) && Find(s.reqs, id).Some? && MayAdmit(s, id)
    ensures Inv(Admit(s, id))
  {
    var t, at := Admit(s, id), Find(s.reqs, id).value;
    forall i | 0 <= i < |t.reqs| ensures ReqOk(t.slots, t.reqs[i]) {
      assert ReqOk(s.slots, s.reqs[i]);
    }
    forall k | 0 <= k < |t.slots| ensures SlotOk(t.reqs, t.slots, k) {
      assert SlotOk(s.reqs, s.slots, k);
      if s.slots[k].owner.Some? {
        var i :| 0 <= i < |s.reqs| && Holds(s.reqs[i], k) && s.reqs[i].id == s.slots[k].owner.value;
        assert i != at && t.reqs[i] == s.reqs[i];
      }
    }
  }

  /** Admitting a slotted id again leaves its slot with an owner that no longer holds it. */
  lemma ReadmissionOrphansSlot(s: Scheduler, id: Id)
    requires Inv(s) && !MayAdmit(s, id)
    ensures exists k :: 0 <= k < |s.slots| && Orphaned(Admit(s, id), id, k)
    ensures !Inv(Admit(s, id))
  {
    var t, at := Admit(s, id), Find(s.reqs, id).value;
    assert ReqOk(s.slots, s.reqs[at]);
    var k := s.reqs[at].slot.value;
    assert Orphaned(t, id, k);
    if Inv(t) {
      OwnerIs(t, at, k);
    }
  }

  /** Slot `k` names `id` as its owner, but the record of `id` does not hold it. */
  ghost predicate Orphaned(s: Scheduler, id: Id, k: nat) {
    && k < |s.slots| && s.slots[k].owner == Some(id)
    && forall i :: 0 <= i < |s.reqs| && s.reqs[i].id == id ==> !Holds(s.reqs[i], k)
  }

  /** Admission keeps slot ownership exactly when it does not name a request that holds a slot. */
  lemma AdmitInv(s: Scheduler, id: Id)
    requires Inv(s)
    ensures Inv(Admit(s, id)) <==> MayAdmit(s, id)
  {
    hide Inv, Admit;
    if !MayAdmit(s, id) {
      ReadmissionOrphansSlot(s, id);
    } else if Find(s.reqs, id).None? {
      AdmitNewInv(s, id);
    } else {
      AdmitAgainInv(s, id);
    }
  }

  /** A live request's slot is the one released; a waiting request has none. */
  lemma ReleasedSlot(s: Scheduler, i: nat)
    requires Inv(s) && i < |s.reqs| && !s.reqs[i].phase.Terminal()
    ensures var r := s.reqs[i];
      ReleaseSlot(s.slots, r.id) == if r.phase.Slotted() then s.slots[r.slot.value := Slot(Released, None)] else s.slots
  {
    assert ReqOk(s.slots, s.reqs[i]);
    var m := OwnedBy(s.slots, s.reqs[i].id);
    if m.Some? {
      OwnerIs(s, i, m.value);
    }
  }

  /** The state after a live request ends with its slot released. */
  lemma EndedReqs(s: Scheduler, i: nat, slots: seq<Slot>, n: Req, reqs: seq<Req>)
    requires Inv(s) && i < |s.reqs| && !s.reqs[i].phase.Terminal() && slots == ReleaseSlot(s.slots, s.reqs[i].id)
    requires reqs == s.reqs[i := n]
    requires n.phase.Terminal() && n == s.reqs[i].(phase := n.phase, reason := n.reason)
    ensures forall j :: 0 <= j < |reqs| ==> ReqOk(slots, reqs[j])
  {
    ReleasedSlot(s, i);
    assert ReqOk(s.slots, s.reqs[i]);
    forall j | 0 <= j < |s.reqs| ensures ReqOk(slots, reqs[j]) {
      assert ReqOk(s.slots, s.reqs[j]);
    }
  }

  lemma EndedSlots(s: Scheduler, i: nat, slots: seq<Slot>, n: Req, reqs: seq<Req>)
    requires Inv(s) && i < |s.reqs| && !s.reqs[i].phase.Terminal() && slots == ReleaseSlot(s.slots, s.reqs[i].id)
    requires reqs == s.reqs[i := n]
    ensures forall k :: 0 <= k < |slots| ==> SlotOk(reqs, slots, k)
  {
    ReleasedSlot(s, i);
    forall k | 0 <= k < |slots| ensures SlotOk(reqs, slots, k) {
      assert SlotOk(s.reqs, s.slots, k);
      if slots[k].owner.Some? {
        var j :| 0 <= j < |s.reqs| && Holds(s.reqs[j], k) && s.reqs[j].id == s.slots[k].owner.value;
        assert j != i;
        assert Holds(reqs[j], k);
      }
    }
  }

  lemma EndInv(s: Scheduler, id: Id, phase: Phase, reason: FinishReason)
    requires Inv(s) && phase.Terminal()
    ensures Inv(EndRequest(s, id, phase, reason))
  {
    var at := Find(s.reqs, id);
    if at.Some? && !s.reqs[at.value].phase.Terminal() {
      var n := s.reqs[at.value].(phase := phase, reason := Some(reason));
      hide ReleaseSlot, ReqOk, SlotOk;
      EndedReqs(s, at.value, ReleaseSlot(s.slots, id), n, s.reqs[at.value := n]);
      EndedSlots(s, at.value, ReleaseSlot(s.slots, id), n, s.reqs[at.value := n]);
    }
  }

  /** Nothing but work was done: same request, same slot, same standing. */
  ghost predicate Evolves(slots: seq<Slot>, r: Req, n: Req) {
    && n.id == r.id && n.slot == r.slot && (n.phase.Slotted() <==> r.phase.Slotted())
    && (n.phase.Admitted? ==> r.phase.Admitted?) && (r.phase.Terminal() ==> n.phase == r.phase && n.steps == r.steps)
    && (ReqOk(slots, r) ==> ReqOk(slots, n))
  }

  lemma EvolvesInv(s: Scheduler, reqs: seq<Req>)
    requires Inv(s) && |reqs| == |s.reqs|
    requires forall i :: 0 <= i < |reqs| ==> Evolves(s.slots, s.reqs[i], reqs[i])
    ensures Inv(s.(reqs := reqs))
  {
    forall k | 0 <= k < |s.slots| ensures SlotOk(reqs, s.slots, k) {
      assert SlotOk(s.reqs, s.slots, k);
      if s.slots[k].owner.Some? {
        var i :| 0 <= i < |s.reqs| && Holds(s.reqs[i], k) && s.reqs[i].id == s.slots[k].owner.value;
        assert Holds(reqs[i], k);
      }
    }
  }

  lemma DrainOutputsInv(s: Scheduler, id: Id)
    requires Inv(s)
    ensures Inv(DrainOutputs(s, id).0)
  {
    EvolvesInv(s, DrainOutputs(s, id).0.reqs);
  }

  lemma {:induction false} RemoveFirstKeeps(ids: seq<Id>, id: Id, x: Id)
    requires x != id && x in ids
    ensures x in RemoveFirst(ids, id)
  {
    if ids[0] != id && ids[0] != x {
      assert x in ids[1..];
      RemoveFirstKeeps(ids[1..], id, x);
    } else if ids[0] == id {
      assert x in ids[1..];
    }
  }

  lemma AssignInv(s: Scheduler, i: nat, k: nat)
    requires Inv(s) && i < |s.reqs| && k < |s.slots| && s.reqs[i].phase.Admitted? && s.slots[k].state == Empty
    ensures Inv(Assign(s, i, k))
  {
    var t := Assign(s, i, k);
    assert ReqOk(s.slots, s.reqs[i]);
    forall j | 0 <= j < |t.reqs| ensures ReqOk(t.slots, t.reqs[j]) {
      assert ReqOk(s.slots, s.reqs[j]);
    }
    forall m | 0 <= m < |t.slots| ensures SlotOk(t.reqs, t.slots, m) {
      assert SlotOk(s.reqs, s.slots, m);
      if m == k {
        assert Holds(t.reqs[i], k);
      } else if s.slots[m].owner.Some? {
        var j :| 0 <= j < |s.reqs| && Holds(s.reqs[j], m) && s.reqs[j].id == s.slots[m].owner.value;
        assert t.reqs[j] == s.reqs[j];
      }
    }
    forall j | 0 <= j < |t.reqs| && t.reqs[j].phase.Admitted? ensures t.reqs[j].id in t.pending {
      RemoveFirstKeeps(s.pending, s.reqs[i].id, s.reqs[j].id);
    }
  }

  /** Dropping a pending id whose request is not waiting. */
  lemma SkipInv(s: Scheduler, id: Id)
    requires Inv(s)
    requires var at := Find(s.reqs, id); at.None? || s.reqs[at.value].phase != Admitted
    ensures Inv(s.(pending := RemoveFirst(s.pending, id)))
  {
    var t := s.(pending := RemoveFirst(s.pending, id));
    forall j | 0 <= j < |t.reqs| && t.reqs[j].phase.Admitted? ensures t.reqs[j].id in t.pending {
      RemoveFirstKeeps(s.pending, id, s.reqs[j].id);
    }
  }

  lemma {:induction false} AdmitPendingInv(s: Scheduler, todo: seq<Id>)
    requires Inv(s)
    ensures Inv(AdmitPending(s, todo))
    decreases |todo|
  {
    if todo != [] {
      var at := Find(s.reqs, todo[0]);
      if at.None? || s.reqs[at.value].phase != Admitted {
        SkipInv(s, todo[0]);
        AdmitPendingInv(s.(pending := RemoveFirst(s.pending, todo[0])), todo[1..]);
      } else if FirstEmpty(s.slots).Some? {
        AssignInv(s, at.value, FirstEmpty(s.slots).value);
        AdmitPendingInv(Assign(s, at.value, FirstEmpty(s.slots).value), todo[1..]);
      }
    }
  }

  lemma PrefillOneEvolves(slots: seq<Slot>, r: Req)
    ensures ReqOk(slots, r) ==> Evolves(slots, r, PrefillOne(r))
  {}

  lemma DecodeOneEvolves(slots: seq<Slot>, r: Req, maxSteps: int)
    ensures ReqOk(slots, r) && r.phase.DecodeActive? ==> Evolves(slots, r, DecodeOne(r, maxSteps))
  {
    if ReqOk(slots, r) && r.phase.DecodeActive? {
      assert ChunksInOrder(DecodeOne(r, maxSteps));
    }
  }

  lemma {:induction false} PrefillEvolves(slots: seq<Slot>, reqs: seq<Req>, count: int, limit: int)
    requires forall i :: 0 <= i < |reqs| ==> ReqOk(slots, reqs[i])
    ensures |Prefill(reqs, count, limit)| == |reqs|
    ensures forall i :: 0 <= i < |reqs| ==> Evolves(slots, reqs[i], Prefill(reqs, count, limit)[i])
    decreases |reqs|
  {
    if reqs != [] && count < limit {
      PrefillOneEvolves(slots, reqs[0]);
      PrefillEvolves(slots, reqs[1..], if reqs[0].phase == PrefillPending then count + 1 else count, limit);
      forall i | 1 <= i < |reqs| ensures Evolves(slots, reqs[i], Prefill(reqs, count, limit)[i]) {
        assert reqs[1..][i-1] == reqs[i];
      }
    }
  }

  lemma {:induction false} DecodeEvolves(slots: seq<Slot>, reqs: seq<Req>, count: int, limit: int, maxSteps: int)
    requires forall i :: 0 <= i < |reqs| ==> ReqOk(slots, reqs[i])
    ensures |Decode(reqs, count, limit, maxSteps)| == |reqs|
    ensures forall i :: 0 <= i < |reqs| ==> Evolves(slots, reqs[i], Decode(reqs, count, limit, maxSteps)[i])
    decreases |reqs|
  {
    if reqs != [] && count < limit {
      DecodeOneEvolves(slots, reqs[0], maxSteps);
      var next := if reqs[0].phase != DecodeActive || reqs[0].steps >= maxSteps then count else count + 1;
      DecodeEvolves(slots, reqs[1..], next, limit, maxSteps);
      forall i | 1 <= i < |reqs| ensures Evolves(slots, reqs[i], Decode(reqs, count, limit, maxSteps)[i]) {
        assert reqs[1..][i-1] == reqs[i];
      }
    }
  }

  lemma WorkedInv(cfg: Config, s: Scheduler)
    requires Inv(s)
    ensures Inv(s.(reqs := Worked(cfg, s.reqs)))
    ensures |Worked(cfg, s.reqs)| == |s.reqs|
  {
    PrefillEvolves(s.slots, s.reqs, 0, cfg.maxPrefill);
    var mid := Prefill(s.reqs, 0, cfg.maxPrefill);
    EvolvesInv(s, mid);
    DecodeEvolves(s.slots, mid, 0, cfg.maxDecode, cfg.maxSteps);
    EvolvesInv(s.(reqs := mid), Worked(cfg, s.reqs));
  }

  ghost predicate Draining(reqs: seq<Req>, k: nat) {
    exists i :: 0 <= i < |reqs| && reqs[i].phase.StreamDraining? && reqs[i].slot == Some(k)
  }

  /** Exactly the slots of draining requests lose their owner. */
  lemma {:induction false} DrainSlotsExactly(reqs: seq<Req>, slots: seq<Slot>, k: nat)
    requires k < |slots|
    ensures |DrainSlots(reqs, slots)| == |slots|
    ensures DrainSlots(reqs, slots)[k] == if Draining(reqs, k) then slots[k].(owner := None) else slots[k]
    decreases |reqs|
  {
    if reqs != [] {
      var here := reqs[0].phase == StreamDraining;
      var next := if here then DisownSlot(slots, reqs[0].slot) else slots;
      DrainSlotsExactly(reqs[1..], next, k);
      if Draining(reqs[1..], k) {
        var i :| 0 <= i < |reqs[1..]| && reqs[1..][i].phase.StreamDraining? && reqs[1..][i].slot == Some(k);
        assert reqs[i+1].phase.StreamDraining?;
      }
      if Draining(reqs, k) && !(here && reqs[0].slot == Some(k)) {
        var i :| 0 <= i < |reqs| && reqs[i].phase.StreamDraining? && reqs[i].slot == Some(k);
        assert reqs[1..][i-1] == reqs[i];
      }
    }
  }

  /** A slot that is being drained is held by the draining request and by no other. */
  lemma DrainingHolder(s: Scheduler, i: nat, k: nat)
    requires Inv(s) && i < |s.reqs| && Draining(s.reqs, k) && s.reqs[i].slot == Some(k)
    ensures s.reqs[i].phase.StreamDraining?
  {
    var j :| 0 <= j < |s.reqs| && s.reqs[j].phase.StreamDraining? && s.reqs[j].slot == Some(k);
    assert i == j;
  }

  lemma DrainReqOk(s: Scheduler, i: nat)
    requires Inv(s) && i < |s.reqs|
    ensures ReqOk(Drain(s).slots, Drain(s).reqs[i])
  {
    assert ReqOk(s.slots, s.reqs[i]);
    DrainKeepsLength(s.reqs, s.slots);
    if s.reqs[i].slot.Some? {
      var k := s.reqs[i].slot.value;
      DrainSlotsExactly(s.reqs, s.slots, k);
      if Draining(s.reqs, k) {
        DrainingHolder(s, i, k);
      }
    }
  }

  lemma DrainSlotOk(s: Scheduler, k: nat)
    requires Inv(s) && k < |s.slots| && |Drain(s).slots| == |s.slots|
    ensures SlotOk(Drain(s).reqs, Drain(s).slots, k)
  {
    DrainSlotsExactly(s.reqs, s.slots, k);
    assert SlotOk(s.reqs, s.slots, k);
    var t := Drain(s);
    if t.slots[k].owner.Some? {
      var i :| 0 <= i < |s.reqs| && Holds(s.reqs[i], k) && s.reqs[i].id == s.slots[k].owner.value;
      assert t.reqs[i] == DrainOne(s.reqs[i]);
      assert Holds(t.reqs[i], k);
    }
  }

  lemma DrainInv(s: Scheduler)
    requires Inv(s)
    ensures Inv(Drain(s))
    ensures |Drain(s).slots| == |s.slots|
  {
    var t := Drain(s);
    DrainKeepsLength(s.reqs, s.slots);
    forall i | 0 <= i < |t.reqs| ensures ReqOk(t.slots, t.reqs[i]) {
      DrainReqOk(s, i);
    }
    forall k | 0 <= k < |t.slots| ensures SlotOk(t.reqs, t.slots, k) {
      DrainSlotOk(s, k);
    }
  }

  lemma {:induction false} DrainKeepsLength(reqs: seq<Req>, slots: seq<Slot>)
    ensures |DrainSlots(reqs, slots)| == |slots|
    decreases |reqs|
  {
    if reqs != [] {
      DrainKeepsLength(reqs[1..], if reqs[0].phase == StreamDraining then DisownSlot(slots, reqs[0].slot) else slots);
    }
  }

  lemma ClockInv(s: Scheduler, t: Scheduler)
    requires Inv(s) && t == s.(tick := t.tick)
    ensures Inv(t)
  {
    hide SlotOk, ReqOk;
  }

  /** The state after admission, and the one after the work. */
  ghost function Admitting(s: Scheduler): Scheduler { AdmitPending(s.(tick := s.tick + 1), s.pending) }

  ghost function Working(cfg: Config, a: Scheduler): Scheduler { a.(reqs := Worked(cfg, a.reqs)) }

  lemma TickIs(cfg: Config, s: Scheduler)
    ensures Tick(cfg, s) == Drain(Working(cfg, Admitting(s)))
  {
    hide AdmitPending, Worked, Drain;
  }

  lemma AdmittingInv(s: Scheduler)
    requires Inv(s)
    ensures Inv(Admitting(s))
  {
    hide AdmitPending, Inv;
    var t := s.(tick := s.tick + 1);
    ClockInv(s, t);
    AdmitPendingInv(t, s.pending);
  }

  lemma TickInv(cfg: Config, s: Scheduler)
    requires Inv(s)
    ensures Inv(Tick(cfg, s))
  {
    var a := Admitting(s);
    assert Working(cfg, a) == a.(reqs := Worked(cfg, a.reqs)) by { hide Worked; }
    hide *;
    TickIs(cfg, s);
    AdmittingInv(s);
    WorkedInv(cfg, a);
    DrainInv(Working(cfg, a));
  }

  /**
  Live slotted requests and owned slots correspond one to one: each such request owns exactly its slot, each owned
  slot is RESERVED and belongs to exactly one such request, and waiting or terminal requests own none.
  */
  lemma SlotOwnership(s: Scheduler, i: nat, k: nat)
    requires Inv(s) && i < |s.reqs| && k < |s.slots|
    ensures s.slots[k].owner == Some(s.reqs[i].id) <==> Holds(s.reqs[i], k)
    ensures s.reqs[i].phase.Slotted() ==> s.reqs[i].slot.Some? && s.reqs[i].slot.value < |s.slots|
    ensures s.slots[k].owner.Some? ==> s.slots[k].state == Reserved && Find(s.reqs, s.slots[k].owner.value).Some?
  {
    assert ReqOk(s.slots, s.reqs[i]);
    assert SlotOk(s.reqs, s.slots, k);
    if s.slots[k].owner == Some(s.reqs[i].id) {
      OwnerIs(s, i, k);
    }
  }
}
