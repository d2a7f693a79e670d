/** The token-level scheduler as an object: each phase is the loop of the code, proved equal to its specification. */
module ContinuousObject {
  import opened Core
  import opened Continuous

  class TokenLevelScheduler {
    const config: Config
    var reqs: seq<Req>
    var slots: seq<Slot>
    var pending: seq<Id>
    var tickIndex: nat

    ghost function State(): Scheduler reads this { Scheduler(reqs, slots, pending, tickIndex) }

    constructor (cfg: Config)
      ensures config == cfg && State() == Start(cfg) && Inv(State())
    {
      config := cfg;
      reqs, pending, tickIndex := [], [], 0;
      slots := seq(cfg.maxSlots, i => Slot(Empty, None));
      new;
      StartInv(cfg);
    }

    /** The position of a request's record. */
    method Lookup(id: Id) returns (at: Option<nat>)
      ensures at == Find(reqs, id)
    {
      var i := 0;
      while i < |reqs|
        invariant 0 <= i <= |reqs|
        invariant Find(reqs, id) == Shift(Find(reqs[i..], id), i)
      {
        if reqs[i].id == id {
          return Some(i);
        }
        assert reqs[i..][1..] == reqs[i+1..];
        i := i + 1;
      }
      return None;
    }

    method Admit(id: Id)
      modifies this
      ensures State() == Continuous.Admit(old(State()), id)
      ensures Inv(old(State())) ==> (Inv(State()) <==> MayAdmit(old(State()), id))
    {
      ghost var before := State();
      var at := Lookup(id);
      if at.Some? {
        reqs := reqs[at.value := NewReq(id)];
      } else {
        reqs := reqs + [NewReq(id)];
      }
      pending := pending + [id];
      if Inv(before) {
        AdmitInv(before, id);
      }
    }

    /** _release_slot_for: the first slot the request owns. */
    method Release(id: Id)
      modifies this`slots
      ensures slots == ReleaseSlot(old(slots), id)
    {
      var k := 0;
      while k < |slots|
        invariant 0 <= k <= |slots| && slots == old(slots)
        invariant OwnedBy(slots, id) == Shift(OwnedBy(slots[k..], id), k)
      {
        if slots[k].owner == Some(id) {
          slots := slots[k := Slot(Released, None)];
          return;
        }
        assert slots[k..][1..] == slots[k+1..];
        k := k + 1;
      }
    }

    /** What cancel, timeout and fail_request share. */
    method End(id: Id, phase: Phase, reason: FinishReason)
      requires phase.Terminal()
      modifies this
      ensures State() == EndRequest(old(State()), id, phase, reason)
      ensures Inv(old(State())) ==> Inv(State())
    {
      ghost var before := State();
      if Inv(before) {
        EndInv(before, id, phase, reason);
      }
      var at := Lookup(id);
      if at.None? || reqs[at.value].phase.Terminal() {
        return;
      }
      reqs := reqs[at.value := reqs[at.value].(phase := phase, reason := Some(reason))];
      Release(id);
    }

    method Cancel(id: Id)
      modifies this
      ensures State() == EndRequest(old(State()), id, Cancelled, WasCancelled)
      ensures Inv(old(State())) ==> Inv(State())
    {
      End(id, Cancelled, WasCancelled);
    }

    method Timeout(id: Id)
      modifies this
      ensures State() == EndRequest(old(State()), id, TimedOut, WasTimedOut)
      ensures Inv(old(State())) ==> Inv(State())
    {
      End(id, TimedOut, WasTimedOut);
    }

    method FailRequest(id: Id)
      modifies this
      ensures State() == EndRequest(old(State()), id, Failed, WasError)
      ensures Inv(old(State())) ==> Inv(State())
    {
      End(id, Failed, WasError);
    }

    method TakeOutputs(id: Id) returns (chunks: seq<Chunk>)
      modifies this`reqs
      ensures (State(), chunks) == DrainOutputs(old(State()), id)
      ensures Inv(old(State())) ==> Inv(State())
    {
      ghost var before := State();
      if Inv(before) {
        DrainOutputsInv(before, id);
      }
      var at := Lookup(id);
      if at.None? {
        return [];
      }
      chunks := reqs[at.value].chunks;
      reqs := reqs[at.value := reqs[at.value].(chunks := [])];
    }

    method FindEmptySlot() returns (k: Option<nat>)
      ensures k == FirstEmpty(slots)
    {
      var i := 0;
      while i < |slots|
        invariant 0 <= i <= |slots|
        invariant FirstEmpty(slots) == Shift(FirstEmpty(slots[i..]), i)
      {
        if slots[i].state == Empty {
          return Some(i);
        }
        assert slots[i..][1..] == slots[i+1..];
        i := i + 1;
      }
      return None;
    }

    method ProcessAdmission()
      modifies this
      ensures State() == AdmitPending(old(State()), old(pending))
    {
      var todo := pending;
      var i := 0;
      while i < |todo|
        invariant 0 <= i <= |todo|
        invariant AdmitPending(old(State()), todo) == AdmitPending(State(), todo[i..])
      {
        assert todo[i..][1..] == todo[i+1..];
        var at := Lookup(todo[i]);
        if at.None? || reqs[at.value].phase != Admitted {
          pending := RemoveFirst(pending, todo[i]);
        } else {
          var k := FindEmptySlot();
          if k.None? {
            return;
          }
          slots := slots[k.value := Slot(Reserved, Some(todo[i]))];
          reqs := reqs[at.value := reqs[at.value].(phase := PrefillPending, slot := Some(k.value))];
          pending := RemoveFirst(pending, todo[i]);
        }
        i := i + 1;
      }
    }

    method ProcessPrefill()
      modifies this`reqs
      ensures reqs == Prefill(old(reqs), 0, config.maxPrefill)
    {
      hide Prefill, PrefillOne;
      var all, count, i := reqs, 0, 0;
      assert all[0..] == all && reqs[..0] == [];
      while i < |all| && count < config.maxPrefill
        invariant 0 <= i <= |all| && |reqs| == |all| && reqs[i..] == all[i..]
        invariant reqs[..i] + Prefill(all[i..], count, config.maxPrefill) == Prefill(all, 0, config.maxPrefill)
      {
        ghost var done := reqs[..i];
        PrefillUnfolds(all, i, count, config.maxPrefill);
        reqs := reqs[i := PrefillOne(all[i])];
        assert reqs[..i+1] == done + [PrefillOne(all[i])];
        if all[i].phase == PrefillPending {
          count := count + 1;
        }
        i := i + 1;
      }
      PrefillStops(all[i..], count, config.maxPrefill);
      assert reqs == reqs[..i] + all[i..];
    }

    method ProcessDecode()
      modifies this`reqs
      ensures reqs == Decode(old(reqs), 0, config.maxDecode, config.maxSteps)
    {
      var all, count, i := reqs, 0, 0;
      assert all[0..] == all;
      while i < |all| && count < config.maxDecode
        invariant 0 <= i <= |all| && |reqs| == |all|
        invariant Decoded(all, reqs, i, count, config.maxDecode, config.maxSteps)
      {
        hide *;
        DecodedNext(all, reqs, i, count, config.maxDecode, config.maxSteps);
        if all[i].phase == DecodeActive {
          reqs := reqs[i := DecodeOne(all[i], config.maxSteps)];
          if all[i].steps < config.maxSteps {
            count := count + 1;
          }
        }
        i := i + 1;
      }
      DecodedAll(all, reqs, i, count, config.maxDecode, config.maxSteps);
    }

    method ProcessDrain()
      modifies this`reqs, this`slots
      ensures State() == Drain(old(State()))
    {
      var all, i := reqs, 0;
      while i < |all|
        invariant 0 <= i <= |all| && |reqs| == |all| && reqs[i..] == all[i..]
        invariant forall j :: 0 <= j < i ==> reqs[j] == DrainOne(all[j])
        invariant DrainSlots(all, old(slots)) == DrainSlots(all[i..], slots)
      {
        assert all[i..][1..] == all[i+1..];
        if all[i].phase == StreamDraining {
          slots := DisownSlot(slots, all[i].slot);
        }
        reqs := reqs[i := DrainOne(all[i])];
        i := i + 1;
      }
      assert reqs == DrainReqs(all);
    }

    method Tick()
      modifies this
      ensures State() == Continuous.Tick(config, old(State()))
      ensures Inv(old(State())) ==> Inv(State())
    {
      hide AdmitPending, Prefill, Decode, Drain, Inv;
      ghost var before := State();
      if Inv(before) {
        TickInv(config, before);
      }
      tickIndex := tickIndex + 1;
      ProcessAdmission();
      ProcessPrefill();
      ProcessDecode();
      ProcessDrain();
    }
  }

  lemma PrefillUnfolds(reqs: seq<Req>, i: nat, count: int, limit: int)
    requires i < |reqs| && count < limit
    ensures Prefill(reqs[i..], count, limit) ==
      [PrefillOne(reqs[i])] + Prefill(reqs[i+1..], if reqs[i].phase == PrefillPending then count + 1 else count, limit)
  {
    assert reqs[i..][1..] == reqs[i+1..];
  }

  lemma PrefillStops(reqs: seq<Req>, count: int, limit: int)
    requires reqs == [] || count >= limit
    ensures Prefill(reqs, count, limit) == reqs
  {}

  /** The requests before `i` are as a decode leaves them, and the others are still to come. */
  ghost predicate Decoded(all: seq<Req>, reqs: seq<Req>, i: nat, count: int, limit: int, maxSteps: int)
    requires i <= |all| == |reqs|
  {
    && reqs[i..] == all[i..]
    && reqs[..i] + Decode(all[i..], count, limit, maxSteps) == Decode(all, 0, limit, maxSteps)
  }

  lemma DecodedNext(all: seq<Req>, reqs: seq<Req>, i: nat, count: int, limit: int, maxSteps: int)
    requires i < |all| == |reqs| && count < limit && Decoded(all, reqs, i, count, limit, maxSteps)
    ensures all[i].phase != DecodeActive ==> Decoded(all, reqs, i + 1, count, limit, maxSteps)
    ensures all[i].phase == DecodeActive ==>
      Decoded(all, reqs[i := DecodeOne(all[i], maxSteps)], i + 1,
              if all[i].steps < maxSteps then count + 1 else count, limit, maxSteps)
  {
    hide Decode, DecodeOne;
    DecodeUnfolds(all, i, count, limit, maxSteps);
    var x := if all[i].phase == DecodeActive then DecodeOne(all[i], maxSteps) else all[i];
    assert reqs[i] == reqs[i..][0] == all[i..][0] == all[i];
    assert reqs[i := x][i+1..] == reqs[i..][1..] == all[i..][1..] == all[i+1..];
    assert reqs[i := x][..i+1] == reqs[..i] + [x];
    assert reqs[i := all[i]] == reqs;
    forall rest: seq<Req> ensures reqs[..i] + ([x] + rest) == (reqs[..i] + [x]) + rest {}
  }

  lemma DecodedAll(all: seq<Req>, reqs: seq<Req>, i: nat, count: int, limit: int, maxSteps: int)
    requires i <= |all| == |reqs| && (i == |all| || count >= limit) && Decoded(all, reqs, i, count, limit, maxSteps)
    ensures reqs == Decode(all, 0, limit, maxSteps)
  {
    DecodeStops(all[i..], count, limit, maxSteps);
    assert reqs == reqs[..i] + reqs[i..];
  }

  lemma DecodeUnfolds(reqs: seq<Req>, i: nat, count: int, limit: int, maxSteps: int)
    requires i < |reqs| && count < limit
    ensures Decode(reqs[i..], count, limit, maxSteps) ==
      if reqs[i].phase == DecodeActive
      then
        var next := if reqs[i].steps >= maxSteps then count else count + 1;
        [DecodeOne(reqs[i], maxSteps)] + Decode(reqs[i+1..], next, limit, maxSteps)
      else [reqs[i]] + Decode(reqs[i+1..], count, limit, maxSteps)
  {
    assert reqs[i..][1..] == reqs[i+1..];
  }

  lemma DecodeStops(reqs: seq<Req>, count: int, limit: int, maxSteps: int)
    requires reqs == [] || count >= limit
    ensures Decode(reqs, count, limit, maxSteps) == reqs
  {}

  ghost function Shift(r: Option<nat>, by': nat): Option<nat> {
    if r.Some? then Some(r.value + by') else None
  }
}
