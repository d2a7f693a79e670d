/**
What a tick does to each request and what a finished request has produced, said position by position and over every run
of the token-level scheduler.
*/
module ContinuousExact {
  import opened Core
  import opened Continuous
  import Progress = ContinuousProgress
  import opened ContinuousRuns

  // ---------------------------------------------------------------------------
  // Prefill and decode, position by position
  // ---------------------------------------------------------------------------

  /** How many requests before position `i` start their prefill. */
  ghost function StartsBefore(reqs: seq<Req>, i: nat): nat
    requires i <= |reqs|
  {
    if i == 0 then 0 else StartsBefore(reqs, i - 1) + if reqs[i-1].phase == PrefillPending then 1 else 0
  }

  /** How many requests before position `i` have a chunk to emit. */
  ghost function EmitsBefore(reqs: seq<Req>, i: nat, maxSteps: int): nat
    requires i <= |reqs|
  {
    if i == 0 then 0
    else
      EmitsBefore(reqs, i - 1, maxSteps) +
      if reqs[i-1].phase == DecodeActive && reqs[i-1].steps < maxSteps then 1 else 0
  }

  /** Prefill starts, goes on or hands over to decode; nothing else of the record changes. */
  ghost predicate Prefilled(r: Req, n: Req) {
    && n == r.(phase := n.phase, prefillLeft := n.prefillLeft)
    && (r.phase == PrefillPending ==> n.phase == PrefillRunning && n.prefillLeft == r.prefillLeft)
    && (r.phase == PrefillRunning ==>
          n.prefillLeft == r.prefillLeft - 1 && n.phase == if r.prefillLeft > 1 then PrefillRunning else DecodeActive)
    && (r.phase != PrefillPending && r.phase != PrefillRunning ==> n == r)
  }

  /** A decoding request emits its next chunk, or starts draining once it has emitted all of them. */
  ghost predicate Decoded(r: Req, n: Req, maxSteps: int) {
    if r.steps < maxSteps
    then n == r.(chunks := r.chunks + [Chunk(r.id, r.slot, r.steps)], steps := r.steps + 1)
    else n == r.(phase := StreamDraining, reason := Some(Stop))
  }

  lemma {:induction false} StartsShift(reqs: seq<Req>, i: nat)
    requires 1 <= i <= |reqs|
    ensures StartsBefore(reqs, i) == StartsBefore(reqs[1..], i - 1) + if reqs[0].phase == PrefillPending then 1 else 0
  {
    if i > 1 {
      StartsShift(reqs, i - 1);
      assert reqs[1..][i-2] == reqs[i-1];
    }
  }

  lemma {:induction false} EmitsShift(reqs: seq<Req>, i: nat, maxSteps: int)
    requires 1 <= i <= |reqs|
    ensures EmitsBefore(reqs, i, maxSteps) == EmitsBefore(reqs[1..], i - 1, maxSteps) +
      if reqs[0].phase == DecodeActive && reqs[0].steps < maxSteps then 1 else 0
  {
    if i > 1 {
      EmitsShift(reqs, i - 1, maxSteps);
      assert reqs[1..][i-2] == reqs[i-1];
    }
  }

  /** Prefill goes through the requests in order until as many have started as the limit allows. */
  lemma {:induction false} PrefillExactly(reqs: seq<Req>, count: int, limit: int, i: nat)
    requires i < |reqs|
    ensures |Prefill(reqs, count, limit)| == |reqs|
    ensures count + StartsBefore(reqs, i) < limit ==> Prefilled(reqs[i], Prefill(reqs, count, limit)[i])
    ensures count + StartsBefore(reqs, i) >= limit ==> Prefill(reqs, count, limit)[i] == reqs[i]
    decreases |reqs|
  {
    Progress.PrefillPointwise(reqs, count, limit);
    if count < limit && i > 0 {
      StartsShift(reqs, i);
      PrefillExactly(reqs[1..], if reqs[0].phase == PrefillPending then count + 1 else count, limit, i - 1);
      assert reqs[1..][i-1] == reqs[i];
      hide StartsBefore, Prefilled;
    }
  }

  /** Decode goes through the decoding requests in order until as many chunks are emitted as the limit allows. */
  lemma {:induction false} DecodeExactly(reqs: seq<Req>, count: int, limit: int, maxSteps: int, i: nat)
    requires i < |reqs|
    ensures var out := Decode(reqs, count, limit, maxSteps);
      && |out| == |reqs|
      && (reqs[i].phase == DecodeActive && count + EmitsBefore(reqs, i, maxSteps) < limit ==>
            Decoded(reqs[i], out[i], maxSteps))
      && (reqs[i].phase != DecodeActive || count + EmitsBefore(reqs, i, maxSteps) >= limit ==> out[i] == reqs[i])
    decreases |reqs|
  {
    Progress.DecodePointwise(reqs, count, limit, maxSteps);
    if count < limit && i > 0 {
      EmitsShift(reqs, i, maxSteps);
      var next := if reqs[0].phase != DecodeActive || reqs[0].steps >= maxSteps then count else count + 1;
      DecodeExactly(reqs[1..], next, limit, maxSteps, i - 1);
      assert reqs[1..][i-1] == reqs[i];
      hide EmitsBefore, Decoded;
    }
  }

  // ---------------------------------------------------------------------------
  // What a finished request has produced
  // ---------------------------------------------------------------------------

  /** The number of chunks the configuration asks of a request. */
  ghost function Asked(cfg: Config): nat { if cfg.maxSteps > 0 then cfg.maxSteps else 0 }

  /** Progress and finish reason fit the phase. */
  ghost predicate Fits(cfg: Config, r: Req) {
    && r.steps <= Asked(cfg)
    && match r.phase {
         case Admitted => r.steps == 0 && r.reason == None
         case PrefillPending => r.steps == 0 && r.reason == None
         case PrefillRunning => r.steps == 0 && r.reason == None
         case DecodeActive => r.reason == None
         case StreamDraining => r.steps == Asked(cfg) && r.reason == Some(Stop)
         case Completed => r.steps == Asked(cfg) && r.reason == Some(Stop)
         case Cancelled => r.reason == Some(WasCancelled)
         case TimedOut => r.reason == Some(WasTimedOut)
         case Failed => r.reason == Some(WasError)
       }
  }

  ghost predicate AllFit(cfg: Config, reqs: seq<Req>) { forall i :: 0 <= i < |reqs| ==> Fits(cfg, reqs[i]) }

  lemma PiecesFit(cfg: Config, r: Req, a: Req, p: Req, d: Req)
    requires Fits(cfg, r)
    requires a == r || (r.phase.Admitted? && a.phase.PrefillPending? && a == r.(phase := a.phase, slot := a.slot))
    requires p == a || Prefilled(a, p)
    requires d == p || (p.phase.DecodeActive? && Decoded(p, d, cfg.maxSteps))
    ensures Fits(cfg, DrainOne(d))
  {}

  lemma TickFits(cfg: Config, s: Scheduler, i: nat)
    requires i < |s.reqs| && Fits(cfg, s.reqs[i])
    ensures |Tick(cfg, s).reqs| == |s.reqs| && Fits(cfg, Tick(cfg, s).reqs[i])
  {
    var x := s.(tick := s.tick + 1);
    var a := AdmitPending(x, s.pending).reqs;
    var p := Prefill(a, 0, cfg.maxPrefill);
    var d := Decode(p, 0, cfg.maxDecode, cfg.maxSteps);
    assert Tick(cfg, s).reqs == DrainReqs(d) by { hide AdmitPending, Prefill, Decode, DrainSlots; }
    hide Tick, AdmitPending, Prefill, Decode, Fits, Prefilled, Decoded, OnlyPlaced;
    AdmissionPlaces(x, s.pending);
    Progress.AdmissionPointwise(cfg, x, s.pending);
    PrefillExactly(a, 0, cfg.maxPrefill, i);
    DecodeExactly(p, 0, cfg.maxDecode, cfg.maxSteps, i);
    PlacedIs(s.reqs[i], a[i]);
    PiecesFit(cfg, s.reqs[i], a[i], p[i], d[i]);
  }

  lemma PlacedIs(r: Req, a: Req)
    requires OnlyPlaced(r, a)
    ensures a == r || (r.phase.Admitted? && a == r.(phase := a.phase, slot := a.slot))
  {}

  lemma StepFits(cfg: Config, r: Run, op: Op)
    requires AllFit(cfg, r.sched.reqs)
    ensures AllFit(cfg, Step(cfg, r, op).sched.reqs)
  {
    var s, t := r.sched, Step(cfg, r, op).sched;
    match op {
      case TickOp =>
        TickSlots(cfg, s);
        hide Tick;
        forall i | 0 <= i < |t.reqs| ensures Fits(cfg, t.reqs[i]) { TickFits(cfg, s, i); }
      case AdmitOp(id) =>
        assert Fits(cfg, NewReq(id));
      case EndOp(id, e) =>
      case TakeOp(id) =>
    }
  }

  /** Over every run, progress and finish reason of every request fit its phase. */
  lemma {:induction false} AlwaysFits(cfg: Config, ops: seq<Op>)
    ensures AllFit(cfg, Exec(cfg, ops).sched.reqs)
  {
    if ops != [] {
      AlwaysFits(cfg, ops[..|ops|-1]);
      StepFits(cfg, Exec(cfg, ops[..|ops|-1]), ops[|ops|-1]);
    }
  }

  /**
  Over every run with distinct ids: a request that is draining or completed has emitted exactly the chunks asked of it,
  in order, between what was drained and what it still holds; and no request ever emits more.
  */
  lemma CompletedDelivers(cfg: Config, ops: seq<Op>, i: nat)
    requires DistinctIds(ops) && i < |Exec(cfg, ops).sched.reqs|
    ensures var run := Exec(cfg, ops);
      var r := run.sched.reqs[i];
      var all := TakenFrom(run, r.id) + r.chunks;
      && |all| <= Asked(cfg) && (forall j :: 0 <= j < |all| ==> all[j] == Chunk(r.id, r.slot, j))
      && (r.phase == Completed || r.phase == StreamDraining ==> |all| == Asked(cfg) && r.reason == Some(Stop))
  {
    AlwaysFits(cfg, ops);
    AlwaysGood(cfg, ops);
    var run := Exec(cfg, ops);
    hide Exec;
    var r := run.sched.reqs[i];
    assert Fits(cfg, r);
    assert Conserved(TakenFrom(run, r.id), r);
  }

  /** Each way to end a live request, and that a finished one is left alone. */
  lemma EndExactly(cfg: Config, run: Run, id: Id, e: Ending, i: nat)
    requires i < |run.sched.reqs| && Find(run.sched.reqs, id) == Some(i)
    ensures var r, n := run.sched.reqs[i], Step(cfg, run, EndOp(id, e)).sched;
      && |n.reqs| == |run.sched.reqs| && (forall j :: 0 <= j < |n.reqs| && j != i ==> n.reqs[j] == run.sched.reqs[j])
      && (r.phase == Completed || r.phase == Cancelled || r.phase == TimedOut || r.phase == Failed ==> n == run.sched)
      && (r.phase != Completed && r.phase != Cancelled && r.phase != TimedOut && r.phase != Failed ==>
            n.reqs[i] == match e
              case Cancel => r.(phase := Cancelled, reason := Some(WasCancelled))
              case TimeOut => r.(phase := TimedOut, reason := Some(WasTimedOut))
              case Fail => r.(phase := Failed, reason := Some(WasError)))
  {}
}
