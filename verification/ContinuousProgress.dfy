/** Progress of the token-level scheduler: every tick with work to do lowers a rank, so ticking settles. */
module ContinuousProgress {
  import opened Core
  import opened Continuous

  function Bound(cfg: Config): nat { if cfg.maxSteps < 0 then 0 else cfg.maxSteps }

  /** Ticks of work a request may still need, as seen from its phase. */
  ghost function Rank(cfg: Config, r: Req): nat {
    match r.phase
    case Admitted => Bound(cfg) + 5
    case PrefillPending => Bound(cfg) + 4
    case PrefillRunning => Bound(cfg) + 3
    case DecodeActive => 2 + if r.steps < Bound(cfg) then Bound(cfg) - r.steps else 0
    case StreamDraining => 1
    case _ => 0
  }

  ghost function Total(cfg: Config, reqs: seq<Req>): nat {
    if reqs == [] then 0 else Rank(cfg, reqs[0]) + Total(cfg, reqs[1..])
  }

  /** Position by position no rank rises. */
  ghost predicate NoRise(cfg: Config, a: seq<Req>, b: seq<Req>) {
    |a| == |b| && forall i :: 0 <= i < |a| ==> Rank(cfg, b[i]) <= Rank(cfg, a[i])
  }

  ghost predicate Drops(cfg: Config, a: seq<Req>, b: seq<Req>) {
    NoRise(cfg, a, b) && exists i :: 0 <= i < |a| && Rank(cfg, b[i]) < Rank(cfg, a[i])
  }

  lemma {:induction false} TotalFalls(cfg: Config, a: seq<Req>, b: seq<Req>)
    requires NoRise(cfg, a, b)
    ensures Total(cfg, b) <= Total(cfg, a)
    ensures Drops(cfg, a, b) ==> Total(cfg, b) < Total(cfg, a)
  {
    if a != [] {
      assert NoRise(cfg, a[1..], b[1..]);
      TotalFalls(cfg, a[1..], b[1..]);
      if Drops(cfg, a, b) && Rank(cfg, b[0]) == Rank(cfg, a[0]) {
        var i :| 0 <= i < |a| && Rank(cfg, b[i]) < Rank(cfg, a[i]);
        assert Rank(cfg, b[1..][i-1]) < Rank(cfg, a[1..][i-1]);
      }
    }
  }

  // ---------------------------------------------------------------------------
  // The phases, position by position
  // ---------------------------------------------------------------------------

  predicate InPrefill(r: Req) { r.phase.PrefillPending? || r.phase.PrefillRunning? }

  /** Prefill touches nothing but requests in prefill, one step each. */
  lemma {:induction false} PrefillPointwise(reqs: seq<Req>, count: int, limit: int)
    ensures var out := Prefill(reqs, count, limit);
      && |out| == |reqs|
      && forall i :: 0 <= i < |reqs| ==> out[i] == reqs[i] || (InPrefill(reqs[i]) && out[i] == PrefillOne(reqs[i]))
    decreases |reqs|
  {
    if reqs != [] && count < limit {
      var out, rest := Prefill(reqs, count, limit), reqs[1..];
      var next := if reqs[0].phase == PrefillPending then count + 1 else count;
      PrefillPointwise(rest, next, limit);
      var tail := Prefill(rest, next, limit);
      hide Prefill, PrefillOne;
      assert forall i :: 1 <= i < |reqs| ==> reqs[i] == rest[i-1] && out[i] == tail[i-1];
    }
  }

  /** Below its limit, prefill advances the first request that is in prefill. */
  lemma {:induction false} PrefillAdvances(reqs: seq<Req>, count: int, limit: int, i: nat) returns (j: nat)
    requires count < limit && i < |reqs| && InPrefill(reqs[i])
    ensures j < |reqs| && j < |Prefill(reqs, count, limit)| && InPrefill(reqs[j])
    ensures Prefill(reqs, count, limit)[j] == PrefillOne(reqs[j])
    decreases |reqs|
  {
    if InPrefill(reqs[0]) {
      j := 0;
    } else {
      assert reqs[1..][i-1] == reqs[i];
      var k := PrefillAdvances(reqs[1..], count, limit, i - 1);
      j := k + 1;
    }
  }

  /** Decode touches nothing but decoding requests, one step each. */
  lemma {:induction false} DecodePointwise(reqs: seq<Req>, count: int, limit: int, maxSteps: int)
    ensures var out := Decode(reqs, count, limit, maxSteps);
      && |out| == |reqs|
      && forall i :: 0 <= i < |reqs| ==>
           out[i] == reqs[i] || (reqs[i].phase.DecodeActive? && out[i] == DecodeOne(reqs[i], maxSteps))
    decreases |reqs|
  {
    if reqs != [] && count < limit {
      var out, rest := Decode(reqs, count, limit, maxSteps), reqs[1..];
      var next := if reqs[0].phase != DecodeActive || reqs[0].steps >= maxSteps then count else count + 1;
      DecodePointwise(rest, next, limit, maxSteps);
      var tail := Decode(rest, next, limit, maxSteps);
      assert out[1..] == tail && |out| == |tail| + 1;
      hide Decode, DecodeOne;
      assert forall i :: 1 <= i < |reqs| ==> reqs[i] == rest[i-1] && out[i] == out[1..][i-1];
    }
  }

  /** Below its limit, decode advances the first decoding request. */
  lemma {:induction false} DecodeAdvances(reqs: seq<Req>, count: int, limit: int, maxSteps: int, i: nat)
    returns (j: nat)
    requires count < limit && i < |reqs| && reqs[i].phase.DecodeActive?
    ensures j < |reqs| && j < |Decode(reqs, count, limit, maxSteps)| && reqs[j].phase.DecodeActive?
    ensures Decode(reqs, count, limit, maxSteps)[j] == DecodeOne(reqs[j], maxSteps)
    decreases |reqs|
  {
    if reqs[0].phase.DecodeActive? {
      j := 0;
    } else {
      assert reqs[1..][i-1] == reqs[i];
      var k := DecodeAdvances(reqs[1..], count, limit, maxSteps, i - 1);
      j := k + 1;
    }
  }

  lemma StepsDrop(cfg: Config, r: Req)
    ensures InPrefill(r) && r.prefillLeft == 1 ==> Rank(cfg, PrefillOne(r)) < Rank(cfg, r)
    ensures r.phase.DecodeActive? ==> Rank(cfg, DecodeOne(r, cfg.maxSteps)) < Rank(cfg, r)
    ensures r.phase.StreamDraining? ==> Rank(cfg, DrainOne(r)) < Rank(cfg, r)
    ensures !r.phase.StreamDraining? ==> DrainOne(r) == r
  {}

  /** A waiting request is on the list to be admitted. */
  ghost predicate SomeoneWaits(s: Scheduler, todo: seq<Id>) {
    exists i :: 0 <= i < |s.reqs| && s.reqs[i].phase.Admitted? && s.reqs[i].id in todo
      && Find(s.reqs, s.reqs[i].id) == Some(i)
  }

  /** Admission leaves every request that is not waiting untouched, and may only lower the rank of the others. */
  lemma {:induction false} AdmissionPointwise(cfg: Config, s: Scheduler, todo: seq<Id>)
    ensures var a := AdmitPending(s, todo);
      && |a.slots| == |s.slots| && NoRise(cfg, s.reqs, a.reqs)
      && (forall i :: 0 <= i < |s.reqs| ==>
            a.reqs[i] == s.reqs[i] || (s.reqs[i].phase.Admitted? && a.reqs[i].phase.PrefillPending?))
      && (FirstEmpty(s.slots).Some? && SomeoneWaits(s, todo) ==> Drops(cfg, s.reqs, a.reqs))
    decreases |todo|
  {
    if todo != [] {
      var at := Find(s.reqs, todo[0]);
      if at.None? || s.reqs[at.value].phase != Admitted {
        var t := s.(pending := RemoveFirst(s.pending, todo[0]));
        AdmissionPointwise(cfg, t, todo[1..]);
        if SomeoneWaits(s, todo) {
          var i :| 0 <= i < |s.reqs| && s.reqs[i].phase.Admitted? && s.reqs[i].id in todo
            && Find(s.reqs, s.reqs[i].id) == Some(i);
          assert t.reqs[i].id in todo[1..];
        }
      } else if FirstEmpty(s.slots).Some? {
        var t := Assign(s, at.value, FirstEmpty(s.slots).value);
        AdmissionPointwise(cfg, t, todo[1..]);
        var a := AdmitPending(s, todo);
        assert Rank(cfg, a.reqs[at.value]) <= Rank(cfg, t.reqs[at.value]) < Rank(cfg, s.reqs[at.value]);
        forall i | 0 <= i < |s.reqs| ensures Rank(cfg, a.reqs[i]) <= Rank(cfg, s.reqs[i]) {
          assert Rank(cfg, a.reqs[i]) <= Rank(cfg, t.reqs[i]);
        }
      }
    }
  }

  // ---------------------------------------------------------------------------
  // Ticks
  // ---------------------------------------------------------------------------

  /** Nothing left to do: everyone is done or waits, and nobody waits beside an empty slot. */
  ghost predicate Quiet(s: Scheduler) {
    && (forall i :: 0 <= i < |s.reqs| ==> s.reqs[i].phase.Terminal() || s.reqs[i].phase.Admitted?)
    && ((exists i :: 0 <= i < |s.reqs| && s.reqs[i].phase.Admitted?) ==> FirstEmpty(s.slots).None?)
  }

  /** What a tick does to each record, phase by phase. */
  ghost predicate Stages(cfg: Config, s: Scheduler, a: seq<Req>, p: seq<Req>, d: seq<Req>, t: seq<Req>) {
    && a == AdmitPending(s.(tick := s.tick + 1), s.pending).reqs
    && p == Prefill(a, 0, cfg.maxPrefill) && d == Decode(p, 0, cfg.maxDecode, cfg.maxSteps) && t == DrainReqs(d)
    && t == Tick(cfg, s).reqs
  }

  lemma WorkNoRise(cfg: Config, s: Scheduler, a: seq<Req>, p: seq<Req>, d: seq<Req>, t: seq<Req>)
    requires Inv(s) && Stages(cfg, s, a, p, d, t)
    ensures |a| == |p| == |d| == |t| && NoRise(cfg, a, p) && NoRise(cfg, p, d) && NoRise(cfg, d, t)
    ensures forall i :: 0 <= i < |a| && InPrefill(a[i]) ==> a[i].prefillLeft == 1
  {
    var x := s.(tick := s.tick + 1);
    assert Inv(x);
    AdmitPendingInv(x, s.pending);
    forall i | 0 <= i < |a| ensures InPrefill(a[i]) ==> a[i].prefillLeft == 1 {
      assert ReqOk(AdmitPending(x, s.pending).slots, a[i]);
    }
    PrefillPointwise(a, 0, cfg.maxPrefill);
    DecodePointwise(p, 0, cfg.maxDecode, cfg.maxSteps);
    forall i | 0 <= i < |a| ensures Rank(cfg, p[i]) <= Rank(cfg, a[i]) { StepsDrop(cfg, a[i]); }
    forall i | 0 <= i < |p| ensures Rank(cfg, d[i]) <= Rank(cfg, p[i]) { StepsDrop(cfg, p[i]); }
    forall i | 0 <= i < |d| ensures Rank(cfg, t[i]) <= Rank(cfg, d[i]) { StepsDrop(cfg, d[i]); }
  }

  /** A slotted request makes one of the three working phases drop. */
  lemma WorkDrops(cfg: Config, s: Scheduler, a: seq<Req>, p: seq<Req>, d: seq<Req>, t: seq<Req>, i: nat)
    requires Inv(s) && Stages(cfg, s, a, p, d, t) && cfg.maxPrefill >= 1 && cfg.maxDecode >= 1
    requires i < |a| && a[i].phase.Slotted()
    ensures Drops(cfg, a, p) || Drops(cfg, p, d) || Drops(cfg, d, t)
  {
    WorkNoRise(cfg, s, a, p, d, t);
    PrefillPointwise(a, 0, cfg.maxPrefill);
    DecodePointwise(p, 0, cfg.maxDecode, cfg.maxSteps);
    assert t[i] == DrainOne(d[i]);
    hide *;
    if InPrefill(a[i]) {
      var j := PrefillAdvances(a, 0, cfg.maxPrefill, i);
      StepsDrop(cfg, a[j]);
      DropsAt(cfg, a, p, j);
    } else if a[i].phase.DecodeActive? {
      assert p[i].phase.DecodeActive?;
      var j := DecodeAdvances(p, 0, cfg.maxDecode, cfg.maxSteps, i);
      StepsDrop(cfg, p[j]);
      DropsAt(cfg, p, d, j);
    } else {
      OnlyDrainingLeft(a[i]);
      StepsDrop(cfg, d[i]);
      DropsAt(cfg, d, t, i);
    }
  }

  lemma OnlyDrainingLeft(r: Req)
    requires r.phase.Slotted() && !InPrefill(r) && !r.phase.DecodeActive?
    ensures r.phase.StreamDraining?
  {}

  lemma DropsAt(cfg: Config, a: seq<Req>, b: seq<Req>, i: nat)
    requires NoRise(cfg, a, b) && i < |a| && i < |b| && Rank(cfg, b[i]) < Rank(cfg, a[i])
    ensures Drops(cfg, a, b)
  {}

  /** What admission does to the ranks within a tick. */
  lemma AdmissionRanks(cfg: Config, s: Scheduler, a: seq<Req>)
    requires Inv(s) && a == AdmitPending(s.(tick := s.tick + 1), s.pending).reqs
    ensures NoRise(cfg, s.reqs, a)
    ensures forall i :: 0 <= i < |s.reqs| && s.reqs[i].phase.Slotted() ==> a[i] == s.reqs[i]
    ensures !Quiet(s) && (forall i :: 0 <= i < |s.reqs| ==> !s.reqs[i].phase.Slotted()) ==> Drops(cfg, s.reqs, a)
  {
    AdmissionPointwise(cfg, s.(tick := s.tick + 1), s.pending);
    hide AdmitPending, Rank, FirstEmpty, Find;
    if !Quiet(s) && forall i :: 0 <= i < |s.reqs| ==> !s.reqs[i].phase.Slotted() {
      var i :| 0 <= i < |s.reqs| && s.reqs[i].phase.Admitted?;
      FindIsPosition(s.reqs, i);
      assert SomeoneWaits(s.(tick := s.tick + 1), s.pending);
    }
  }

  /** With both limits at least one, every tick that is not quiet lowers the total rank. */
  lemma TickDrops(cfg: Config, s: Scheduler)
    requires Inv(s) && cfg.maxPrefill >= 1 && cfg.maxDecode >= 1
    ensures Total(cfg, Tick(cfg, s).reqs) <= Total(cfg, s.reqs)
    ensures !Quiet(s) ==> Total(cfg, Tick(cfg, s).reqs) < Total(cfg, s.reqs)
  {
    var a := AdmitPending(s.(tick := s.tick + 1), s.pending).reqs;
    var p := Prefill(a, 0, cfg.maxPrefill);
    var d := Decode(p, 0, cfg.maxDecode, cfg.maxSteps);
    var t := Tick(cfg, s).reqs;
    assert Stages(cfg, s, a, p, d, t) by { hide AdmitPending, Prefill, Decode, Inv, Quiet, Total; }
    hide *;
    AdmissionRanks(cfg, s, a);
    WorkNoRise(cfg, s, a, p, d, t);
    TotalFalls(cfg, s.reqs, a);
    TotalFalls(cfg, a, p);
    TotalFalls(cfg, p, d);
    TotalFalls(cfg, d, t);
    if i :| 0 <= i < |s.reqs| && s.reqs[i].phase.Slotted() {
      SameLength(cfg, s.reqs, a);
      WorkDrops(cfg, s, a, p, d, t, i);
    }
  }

  lemma SameLength(cfg: Config, a: seq<Req>, b: seq<Req>)
    requires NoRise(cfg, a, b)
    ensures |a| == |b|
  {}

  lemma FindIsPosition(reqs: seq<Req>, i: nat)
    requires i < |reqs| && forall j, k :: 0 <= j < k < |reqs| ==> reqs[j].id != reqs[k].id
    ensures Find(reqs, reqs[i].id) == Some(i)
  {
    var r := Find(reqs, reqs[i].id);
    assert r.Some?;
  }

  /** Terminal states are absorbing: a tick leaves the whole record of a finished request as it was. */
  lemma TerminalIsAbsorbing(cfg: Config, s: Scheduler, i: nat)
    requires i < |s.reqs| && s.reqs[i].phase.Terminal()
    ensures i < |Tick(cfg, s).reqs| && Tick(cfg, s).reqs[i] == s.reqs[i]
  {
    var x := s.(tick := s.tick + 1);
    AdmissionPointwise(cfg, x, s.pending);
    var a := AdmitPending(x, s.pending).reqs;
    PrefillPointwise(a, 0, cfg.maxPrefill);
    DecodePointwise(Prefill(a, 0, cfg.maxPrefill), 0, cfg.maxDecode, cfg.maxSteps);
  }

  /** A quiet scheduler stays quiet. */
  lemma QuietStays(cfg: Config, s: Scheduler)
    requires Inv(s) && Quiet(s)
    ensures Quiet(Tick(cfg, s)) && Tick(cfg, s).reqs == s.reqs
  {
    var t := Tick(cfg, s);
    assert t.reqs == s.reqs && t.slots == s.slots by {
      TickIs(cfg, s);
      QuietRequests(s);
      QuietPhases(cfg, s);
      hide *;
    }
    hide Tick, FirstEmpty, Inv;
  }

  lemma QuietRequests(s: Scheduler)
    requires Quiet(s)
    ensures Admitting(s).reqs == s.reqs && Admitting(s).slots == s.slots
  {
    var x := s.(tick := s.tick + 1);
    assert Quiet(x);
    hide Quiet, AdmitPending;
    QuietAdmission(x, s.pending);
  }

  lemma QuietPhases(cfg: Config, s: Scheduler)
    requires Quiet(s) && Admitting(s).reqs == s.reqs && Admitting(s).slots == s.slots
    ensures Drain(Working(cfg, Admitting(s))).reqs == s.reqs && Drain(Working(cfg, Admitting(s))).slots == s.slots
  {
    hide Admitting, Worked, DrainSlots, FirstEmpty;
    QuietWork(cfg, s.reqs);
    NothingDrains(s.reqs, s.slots);
  }

  lemma QuietWork(cfg: Config, reqs: seq<Req>)
    requires forall i :: 0 <= i < |reqs| ==> reqs[i].phase.Terminal() || reqs[i].phase.Admitted?
    ensures Worked(cfg, reqs) == reqs
  {
    PrefillPointwise(reqs, 0, cfg.maxPrefill);
    assert Prefill(reqs, 0, cfg.maxPrefill) == reqs;
    DecodePointwise(reqs, 0, cfg.maxDecode, cfg.maxSteps);
  }

  lemma {:induction false} QuietAdmission(s: Scheduler, todo: seq<Id>)
    requires Quiet(s)
    ensures AdmitPending(s, todo).reqs == s.reqs && AdmitPending(s, todo).slots == s.slots
    decreases |todo|
  {
    if todo != [] {
      var at := Find(s.reqs, todo[0]);
      if at.None? || s.reqs[at.value].phase != Admitted {
        QuietAdmission(s.(pending := RemoveFirst(s.pending, todo[0])), todo[1..]);
      }
    }
  }

  lemma {:induction false} NothingDrains(reqs: seq<Req>, slots: seq<Slot>)
    requires forall i :: 0 <= i < |reqs| ==> !reqs[i].phase.StreamDraining?
    ensures DrainReqs(reqs) == reqs && DrainSlots(reqs, slots) == slots
  {
    if reqs != [] {
      NothingDrains(reqs[1..], slots);
      assert reqs == [reqs[0]] + reqs[1..];
    }
  }

  ghost function Ticks(cfg: Config, s: Scheduler, n: nat): Scheduler
    decreases n
  {
    if n == 0 then s else Ticks(cfg, Tick(cfg, s), n - 1)
  }

  /** As many ticks as the rank says leave only finished requests and requests waiting with no empty slot. */
  lemma {:induction false} TicksSettle(cfg: Config, s: Scheduler, n: nat)
    requires Inv(s) && cfg.maxPrefill >= 1 && cfg.maxDecode >= 1 && n >= Total(cfg, s.reqs)
    ensures Quiet(Ticks(cfg, s, n))
    decreases n
  {
    hide Tick, Inv, Quiet, Total;
    if n == 0 {
      NoRankIsQuiet(cfg, s);
    } else {
      TickInv(cfg, s);
      TickDrops(cfg, s);
      if Quiet(s) {
        QuietForGood(cfg, s, n);
      } else {
        TicksSettle(cfg, Tick(cfg, s), n - 1);
      }
    }
  }

  lemma {:induction false} QuietForGood(cfg: Config, s: Scheduler, n: nat)
    requires Inv(s) && Quiet(s)
    ensures Quiet(Ticks(cfg, s, n))
    decreases n
  {
    if n > 0 {
      TickInv(cfg, s);
      QuietStays(cfg, s);
      QuietForGood(cfg, Tick(cfg, s), n - 1);
    }
  }

  lemma NoRankIsQuiet(cfg: Config, s: Scheduler)
    requires Total(cfg, s.reqs) == 0
    ensures Quiet(s)
  {
    forall i | 0 <= i < |s.reqs| ensures s.reqs[i].phase.Terminal() {
      RankWithinTotal(cfg, s.reqs, i);
    }
  }

  lemma {:induction false} RankWithinTotal(cfg: Config, reqs: seq<Req>, i: nat)
    requires i < |reqs|
    ensures Rank(cfg, reqs[i]) <= Total(cfg, reqs)
  {
    if i > 0 {
      RankWithinTotal(cfg, reqs[1..], i - 1);
    }
  }
}
