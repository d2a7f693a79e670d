/**
The capacity controller and the admission decision built on it.

Two places decide whether a request may run now: `Evaluate`, consulted when a request arrives, and
`ActiveCapacityAvailable`, consulted again when a queued request may be released.  The lemmas say when the
two agree, and what admission may rely on.
*/
module Capacity {
  import opened Core
  import opened Context

  datatype Mode = Fixed | Adaptive

  datatype PressureClass = UnknownPressure | NormalPressure | ElevatedPressure | HighPressure | CriticalPressure

  /** The pressure values the runner's contract can report. */
  datatype ReportedPressure = ReportedLow | ReportedNormal | ReportedWarning | ReportedCritical

  /** _memory_pressure_from_runtime: only "normal" and "critical" are known to the controller. */
  function ClassOf(p: ReportedPressure): PressureClass {
    match p
    case ReportedNormal => NormalPressure
    case ReportedCritical => CriticalPressure
    case ReportedLow => UnknownPressure
    case ReportedWarning => UnknownPressure
  }

  /** What the profile loader and the eligibility checks leave to the controller. */
  datatype ProfileStatus = NoProfile | Ineligible | Calibrated(recommended: int)

  datatype Controller = Controller(mode: Mode, maxActive: int, profile: ProfileStatus, denyUnderPressure: bool)

  function Max(a: int, b: int): int { if a < b then b else a }
  function Min(a: int, b: int): int { if a < b then a else b }

  function OperatorCeiling(c: Controller): nat { Max(c.maxActive, 1) }

  /** effective_active_limit: never below one, never above the operator's ceiling. */
  function EffectiveLimit(c: Controller, pressure: PressureClass): (limit: nat)
    ensures 1 <= limit <= OperatorCeiling(c)
    ensures c.mode == Fixed ==> limit == OperatorCeiling(c)
  {
    if c.mode == Fixed || !c.profile.Calibrated? then OperatorCeiling(c)
    else
      var limit := Min(OperatorCeiling(c), c.profile.recommended);
      var reduced :=
        if c.denyUnderPressure && (pressure == HighPressure || pressure == CriticalPressure) && limit > 1
        then Max(limit / 2, 1) else limit;
      Max(reduced, 1)
  }

  datatype Action = Run | Queue | Reject

  datatype DecisionReason =
    | BelowOperatorCeiling | CalibratedLimit | AtOperatorCeiling | MemoryPressureHigh
    | QueueFull | ContextOverflow | LaneCapacity | RuntimeNotReady

  datatype CapacityContext = CapacityContext(
    activeJobs: nat, queueDepth: nat, maxQueueDepth: int, runtimeReady: bool, pressure: PressureClass,
    cost: Cost, budgets: Option<Budgets>, laneMaxConcurrent: Option<int>, laneActiveJobs: nat)

  datatype CapacityEvaluation = CapacityEvaluation(
    action: Action, limit: nat, reason: DecisionReason, laneLimited: bool)

  predicate LaneHasRoom(laneMax: Option<int>, laneActive: nat) {
    laneMax.None? || laneActive < Max(laneMax.value, 1)
  }

  /** Even a free slot is withheld under HIGH pressure when it is the last one. */
  predicate PressureOverride(c: Controller, ctx: CapacityContext) {
    c.denyUnderPressure && ctx.pressure == HighPressure && EffectiveLimit(c, ctx.pressure) <= ctx.activeJobs + 1
  }

  function Calibrated(c: Controller): Option<int> {
    if c.mode == Adaptive && c.profile.Calibrated? then Some(c.profile.recommended) else None
  }

  /** CapacityController.evaluate */
  function Evaluate(c: Controller, ctx: CapacityContext): CapacityEvaluation {
    var limit := EffectiveLimit(c, ctx.pressure);
    var laneRoom := LaneHasRoom(ctx.laneMaxConcurrent, ctx.laneActiveJobs);
    if ctx.budgets.Some? && Context.Evaluate(ctx.cost, ctx.budgets).overLimit then
      CapacityEvaluation(Reject, limit, ContextOverflow, false)
    else if !ctx.runtimeReady then
      CapacityEvaluation(Reject, limit, RuntimeNotReady, false)
    else if ctx.activeJobs < limit && laneRoom then
      if PressureOverride(c, ctx) then CapacityEvaluation(Queue, limit, MemoryPressureHigh, false)
      else
        CapacityEvaluation(Run, limit,
          (match Calibrated(c)
           case Some(n) => if n < OperatorCeiling(c) then CalibratedLimit else AtOperatorCeiling
           case None => BelowOperatorCeiling), false)
    else if !laneRoom then
      CapacityEvaluation(if ctx.queueDepth < ctx.maxQueueDepth then Queue else Reject, limit, LaneCapacity, true)
    else if ctx.queueDepth >= ctx.maxQueueDepth then
      CapacityEvaluation(Reject, limit, QueueFull, false)
    else
      CapacityEvaluation(Queue, limit, if Calibrated(c).Some? then CalibratedLimit else AtOperatorCeiling, false)
  }

  predicate Named(lane: Option<string>) { lane.Some? && lane.value != "" }

  /** active_capacity_available: the global limit, and the lane's own ceiling when the lane is named and has one. */
  predicate ActiveCapacityAvailable(c: Controller, pressure: PressureClass, activeJobs: nat,
                                    lane: Option<string>, laneMax: Option<int>, laneActive: nat)
  {
    activeJobs < EffectiveLimit(c, pressure) && (laneMax.Some? && Named(lane) ==> laneActive < Max(laneMax.value, 1))
  }

  /** Admission builds the controller's context this way: an unnamed lane counts no active work. */
  function AdmissionContext(activeJobs: nat, queueDepth: nat, maxQueueDepth: int, pressure: PressureClass,
                            cost: Cost, budgets: Option<Budgets>, lane: Option<string>, laneMax: Option<int>,
                            laneActive: nat): CapacityContext
  {
    CapacityContext(activeJobs, queueDepth, maxQueueDepth, true, pressure, cost, budgets, laneMax,
                    if Named(lane) then laneActive else 0)
  }

  /**
  RUN is decided exactly when the runtime is ready, the context fits, and both capacity constraints hold unopposed.
  */
  lemma RunExactly(c: Controller, ctx: CapacityContext)
    ensures Evaluate(c, ctx).action == Run <==>
      && ctx.runtimeReady
      && !(ctx.budgets.Some? && Context.Evaluate(ctx.cost, ctx.budgets).overLimit)
      && ctx.activeJobs < EffectiveLimit(c, ctx.pressure)
      && LaneHasRoom(ctx.laneMaxConcurrent, ctx.laneActiveJobs)
      && !PressureOverride(c, ctx)
    ensures Evaluate(c, ctx).limit == EffectiveLimit(c, ctx.pressure)
  {}

  /**
  A request is rejected exactly when its context overflows, the runtime is not ready, or it can neither run nor wait;
  a saturated lane is the reported reason whenever it is one of the causes of waiting or of rejection for lack of room.
  */
  lemma RejectExactly(c: Controller, ctx: CapacityContext)
    ensures var overflow := ctx.budgets.Some? && Context.Evaluate(ctx.cost, ctx.budgets).overLimit;
      var room := ctx.activeJobs < EffectiveLimit(c, ctx.pressure)
        && LaneHasRoom(ctx.laneMaxConcurrent, ctx.laneActiveJobs);
      && (Evaluate(c, ctx).action == Reject <==>
            overflow || !ctx.runtimeReady || (!room && ctx.queueDepth >= ctx.maxQueueDepth))
      && (Evaluate(c, ctx).reason == LaneCapacity <==>
            !overflow && ctx.runtimeReady && !LaneHasRoom(ctx.laneMaxConcurrent, ctx.laneActiveJobs))
      && (Evaluate(c, ctx).laneLimited <==> Evaluate(c, ctx).reason == LaneCapacity)
  {}

  /**
  Calibration only ever lowers the ceiling and pressure only ever halves the result: the limit in every case, without
  rounding below one.
  */
  lemma LimitOnlyLowered(c: Controller, pressure: PressureClass)
    ensures var ceiling := if c.maxActive >= 1 then c.maxActive else 1;
      var calibrated := c.mode == Adaptive && c.profile.Calibrated?;
      var normal := if !calibrated || c.profile.recommended > ceiling then ceiling
                    else if c.profile.recommended < 1 then 1 else c.profile.recommended;
      var pressed := calibrated && c.denyUnderPressure && (pressure == HighPressure || pressure == CriticalPressure);
      && OperatorCeiling(c) == ceiling
      && (!pressed ==> EffectiveLimit(c, pressure) == normal)
      && (pressed && normal == 1 ==> EffectiveLimit(c, pressure) == 1)
      && (pressed && normal > 1 ==>
            EffectiveLimit(c, pressure) * 2 == normal || EffectiveLimit(c, pressure) * 2 + 1 == normal)
      && 1 <= EffectiveLimit(c, pressure) <= normal <= ceiling
  {}

  /** What the runner reports is known to the controller only when it is "normal" or "critical". */
  lemma PressureClasses()
    ensures ClassOf(ReportedNormal) == NormalPressure && ClassOf(ReportedCritical) == CriticalPressure
    ensures ClassOf(ReportedLow) == UnknownPressure && ClassOf(ReportedWarning) == UnknownPressure
  {}

  /** Every reason, in terms of the counters and the declared bounds alone. */
  lemma ReasonsExactly(c: Controller, ctx: CapacityContext)
    ensures var e, limit := Evaluate(c, ctx), EffectiveLimit(c, ctx.pressure);
      var overflow := ctx.budgets.Some? && Context.Evaluate(ctx.cost, ctx.budgets).overLimit;
      var served := !overflow && ctx.runtimeReady;
      var most, n := ctx.laneMaxConcurrent, ctx.laneActiveJobs;
      var lane := most.None? || n == 0 || n < most.value;
      var free, place := ctx.activeJobs < limit && lane, ctx.queueDepth < ctx.maxQueueDepth;
      var withheld := c.denyUnderPressure && ctx.pressure == HighPressure && ctx.activeJobs + 1 >= limit;
      var calibrated := c.mode == Adaptive && c.profile.Calibrated?;
      var below := calibrated && (c.profile.recommended < c.maxActive || c.profile.recommended < 1);
      && e.limit == limit
      && (e.reason == ContextOverflow <==> overflow)
      && (e.reason == RuntimeNotReady <==> !overflow && !ctx.runtimeReady)
      && (e.reason == MemoryPressureHigh <==> served && free && withheld)
      && (e.reason == BelowOperatorCeiling <==> served && free && !withheld && !calibrated)
      && (e.reason == LaneCapacity <==> served && !lane)
      && (e.reason == QueueFull <==> served && lane && !free && !place)
      && (e.reason == CalibratedLimit <==> served && lane && if free then !withheld && below else place && calibrated)
      && (e.reason == AtOperatorCeiling <==>
            served && lane && if free then !withheld && calibrated && !below else place && !calibrated)
      && (e.action == Run <==> served && free && !withheld)
      && (e.action == Queue <==> served && if free then withheld else place)
      && (e.laneLimited <==> served && !lane)
  {}

  /** The release check, in the same terms. */
  lemma AvailableExactly(c: Controller, pressure: PressureClass, jobs: nat, lane: Option<string>, laneMax: Option<int>,
                         n: nat)
    ensures ActiveCapacityAvailable(c, pressure, jobs, lane, laneMax, n) <==>
      && jobs < EffectiveLimit(c, pressure)
      && (lane == None || lane == Some("") || laneMax == None || n == 0 || n < laneMax.value)
  {}

  /**
  The two decision points agree: what admission would run now is what the release check would release now,
  except for context overflow and the HIGH-pressure override, which only admission applies.
  */
  lemma DecisionPointsAgree(c: Controller, activeJobs: nat, queueDepth: nat, maxQueueDepth: int,
                            pressure: PressureClass, cost: Cost, budgets: Option<Budgets>, lane: Option<string>,
                            laneMax: Option<int>, laneActive: nat)
    ensures var ctx := AdmissionContext(activeJobs, queueDepth, maxQueueDepth, pressure, cost, budgets,
                                        lane, laneMax, laneActive);
      Evaluate(c, ctx).action == Run <==>
        && ActiveCapacityAvailable(c, pressure, activeJobs, lane, laneMax, laneActive)
        && !Context.Evaluate(cost, budgets).overLimit
        && !PressureOverride(c, ctx)
  {
    var ctx := AdmissionContext(activeJobs, queueDepth, maxQueueDepth, pressure, cost, budgets,
                                lane, laneMax, laneActive);
    RunExactly(c, ctx);
    OverLimitExactly(cost, budgets);
    assert !Named(lane) ==> LaneHasRoom(laneMax, 0);
  }

  /** The request's cost breaks a declared limit. */
  predicate Overflows(ctx: CapacityContext) { ctx.budgets.Some? && Context.Evaluate(ctx.cost, ctx.budgets).overLimit }

  /** Both capacity constraints leave room for one more job. */
  predicate HasRoom(c: Controller, ctx: CapacityContext) {
    ctx.activeJobs < EffectiveLimit(c, ctx.pressure) && LaneHasRoom(ctx.laneMaxConcurrent, ctx.laneActiveJobs)
  }

  /**
  A request is queued exactly when it fits and either has no room but a place in the queue, or has room that the
  override withholds; so a request is queued into a full queue exactly when the override withholds its room.
  */
  lemma QueueHasRoom(c: Controller, ctx: CapacityContext)
    ensures Evaluate(c, ctx).action == Queue <==>
      && !Overflows(ctx) && ctx.runtimeReady
      && (if HasRoom(c, ctx) then PressureOverride(c, ctx) else ctx.queueDepth < ctx.maxQueueDepth)
    ensures Evaluate(c, ctx).action == Queue ==> (Evaluate(c, ctx).reason == MemoryPressureHigh <==> HasRoom(c, ctx))
    ensures Evaluate(c, ctx).action == Queue && ctx.queueDepth >= ctx.maxQueueDepth <==>
      && !Overflows(ctx) && ctx.runtimeReady && HasRoom(c, ctx) && PressureOverride(c, ctx)
      && ctx.queueDepth >= ctx.maxQueueDepth
  {}

  function Preference(a: Action): nat {
    match a case Run => 2 case Queue => 1 case Reject => 0
  }

  /** Less load never makes a verdict worse. */
  lemma VerdictMonotone(c: Controller, ctx: CapacityContext, less: CapacityContext)
    requires less == ctx.(activeJobs := less.activeJobs, laneActiveJobs := less.laneActiveJobs,
        queueDepth := less.queueDepth)
    requires less.activeJobs <= ctx.activeJobs && less.laneActiveJobs <= ctx.laneActiveJobs
    requires less.queueDepth <= ctx.queueDepth
    ensures Preference(Evaluate(c, ctx).action) <= Preference(Evaluate(c, less).action)
  {
    QueueHasRoom(c, ctx);
    QueueHasRoom(c, less);
    RejectExactly(c, ctx);
    RejectExactly(c, less);
    hide Evaluate;
  }

  /** The override queues without looking at the queue: a full queue is no obstacle to it. */
  lemma OverrideIgnoresQueue(cost: Cost)
    ensures var c := Controller(Fixed, 1, NoProfile, true);
            var ctx := CapacityContext(0, 8, 8, true, HighPressure, cost, None, None, 0);
      Evaluate(c, ctx).action == Queue && ctx.queueDepth >= ctx.maxQueueDepth
  {}

  /** No pressure the contract can report is classified HIGH, so the override cannot fire for a served request. */
  lemma ContractNeverHigh(c: Controller, ctx: CapacityContext, reported: ReportedPressure)
    requires ctx.pressure == ClassOf(reported)
    ensures !PressureOverride(c, ctx)
    ensures Evaluate(c, ctx).action == Queue ==> ctx.queueDepth < ctx.maxQueueDepth
  {}

  // ---------------------------------------------------------------------------
  // Admission
  // ---------------------------------------------------------------------------

  datatype Limits = Limits(maxMessages: int, maxPromptChars: int, maxRequestTokens: int, queueEnabled: bool)

  datatype Shape = Shape(messageCount: nat, promptChars: nat, maxTokens: Option<int>)

  datatype Admission =
    | Accepted | Queued | RejectedOverloaded | RejectedQueueFull | RejectedPromptTooLarge | RejectedTooManyMessages
    | RejectedMaxTokensTooHigh | RejectedModelNotReady | RejectedContextOverflow

  predicate StructurallySound(l: Limits, s: Shape) {
    s.messageCount <= l.maxMessages && s.promptChars <= l.maxPromptChars
    && (s.maxTokens.Some? ==> s.maxTokens.value <= l.maxRequestTokens)
  }

  /** evaluate_chat_request */
  function EvaluateChat(l: Limits, s: Shape, c: Controller, ctx: CapacityContext): Admission {
    if s.messageCount > l.maxMessages then RejectedTooManyMessages
    else if s.promptChars > l.maxPromptChars then RejectedPromptTooLarge
    else if s.maxTokens.Some? && s.maxTokens.value > l.maxRequestTokens then RejectedMaxTokensTooHigh
    else
      var e := Evaluate(c, ctx);
      match e.action
      case Run => Accepted
      case Reject =>
        if e.reason == ContextOverflow then RejectedContextOverflow
        else if e.reason == RuntimeNotReady then RejectedModelNotReady
        else RejectedQueueFull
      case Queue => if l.queueEnabled then Queued else RejectedOverloaded
  }

  /** Each of the nine outcomes, with the condition that produces it; structural faults win over everything. */
  lemma AdmissionExactly(l: Limits, s: Shape, c: Controller, ctx: CapacityContext)
    ensures var a, sound := EvaluateChat(l, s, c, ctx), StructurallySound(l, s);
      var served := sound && !Overflows(ctx) && ctx.runtimeReady;
      var waits := if HasRoom(c, ctx) then PressureOverride(c, ctx) else ctx.queueDepth < ctx.maxQueueDepth;
      && (a == RejectedTooManyMessages <==> s.messageCount > l.maxMessages)
      && (a == RejectedPromptTooLarge <==> s.messageCount <= l.maxMessages && s.promptChars > l.maxPromptChars)
      && (a == RejectedMaxTokensTooHigh <==>
            && s.messageCount <= l.maxMessages && s.promptChars <= l.maxPromptChars
            && s.maxTokens.Some? && s.maxTokens.value > l.maxRequestTokens)
      && (a == RejectedContextOverflow <==> sound && Overflows(ctx))
      && (a == RejectedModelNotReady <==> sound && !Overflows(ctx) && !ctx.runtimeReady)
      && (a == Accepted <==> served && HasRoom(c, ctx) && !PressureOverride(c, ctx))
      && (a == Queued <==> served && waits && l.queueEnabled)
      && (a == RejectedOverloaded <==> served && waits && !l.queueEnabled)
      && (a == RejectedQueueFull <==> served && !HasRoom(c, ctx) && ctx.queueDepth >= ctx.maxQueueDepth)
  {
    RunExactly(c, ctx);
    RejectExactly(c, ctx);
    QueueHasRoom(c, ctx);
  }
}
