/**
The token-step scheduler and its deterministic backend.

Several requests are decoded by one shared loop while cancellation, time-out, failure and
shared-failure plans strike at given decode steps.  `IsEnding` says, for one request alone,
where and why its decoding stops; `RunSchedule` is the shared loop, and its contract gives
every request exactly that ending, whatever its peers do.
*/
module TokenStep {

  datatype Request = Request(id: string, maxTokens: int, sampler: string)

  /** The backend's token text is built from exactly these three values. */
  datatype Token = Token(id: string, sampler: string, step: nat)

  datatype SequenceState =
    | ReadyToDecode | Decoding | Finished | Cancelled | Failed | TimedOut | CleanedUp
  {
    /** is_finished */
    predicate Terminal() { Finished? || Cancelled? || Failed? || TimedOut? }
  }

  datatype Sequence = Sequence(state: SequenceState, maxTokens: int, steps: nat, sampler: string, id: string)

  datatype PlanItem = PlanItem(id: string, step: int)
  datatype Plans = Plans(cancel: seq<PlanItem>, timeout: seq<PlanItem>, fail: seq<PlanItem>, shared: seq<int>)

  datatype FinishReason = Stop | CancelledReason | TimeoutReason | ErrorReason
  datatype Result = Result(id: string, content: seq<Token>, reason: FinishReason)
  datatype Report = Report(
    requestCount: nat, sequenceCount: nat, decodeSteps: nat,
    finished: int, cancelled: nat, timedOut: nat, failed: nat,
    cleanedUp: nat, sharedFailures: nat)
  datatype Outcome = NoRequests | Done(results: seq<Result>, report: Report)

  // ---------------------------------------------------------------------------
  // One request on its own
  // ---------------------------------------------------------------------------

  predicate Planned(plan: seq<PlanItem>, id: string, step: int) {
    exists k :: 0 <= k < |plan| && plan[k] == PlanItem(id, step)
  }

  /** Some plan strikes request `id` at `step`. */
  predicate Struck(p: Plans, id: string, step: int) {
    step in p.shared || Planned(p.cancel, id, step) || Planned(p.timeout, id, step) || Planned(p.fail, id, step)
  }

  function Max(a: int, b: int): int { if a < b then b else a }

  function Budget(r: Request): nat { Max(0, r.maxTokens) }

  /** Precedence among the plans that strike at one step. */
  function ReasonAt(p: Plans, id: string, step: int): FinishReason {
    if step in p.shared then ErrorReason
    else if Planned(p.cancel, id, step) then CancelledReason
    else if Planned(p.timeout, id, step) then TimeoutReason
    else if Planned(p.fail, id, step) then ErrorReason
    else Stop
  }

  /** The declarative ending: the first struck step up to the budget, or the budget itself. */
  ghost predicate IsEnding(r: Request, p: Plans, e: nat, reason: FinishReason) {
    && e <= Budget(r)
    && (forall s :: 0 <= s < e ==> !Struck(p, r.id, s))
    && (e < Budget(r) ==> Struck(p, r.id, e))
    && reason == ReasonAt(p, r.id, e)
  }

  datatype Ending = Ending(step: nat, reason: FinishReason)

  /** The same ending found by walking forward from step `s`. */
  ghost function EndingFrom(r: Request, p: Plans, s: nat): Ending
    decreases Budget(r) - s
  {
    if Struck(p, r.id, s) || s >= Budget(r) then Ending(s, ReasonAt(p, r.id, s)) else EndingFrom(r, p, s + 1)
  }

  function Tokens(r: Request, n: nat): seq<Token> {
    seq(n, i requires 0 <= i < n => Token(r.id, r.sampler, i))
  }

  lemma {:induction false} EndingFromIsEnding(r: Request, p: Plans, s: nat)
    requires s <= Budget(r)
    requires forall t :: 0 <= t < s ==> !Struck(p, r.id, t)
    ensures IsEnding(r, p, EndingFrom(r, p, s).step, EndingFrom(r, p, s).reason)
    decreases Budget(r) - s
  {
    if !Struck(p, r.id, s) && s < Budget(r) {
      EndingFromIsEnding(r, p, s + 1);
    }
  }

  /** A request has one ending: the declarative form determines both the step and the reason. */
  lemma EndingUnique(r: Request, p: Plans, e: nat, reason: FinishReason, e': nat, reason': FinishReason)
    requires IsEnding(r, p, e, reason) && IsEnding(r, p, e', reason')
    ensures e == e' && reason == reason'
  {
    assert e < Budget(r) ==> Struck(p, r.id, e);
    assert e' < Budget(r) ==> Struck(p, r.id, e');
  }

  /** What a request can see of the plans. */
  ghost predicate SameView(r: Request, p: Plans, q: Plans) {
    forall s :: 0 <= s <= Budget(r) ==>
      && (s in p.shared <==> s in q.shared)
      && (Planned(p.cancel, r.id, s) <==> Planned(q.cancel, r.id, s))
      && (Planned(p.timeout, r.id, s) <==> Planned(q.timeout, r.id, s))
      && (Planned(p.fail, r.id, s) <==> Planned(q.fail, r.id, s))
  }

  /** The result the contract of `RunSchedule` promises to one request. */
  ghost predicate Delivers(r: Request, p: Plans, res: Result) {
    && res.id == r.id
    && res.content == Tokens(r, |res.content|)
    && IsEnding(r, p, |res.content|, res.reason)
  }

  /** Peer isolation: results of two runs agree whenever the plans look the same to this one request. */
  lemma PeerIsolation(r: Request, p: Plans, q: Plans, a: Result, b: Result)
    requires SameView(r, p, q)
    requires Delivers(r, p, a) && Delivers(r, q, b)
    ensures a == b
  {
    assert forall s :: 0 <= s <= Budget(r) ==> Struck(p, r.id, s) == Struck(q, r.id, s);
    assert IsEnding(r, p, |b.content|, b.reason);
    EndingUnique(r, p, |a.content|, a.reason, |b.content|, b.reason);
  }

  /** Decode steps a request forces on the shared loop: a plan of its own ends it before the step is decoded. */
  ghost function StepsForced(r: Request, p: Plans): nat {
    var e := EndingFrom(r, p, 0);
    if e.reason == Stop || e.step in p.shared then e.step + 1 else e.step
  }

  /** The request ends at a step where a shared failure strikes. */
  ghost predicate EndsShared(r: Request, p: Plans) { EndingFrom(r, p, 0).step in p.shared }

  // ---------------------------------------------------------------------------
  // The backend
  // ---------------------------------------------------------------------------

  function Ended(q: Sequence, s: SequenceState): Sequence {
    if q.state.Terminal() || q.state.CleanedUp? then q else q.(state := s)
  }

  predicate Emits(q: Sequence) {
    !(q.state.Cancelled? || q.state.Failed? || q.state.TimedOut?) && q.steps < q.maxTokens
  }

  function Decoded(q: Sequence): Sequence {
    if q.state.Cancelled? || q.state.Failed? || q.state.TimedOut? then q
    else if q.steps < q.maxTokens then
      q.(state := if q.state.ReadyToDecode? then Decoding else q.state, steps := q.steps + 1)
    else q.(state := Finished)
  }

  predicate Distinct<T(==)>(s: seq<T>) {
    forall i, j :: 0 <= i < j < |s| ==> s[i] != s[j]
  }

  /** What the backend's dictionaries give for a handle they do not hold; an absent state acts as DECODING. */
  function Unseen(): Sequence { Sequence(Decoding, 0, 0, "default", "?") }

  function At(seqs: map<nat, Sequence>, h: nat): Sequence { if h in seqs then seqs[h] else Unseen() }

  /** One decode step handle by handle; a repeated handle is decoded again and its later token replaces the earlier. */
  function DecodeEach(seqs: map<nat, Sequence>, handles: seq<nat>): (map<nat, Sequence>, map<nat, Token>) {
    if handles == [] then (seqs, map[])
    else
      var (m, out) := DecodeEach(seqs, handles[..|handles|-1]);
      var h := handles[|handles|-1];
      var q := At(m, h);
      (m[h := Decoded(q)], if Emits(q) then out[h := Token(q.id, q.sampler, q.steps)] else out)
  }

  /** Over distinct handles the step acts on each handle alone. */
  lemma {:induction false} DecodeEachPointwise(seqs: map<nat, Sequence>, handles: seq<nat>)
    requires Distinct(handles)
    ensures var (m, out) := DecodeEach(seqs, handles);
      && (forall h :: h in m <==> h in seqs || h in handles)
      && (forall h :: h in m ==> m[h] == if h in handles then Decoded(At(seqs, h)) else seqs[h])
      && (forall h :: h in out <==> h in handles && Emits(At(seqs, h)))
      && (forall h :: h in out ==> out[h] == Token(At(seqs, h).id, At(seqs, h).sampler, At(seqs, h).steps))
  {
    if handles != [] {
      var front, h := handles[..|handles|-1], handles[|handles|-1];
      DecodeEachPointwise(seqs, front);
      assert handles == front + [h] && h !in front;
    }
  }

  class Backend {
    var seqs: map<nat, Sequence>
    var nextId: nat

    ghost predicate Valid() reads this {
      forall h :: h in seqs ==> h < nextId
    }

    constructor ()
      ensures Valid() && seqs == map[] && nextId == 0
    {
      seqs := map[];
      nextId := 0;
    }

    method Prefill(r: Request) returns (h: nat)
      modifies this
      ensures h == old(nextId) && nextId == h + 1 && (old(Valid()) ==> Valid())
      ensures seqs == old(seqs)[h := Sequence(ReadyToDecode, r.maxTokens, 0, r.sampler, r.id)]
    {
      h := nextId;
      nextId := nextId + 1;
      seqs := seqs[h := Sequence(ReadyToDecode, r.maxTokens, 0, r.sampler, r.id)];
    }

    predicate IsFinished(h: nat)
      reads this
    {
      At(seqs, h).state.Terminal()
    }

    method CancelSequence(h: nat)
      modifies this`seqs
      ensures seqs == old(seqs)[h := Ended(At(old(seqs), h), Cancelled)]
    {
      var q := At(seqs, h);
      if !q.state.Terminal() && !q.state.CleanedUp? {
        seqs := seqs[h := q.(state := Cancelled)];
      }
    }

    method TimeoutSequence(h: nat)
      modifies this`seqs
      ensures seqs == old(seqs)[h := Ended(At(old(seqs), h), TimedOut)]
    {
      var q := At(seqs, h);
      if !q.state.Terminal() && !q.state.CleanedUp? {
        seqs := seqs[h := q.(state := TimedOut)];
      }
    }

    method FailSequence(h: nat)
      modifies this`seqs
      ensures seqs == old(seqs)[h := Ended(At(old(seqs), h), Failed)]
    {
      var q := At(seqs, h);
      if !q.state.Terminal() && !q.state.CleanedUp? {
        seqs := seqs[h := q.(state := Failed)];
      }
    }

    method ReleaseSequence(h: nat)
      modifies this`seqs
      ensures seqs == old(seqs)[h := At(old(seqs), h).(state := CleanedUp)]
    {
      seqs := seqs[h := At(seqs, h).(state := CleanedUp)];
    }

    /** One shared decode step over any handles. */
    method DecodeStep(handles: seq<nat>) returns (outputs: map<nat, Token>)
      modifies this`seqs
      ensures (seqs, outputs) == DecodeEach(old(seqs), handles)
    {
      outputs := map[];
      for k := 0 to |handles|
        invariant (seqs, outputs) == DecodeEach(old(seqs), handles[..k])
      {
        var h := handles[k];
        assert handles[..k+1][..k] == handles[..k];
        var q := At(seqs, h);
        if Emits(q) {
          outputs := outputs[h := Token(q.id, q.sampler, q.steps)];
        }
        seqs := seqs[h := Decoded(q)];
      }
      assert handles[..|handles|] == handles;
    }
  }

  // ---------------------------------------------------------------------------
  // Plan tables
  // ---------------------------------------------------------------------------

  /** The ids a plan names at one step, in plan order. */
  function IdsAt(plan: seq<PlanItem>, step: int): seq<string> {
    if plan == [] then []
    else
      var rest := IdsAt(plan[..|plan|-1], step);
      var last := plan[|plan|-1];
      if last.step == step then rest + [last.id] else rest
  }

  lemma {:induction false} IdsAtIsPlanned(plan: seq<PlanItem>, step: int)
    ensures forall id :: id in IdsAt(plan, step) <==> Planned(plan, id, step)
  {
    if plan != [] {
      var n := |plan| - 1;
      IdsAtIsPlanned(plan[..n], step);
      forall id ensures id in IdsAt(plan, step) <==> Planned(plan, id, step) {
        if Planned(plan, id, step) {
          var k :| 0 <= k < |plan| && plan[k] == PlanItem(id, step);
          if k < n {
            assert plan[..n][k] == PlanItem(id, step);
          }
        }
        if Planned(plan[..n], id, step) {
          var k :| 0 <= k < n && plan[..n][k] == PlanItem(id, step);
          assert plan[k] == PlanItem(id, step);
        }
        if plan[n] == PlanItem(id, step) {
          assert Planned(plan, id, step);
        }
      }
    }
  }

  function Lookup(table: map<int, seq<string>>, step: int): seq<string> {
    if step in table then table[step] else []
  }

  /** Index a plan by step; looking a step up gives exactly the ids planned there. */
  method IndexPlan(plan: seq<PlanItem>) returns (table: map<int, seq<string>>)
    ensures forall step, id :: id in Lookup(table, step) <==> Planned(plan, id, step)
  {
    table := map[];
    for k := 0 to |plan|
      invariant forall step :: Lookup(table, step) == IdsAt(plan[..k], step)
    {
      assert plan[..k+1][..k] == plan[..k];
      table := table[plan[k].step := Lookup(table, plan[k].step) + [plan[k].id]];
    }
    assert plan[..|plan|] == plan;
    forall step ensures forall id :: id in Lookup(table, step) <==> Planned(plan, id, step) {
      IdsAtIsPlanned(plan, step);
    }
  }

  // ---------------------------------------------------------------------------
  // Applying a plan
  // ---------------------------------------------------------------------------

  /** The sequences the ids are routed to. */
  ghost function Targets(routes: map<string, nat>, ids: seq<string>): set<nat> {
    if ids == [] then {}
    else
      var id := ids[|ids|-1];
      Targets(routes, ids[..|ids|-1]) + if id in routes then {routes[id]} else {}
  }

  lemma {:induction false} TargetsAreRouted(routes: map<string, nat>, ids: seq<string>)
    ensures forall id :: id in ids && id in routes ==> routes[id] in Targets(routes, ids)
    ensures forall h :: h in Targets(routes, ids) ==> exists id :: id in ids && id in routes && routes[id] == h
  {
    if ids != [] {
      TargetsAreRouted(routes, ids[..|ids|-1]);
      assert ids == ids[..|ids|-1] + [ids[|ids|-1]];
    }
  }

  /** The routed sequences that are still unfinished. */
  ghost function Hit(seqs: map<nat, Sequence>, routes: map<string, nat>, ids: seq<string>): set<nat> {
    set h | h in Targets(routes, ids) && h in seqs && !seqs[h].state.Terminal()
  }

  lemma NoHit(seqs: map<nat, Sequence>, routes: map<string, nat>, ids: seq<string>)
    requires ids == []
    ensures Hit(seqs, routes, ids) == {}
  {}

  lemma HitNext(seqs: map<nat, Sequence>, routes: map<string, nat>, ids: seq<string>, k: nat)
    requires k < |ids|
    ensures Hit(seqs, routes, ids[..k+1]) == Hit(seqs, routes, ids[..k]) +
      if ids[k] in routes && routes[ids[k]] in seqs && !seqs[routes[ids[k]]].state.Terminal() then {routes[ids[k]]}
      else {}
  {
    assert ids[..k+1][..k] == ids[..k];
  }

  /** _apply: end every routed, unfinished sequence named by `ids`, and count the ends. */
  method ApplyPlan(backend: Backend, routes: map<string, nat>, ids: seq<string>, kind: SequenceState)
    returns (n: nat)
    requires kind.Cancelled? || kind.TimedOut? || kind.Failed?
    requires forall id :: id in routes ==> routes[id] in backend.seqs && !backend.seqs[routes[id]].state.CleanedUp?
    modifies backend`seqs
    ensures backend.seqs.Keys == old(backend.seqs).Keys
    ensures forall h :: h in backend.seqs ==>
      backend.seqs[h] == if h in Hit(old(backend.seqs), routes, ids)
                         then old(backend.seqs)[h].(state := kind) else old(backend.seqs)[h]
    ensures n == |Hit(old(backend.seqs), routes, ids)|
  {
    hide Targets, Hit;
    n := 0;
    ghost var before := backend.seqs;
    assert Hit(before, routes, ids[..0]) == {} by { NoHit(before, routes, ids[..0]); }
    for k := 0 to |ids|
      invariant backend.seqs.Keys == before.Keys
      invariant forall h :: h in before ==>
        backend.seqs[h] == if h in Hit(before, routes, ids[..k]) then before[h].(state := kind) else before[h]
      invariant n == |Hit(before, routes, ids[..k])|
    {
      HitNext(before, routes, ids, k);
      if ids[k] in routes && !backend.IsFinished(routes[ids[k]]) {
        var h := routes[ids[k]];
        match kind {
          case Cancelled => backend.CancelSequence(h);
          case TimedOut => backend.TimeoutSequence(h);
          case Failed => backend.FailSequence(h);
        }
        n := n + 1;
      } else {
        assert Hit(before, routes, ids[..k+1]) == Hit(before, routes, ids[..k]);
      }
    }
    assert ids[..|ids|] == ids;
  }

  // ---------------------------------------------------------------------------
  // What the shared loop keeps for every request
  // ---------------------------------------------------------------------------

  ghost function StateFor(reason: FinishReason): SequenceState {
    match reason
    case Stop => Finished
    case CancelledReason => Cancelled
    case TimeoutReason => TimedOut
    case ErrorReason => Failed
  }

  /** _finish_reason */
  function ReasonFor(state: SequenceState): FinishReason {
    match state
    case Cancelled => CancelledReason
    case TimedOut => TimeoutReason
    case Failed => ErrorReason
    case _ => Stop
  }

  /** After `s` completed steps a sequence has either met its own ending or survived to step `s`. */
  ghost predicate TracksOne(q: Sequence, acc: seq<Token>, r: Request, p: Plans, s: nat) {
    && q.id == r.id && q.sampler == r.sampler && q.maxTokens == r.maxTokens
    && !q.state.CleanedUp?
    && acc == Tokens(r, q.steps)
    && if q.state.Terminal() then
         && q.steps == EndingFrom(r, p, 0).step
         && q.state == StateFor(EndingFrom(r, p, 0).reason)
         && StepsForced(r, p) <= s
       else
         && q.steps == s <= Budget(r)
         && EndingFrom(r, p, s) == EndingFrom(r, p, 0)
  }

  datatype Session = Session(requests: seq<Request>, plans: Plans, base: nat) {
    ghost predicate WellFormed() {
      forall i, j :: 0 <= i < j < |requests| ==> requests[i].id != requests[j].id
    }

    ghost predicate Owns(h: int) { base <= h < base + |requests| }

    ghost function Of(h: int): Request
      requires Owns(h)
    {
      requests[h - base]
    }

    ghost predicate Tracks(seqs: map<nat, Sequence>, accs: map<string, seq<Token>>, s: nat) {
      forall h :: Owns(h) ==> h in seqs && Of(h).id in accs && TracksOne(seqs[h], accs[Of(h).id], Of(h), plans, s)
    }

    ghost predicate Routes(routes: map<string, nat>) {
      && (forall h :: Owns(h) ==> Of(h).id in routes && routes[Of(h).id] == h)
      && (forall id :: id in routes ==> Owns(routes[id]) && Of(routes[id]).id == id)
    }

    ghost function InState(seqs: map<nat, Sequence>, st: SequenceState): set<nat> {
      set h | base <= h < base + |requests| && h in seqs && seqs[h].state == st
    }

    /** The three counters of the loop are the sizes of the matching state classes. */
    ghost predicate Counted(seqs: map<nat, Sequence>, c: nat, t: nat, f: nat) {
      c == |InState(seqs, Cancelled)| && t == |InState(seqs, TimedOut)| && f == |InState(seqs, Failed)|
    }

    /** Some request ends at a shared failure. */
    ghost predicate StruckTogether() { exists h :: Owns(h) && EndsShared(Of(h), plans) }

    /** Some request forces the loop to run at least `s` steps. */
    ghost predicate Needed(s: nat) {
      s == 0 || exists h :: Owns(h) && StepsForced(Of(h), plans) >= s
    }
  }

  // ---------------------------------------------------------------------------
  // One decode step of the loop
  // ---------------------------------------------------------------------------

  ghost function PlanOf(p: Plans, stage: nat): seq<PlanItem> {
    if stage == 0 then p.cancel else if stage == 1 then p.timeout else p.fail
  }

  ghost function KindOf(stage: nat): SequenceState {
    if stage == 0 then Cancelled else if stage == 1 then TimedOut else Failed
  }

  /** Sequences still live have not been named by the plans applied so far at step `s`. */
  ghost predicate Cleared(z: Session, seqs: map<nat, Sequence>, s: nat, stages: nat) {
    forall h, k :: z.Owns(h) && h in seqs && !seqs[h].state.Terminal() && 0 <= k < stages ==>
      !Planned(PlanOf(z.plans, k), z.Of(h).id, s)
  }

  /** Applying one plan at a step keeps `Tracks` and clears one more plan. */
  lemma StageKeepsTracks(z: Session, before: map<nat, Sequence>, after: map<nat, Sequence>,
                         accs: map<string, seq<Token>>, routes: map<string, nat>, ids: seq<string>, s: nat, stage: nat)
    requires z.Tracks(before, accs, s) && z.Routes(routes)
    requires stage < 3 && s !in z.plans.shared && Cleared(z, before, s, stage)
    requires forall id :: id in ids <==> Planned(PlanOf(z.plans, stage), id, s)
    requires after.Keys == before.Keys
    requires forall h :: h in after ==>
      after[h] == if h in Hit(before, routes, ids) then before[h].(state := KindOf(stage)) else before[h]
    ensures z.Tracks(after, accs, s)
    ensures Cleared(z, after, s, stage + 1)
  {
    TargetsAreRouted(routes, ids);
    forall h | z.Owns(h)
      ensures TracksOne(after[h], accs[z.Of(h).id], z.Of(h), z.plans, s)
      ensures !after[h].state.Terminal() ==> !Planned(PlanOf(z.plans, stage), z.Of(h).id, s)
    {
      var r := z.Of(h);
      assert TracksOne(before[h], accs[r.id], r, z.plans, s);
      if h in Hit(before, routes, ids) {
        assert Planned(PlanOf(z.plans, stage), r.id, s);
        assert forall k :: 0 <= k < stage ==> !Planned(PlanOf(z.plans, k), r.id, s);
        assert stage > 0 ==> !Planned(PlanOf(z.plans, 0), r.id, s);
        assert stage > 1 ==> !Planned(PlanOf(z.plans, 1), r.id, s);
        assert EndingFrom(r, z.plans, s) == Ending(s, ReasonAt(z.plans, r.id, s));
      }
    }
  }

  lemma HitIsOwned(z: Session, seqs: map<nat, Sequence>, routes: map<string, nat>, ids: seq<string>)
    requires z.Routes(routes)
    ensures forall h :: h in Hit(seqs, routes, ids) ==> z.Owns(h)
  {
    TargetsAreRouted(routes, ids);
  }

  lemma StageCounts(z: Session, before: map<nat, Sequence>, after: map<nat, Sequence>, hit: set<nat>,
                    kind: SequenceState, other: SequenceState)
    requires forall h :: h in hit ==> z.Owns(h) && h in before && !before[h].state.Terminal()
    requires kind.Terminal() && other.Terminal() && other != kind
    requires after.Keys == before.Keys
    requires forall h :: h in after ==> after[h] == if h in hit then before[h].(state := kind) else before[h]
    ensures |z.InState(after, kind)| == |z.InState(before, kind)| + |hit|
    ensures z.InState(after, other) == z.InState(before, other)
  {
    forall h ensures h in z.InState(after, kind) <==> h in z.InState(before, kind) + hit {
      if h in hit {
        assert h in after;
      }
    }
    assert z.InState(after, kind) == z.InState(before, kind) + hit;
    assert z.InState(before, kind) !! hit;
    forall h ensures h in z.InState(after, other) <==> h in z.InState(before, other) {
    }
  }

  lemma StageStart(z: Session, seqs: map<nat, Sequence>, accs: map<string, seq<Token>>, routes: map<string, nat>,
                   s: nat)
    requires z.Routes(routes) && z.Tracks(seqs, accs, s)
    ensures Cleared(z, seqs, s, 0)
    ensures forall id :: id in routes ==> routes[id] in seqs && !seqs[routes[id]].state.CleanedUp?
    ensures PlanOf(z.plans, 0) == z.plans.cancel && PlanOf(z.plans, 1) == z.plans.timeout
    ensures PlanOf(z.plans, 2) == z.plans.fail
    ensures KindOf(0) == Cancelled && KindOf(1) == TimedOut && KindOf(2) == Failed
  {
    forall id | id in routes ensures routes[id] in seqs && !seqs[routes[id]].state.CleanedUp? {
      assert z.Owns(routes[id]);
    }
  }

  /** One plan of one step: tracking and counting go on, and nothing outside the session changes. */
  lemma PlanStage(z: Session, before: map<nat, Sequence>, after: map<nat, Sequence>, accs: map<string, seq<Token>>,
                  routes: map<string, nat>, ids: seq<string>, s: nat, stage: nat, c: nat, t: nat, f: nat)
    requires z.Tracks(before, accs, s) && z.Routes(routes) && z.Counted(before, c, t, f)
    requires stage < 3 && s !in z.plans.shared && Cleared(z, before, s, stage)
    requires forall id :: id in ids <==> Planned(PlanOf(z.plans, stage), id, s)
    requires after.Keys == before.Keys
    requires forall h :: h in after ==>
      after[h] == if h in Hit(before, routes, ids) then before[h].(state := KindOf(stage)) else before[h]
    ensures z.Tracks(after, accs, s) && Cleared(z, after, s, stage + 1)
    ensures var n := |Hit(before, routes, ids)|;
      z.Counted(after, if stage == 0 then c + n else c, if stage == 1 then t + n else t,
                if stage == 2 then f + n else f)
    ensures forall h :: h in after && !z.Owns(h) ==> after[h] == before[h]
    ensures forall id :: id in routes ==> routes[id] in after && !after[routes[id]].state.CleanedUp?
  {
    StageKeepsTracks(z, before, after, accs, routes, ids, s, stage);
    StageStart(z, after, accs, routes, s);
    HitIsOwned(z, before, routes, ids);
    StageEnds(before, routes, ids);
    hide Hit, Cleared, Planned;
    var hit := Hit(before, routes, ids);
    match stage {
      case 0 =>
        StageCounts(z, before, after, hit, Cancelled, TimedOut);
        StageCounts(z, before, after, hit, Cancelled, Failed);
      case 1 =>
        StageCounts(z, before, after, hit, TimedOut, Cancelled);
        StageCounts(z, before, after, hit, TimedOut, Failed);
      case _ =>
        StageCounts(z, before, after, hit, Failed, Cancelled);
        StageCounts(z, before, after, hit, Failed, TimedOut);
    }
  }

  lemma StageEnds(seqs: map<nat, Sequence>, routes: map<string, nat>, ids: seq<string>)
    ensures forall h :: h in Hit(seqs, routes, ids) ==> h in seqs && !seqs[h].state.Terminal()
  {}

  /** The three plans of one step, in their order of precedence. */
  method ApplyStep(backend: Backend, routes: map<string, nat>,
                   cancelIds: seq<string>, timeoutIds: seq<string>, failIds: seq<string>,
                   ghost z: Session, ghost accs: map<string, seq<Token>>, ghost s: nat,
                   c0: nat, t0: nat, f0: nat)
    returns (c: nat, t: nat, f: nat)
    requires z.Routes(routes) && z.Tracks(backend.seqs, accs, s) && s !in z.plans.shared
    requires forall id :: id in cancelIds <==> Planned(z.plans.cancel, id, s)
    requires forall id :: id in timeoutIds <==> Planned(z.plans.timeout, id, s)
    requires forall id :: id in failIds <==> Planned(z.plans.fail, id, s)
    requires z.Counted(backend.seqs, c0, t0, f0)
    modifies backend`seqs
    ensures backend.seqs.Keys == old(backend.seqs).Keys
    ensures z.Tracks(backend.seqs, accs, s) && Cleared(z, backend.seqs, s, 3)
    ensures forall h :: h in backend.seqs && !z.Owns(h) ==> backend.seqs[h] == old(backend.seqs)[h]
    ensures z.Counted(backend.seqs, c, t, f)
  {
    hide *;
    ghost var s0 := backend.seqs;
    StageStart(z, s0, accs, routes, s);
    var n := ApplyPlan(backend, routes, cancelIds, Cancelled);
    c := c0 + n;
    ghost var s1 := backend.seqs;
    PlanStage(z, s0, s1, accs, routes, cancelIds, s, 0, c0, t0, f0);
    n := ApplyPlan(backend, routes, timeoutIds, TimedOut);
    t := t0 + n;
    ghost var s2 := backend.seqs;
    PlanStage(z, s1, s2, accs, routes, timeoutIds, s, 1, c, t0, f0);
    n := ApplyPlan(backend, routes, failIds, Failed);
    f := f0 + n;
    PlanStage(z, s2, backend.seqs, accs, routes, failIds, s, 2, c, t, f0);
  }

  /** _active: the unfinished handles, in order. */
  function Active(handles: seq<nat>, seqs: map<nat, Sequence>): (a: seq<nat>)
    requires forall k :: 0 <= k < |handles| ==> handles[k] in seqs
    requires Distinct(handles)
    ensures Distinct(a)
    ensures forall h :: h in a <==> h in handles && !seqs[h].state.Terminal()
  {
    if handles == [] then []
    else
      var rest := Active(handles[1..], seqs);
      assert handles == [handles[0]] + handles[1..];
      assert handles[0] !in handles[1..];
      if seqs[handles[0]].state.Terminal() then rest else [handles[0]] + rest
  }

  /** Append each emitted token to the accumulator of the request that owns the sequence. */
  method RouteOutputs(active: seq<nat>, outputs: map<nat, Token>, owners: map<nat, string>,
                      accs0: map<string, seq<Token>>)
    returns (accs: map<string, seq<Token>>)
    requires Distinct(active)
    requires forall h :: h in active ==> h in owners && owners[h] in accs0
    requires forall h, g :: h in owners && g in owners && owners[h] == owners[g] ==> h == g
    ensures accs.Keys == accs0.Keys
    ensures forall h :: h in owners && owners[h] in accs ==>
      accs[owners[h]] == accs0[owners[h]] + if h in active && h in outputs then [outputs[h]] else []
  {
    accs := accs0;
    for k := 0 to |active|
      invariant accs.Keys == accs0.Keys
      invariant forall h :: h in owners && owners[h] in accs ==>
        accs[owners[h]] == accs0[owners[h]] + if h in active[..k] && h in outputs then [outputs[h]] else []
    {
      var h := active[k];
      assert active[..k+1] == active[..k] + [h];
      assert h !in active[..k];
      if h in outputs {
        accs := accs[owners[h] := accs[owners[h]] + [outputs[h]]];
      }
    }
    assert active[..|active|] == active;
  }

  lemma DecodeKeepsTracksOne(q: Sequence, acc: seq<Token>, r: Request, p: Plans, s: nat)
    requires TracksOne(q, acc, r, p, s)
    requires !q.state.Terminal() && !Struck(p, r.id, s)
    ensures TracksOne(Decoded(q), acc + if Emits(q) then [Token(q.id, q.sampler, q.steps)] else [], r, p, s + 1)
    ensures StepsForced(r, p) >= s + 1
    ensures !Decoded(q).state.Cancelled? && !Decoded(q).state.TimedOut? && !Decoded(q).state.Failed?
  {
    if Emits(q) {
      assert acc + [Token(q.id, q.sampler, q.steps)] == Tokens(r, s + 1);
      SurvivorsEndLater(r, p, s + 1);
    } else {
      assert EndingFrom(r, p, s) == Ending(s, Stop);
      assert acc + [] == acc;
    }
  }

  lemma {:induction false} SurvivorsEndLater(r: Request, p: Plans, s: nat)
    ensures EndingFrom(r, p, s).step >= s
    decreases Budget(r) - s
  {
    if !(Struck(p, r.id, s) || s >= Budget(r)) {
      SurvivorsEndLater(r, p, s + 1);
    }
  }

  lemma DecodeKeepsTracks(z: Session, before: map<nat, Sequence>, after: map<nat, Sequence>,
                          accs0: map<string, seq<Token>>, accs: map<string, seq<Token>>,
                          active: seq<nat>, outputs: map<nat, Token>, owners: map<nat, string>, s: nat)
    requires z.Tracks(before, accs0, s) && Cleared(z, before, s, 3) && s !in z.plans.shared && active != []
    requires forall h :: h in active <==> z.Owns(h) && !before[h].state.Terminal()
    requires forall h :: h in owners <==> z.Owns(h)
    requires forall h :: h in owners ==> owners[h] == z.Of(h).id
    requires after.Keys == before.Keys && accs.Keys == accs0.Keys
    requires forall h :: h in after ==> after[h] == if h in active then Decoded(before[h]) else before[h]
    requires forall h :: h in outputs <==> h in active && Emits(before[h])
    requires forall h :: h in outputs ==> outputs[h] == Token(before[h].id, before[h].sampler, before[h].steps)
    requires forall h :: h in owners && owners[h] in accs ==>
      accs[owners[h]] == accs0[owners[h]] + if h in active && h in outputs then [outputs[h]] else []
    ensures z.Tracks(after, accs, s + 1) && z.Needed(s + 1)
  {
    forall h | z.Owns(h)
      ensures TracksOne(after[h], accs[z.Of(h).id], z.Of(h), z.plans, s + 1)
      ensures h in active ==> StepsForced(z.Of(h), z.plans) >= s + 1
    {
      var r := z.Of(h);
      assert owners[h] == r.id;
      assert TracksOne(before[h], accs0[r.id], r, z.plans, s);
      if h in active {
        NotStruck(z, before, s, h);
        DecodeKeepsTracksOne(before[h], accs0[r.id], r, z.plans, s);
      } else {
        assert accs[r.id] == accs0[r.id];
        TerminalKeepsTracks(before[h], accs0[r.id], r, z.plans, s);
      }
    }
    assert z.Owns(active[0]) by { assert active[0] in active; }
  }

  /** Decoding live sequences cancels, times out and fails none. */
  lemma DecodeKeepsCounts(z: Session, before: map<nat, Sequence>, after: map<nat, Sequence>, active: seq<nat>,
                          st: SequenceState)
    requires forall h :: h in active ==> h in before && (before[h].state.ReadyToDecode? || before[h].state.Decoding?)
    requires after.Keys == before.Keys
    requires forall h :: h in after ==> after[h] == if h in active then Decoded(before[h]) else before[h]
    requires st.Cancelled? || st.TimedOut? || st.Failed?
    ensures z.InState(after, st) == z.InState(before, st)
  {}

  lemma NotStruck(z: Session, seqs: map<nat, Sequence>, s: nat, h: nat)
    requires Cleared(z, seqs, s, 3) && s !in z.plans.shared
    requires z.Owns(h) && h in seqs && !seqs[h].state.Terminal()
    ensures !Struck(z.plans, z.Of(h).id, s)
  {
    assert !Planned(PlanOf(z.plans, 0), z.Of(h).id, s);
    assert !Planned(PlanOf(z.plans, 1), z.Of(h).id, s);
    assert !Planned(PlanOf(z.plans, 2), z.Of(h).id, s);
  }

  lemma TerminalKeepsTracks(q: Sequence, acc: seq<Token>, r: Request, p: Plans, s: nat)
    requires TracksOne(q, acc, r, p, s) && q.state.Terminal()
    ensures TracksOne(q, acc, r, p, s + 1)
  {}

  /** Decode the live sequences once and route their tokens: every request advances from step `s` to `s + 1`. */
  method DecodeRound(backend: Backend, active: seq<nat>, owners: map<nat, string>, accs0: map<string, seq<Token>>,
                     ghost z: Session, ghost s: nat)
    returns (accs: map<string, seq<Token>>)
    requires z.WellFormed() && z.Tracks(backend.seqs, accs0, s) && Cleared(z, backend.seqs, s, 3)
    requires s !in z.plans.shared
    requires Distinct(active) && active != []
    requires forall h :: h in active <==> z.Owns(h) && !backend.seqs[h].state.Terminal()
    requires forall h :: h in owners <==> z.Owns(h)
    requires forall h :: h in owners ==> owners[h] == z.Of(h).id
    modifies backend`seqs
    ensures backend.seqs.Keys == old(backend.seqs).Keys
    ensures z.Tracks(backend.seqs, accs, s + 1) && z.Needed(s + 1)
    ensures forall h :: h in backend.seqs && !z.Owns(h) ==> backend.seqs[h] == old(backend.seqs)[h]
    ensures z.InState(backend.seqs, Cancelled) == z.InState(old(backend.seqs), Cancelled)
    ensures z.InState(backend.seqs, TimedOut) == z.InState(old(backend.seqs), TimedOut)
    ensures z.InState(backend.seqs, Failed) == z.InState(old(backend.seqs), Failed)
  {
    ghost var before := backend.seqs;
    var outputs := backend.DecodeStep(active);
    DecodeEachPointwise(before, active);
    assert backend.seqs.Keys == before.Keys;
    accs := RouteOutputs(active, outputs, owners, accs0);
    DecodeKeepsTracks(z, before, backend.seqs, accs0, accs, active, outputs, owners, s);
    DecodeKeepsCounts(z, before, backend.seqs, active, Cancelled);
    DecodeKeepsCounts(z, before, backend.seqs, active, TimedOut);
    DecodeKeepsCounts(z, before, backend.seqs, active, Failed);
  }

  lemma {:induction false} DistinctSize(hs: seq<nat>, a: set<nat>)
    requires Distinct(hs) && forall h :: h in a <==> h in hs
    ensures |a| == |hs|
  {
    if hs == [] {
      assert a == {};
    } else {
      assert hs == [hs[0]] + hs[1..];
      assert hs[0] !in hs[1..];
      DistinctSize(hs[1..], a - {hs[0]});
    }
  }

  /** A shared step failure fails every live sequence. */
  method FailAll(backend: Backend, active: seq<nat>) returns (n: nat)
    requires Distinct(active)
    requires forall h :: h in active ==>
      h in backend.seqs && !backend.seqs[h].state.Terminal() && !backend.seqs[h].state.CleanedUp?
    modifies backend`seqs
    ensures backend.seqs.Keys == old(backend.seqs).Keys
    ensures forall h :: h in backend.seqs ==>
      backend.seqs[h] == if h in active then old(backend.seqs)[h].(state := Failed) else old(backend.seqs)[h]
    ensures n == |active|
  {
    n := 0;
    ghost var before := backend.seqs;
    for k := 0 to |active|
      invariant backend.seqs.Keys == before.Keys && n == k
      invariant forall h :: h in before ==>
        backend.seqs[h] == if h in active[..k] then before[h].(state := Failed) else before[h]
    {
      assert active[..k+1] == active[..k] + [active[k]];
      backend.FailSequence(active[k]);
      n := n + 1;
    }
    assert active[..|active|] == active;
  }

  /** A shared failure at step `s` is the ending of every request that survived to it. */
  lemma SharedFailureEnds(z: Session, before: map<nat, Sequence>, after: map<nat, Sequence>,
                          accs: map<string, seq<Token>>, active: seq<nat>, s: nat)
    requires z.Tracks(before, accs, s) && s in z.plans.shared && active != [] && Distinct(active)
    requires forall h :: h in active <==> z.Owns(h) && !before[h].state.Terminal()
    requires after.Keys == before.Keys
    requires forall h :: h in after ==> after[h] == if h in active then before[h].(state := Failed) else before[h]
    ensures z.Tracks(after, accs, s + 1) && z.Needed(s + 1)
    ensures |z.InState(after, Failed)| == |z.InState(before, Failed)| + |active|
    ensures z.InState(after, Cancelled) == z.InState(before, Cancelled)
    ensures z.InState(after, TimedOut) == z.InState(before, TimedOut)
    ensures forall h :: z.Owns(h) ==> after[h].state.Terminal()
    ensures z.StruckTogether()
  {
    forall h | z.Owns(h)
      ensures TracksOne(after[h], accs[z.Of(h).id], z.Of(h), z.plans, s + 1)
      ensures h in active ==> StepsForced(z.Of(h), z.plans) >= s + 1
    {
      assert TracksOne(before[h], accs[z.Of(h).id], z.Of(h), z.plans, s);
      assert h in active ==> EndingFrom(z.Of(h), z.plans, s) == Ending(s, ErrorReason);
    }
    assert z.Owns(active[0]) by { assert active[0] in active; }
    assert EndsShared(z.Of(active[0]), z.plans);
    var hit := set h | h in active;
    DistinctSize(active, hit);
    StageCounts(z, before, after, hit, Failed, Cancelled);
    StageCounts(z, before, after, hit, Failed, TimedOut);
  }

  // ---------------------------------------------------------------------------
  // The whole schedule
  // ---------------------------------------------------------------------------

  /** Prefill every request in order. */
  method PrefillAll(requests: seq<Request>, backend: Backend, ghost z: Session) returns (handles: seq<nat>)
    requires backend.Valid() && z.requests == requests && z.base == backend.nextId
    modifies backend
    ensures backend.Valid() && backend.nextId == z.base + |requests|
    ensures |handles| == |requests| && forall i :: 0 <= i < |handles| ==> handles[i] == z.base + i
    ensures forall h :: h in backend.seqs <==> h in old(backend.seqs) || z.Owns(h)
    ensures forall h :: h in backend.seqs ==>
      backend.seqs[h] == if z.Owns(h) then Fresh(z.Of(h)) else old(backend.seqs)[h]
  {
    handles := [];
    for i := 0 to |requests|
      invariant backend.Valid() && backend.nextId == z.base + i && |handles| == i
      invariant forall k :: 0 <= k < i ==> handles[k] == z.base + k
      invariant forall h :: h in backend.seqs <==> h in old(backend.seqs) || z.base <= h < z.base + i
      invariant forall h :: h in backend.seqs ==>
        backend.seqs[h] == if z.Owns(h) then Fresh(z.Of(h)) else old(backend.seqs)[h]
    {
      var h := backend.Prefill(requests[i]);
      handles := handles + [h];
    }
  }

  /** The route of each request id, its inverse, and an empty accumulator per request. */
  method BuildRoutes(requests: seq<Request>, handles: seq<nat>, ghost z: Session)
    returns (routes: map<string, nat>, owners: map<nat, string>, accs: map<string, seq<Token>>)
    requires z.WellFormed() && z.requests == requests && |handles| == |requests|
    requires forall i :: 0 <= i < |handles| ==> handles[i] == z.base + i
    ensures z.Routes(routes)
    ensures forall h :: h in owners <==> z.Owns(h)
    ensures forall h :: h in owners ==> owners[h] == z.Of(h).id && owners[h] in accs
    ensures forall id :: id in accs ==> accs[id] == []
  {
    routes, owners, accs := map[], map[], map[];
    for i := 0 to |requests|
      invariant RoutedUpTo(z, routes, owners, i)
      invariant accs.Keys == routes.Keys && forall id :: id in accs ==> accs[id] == []
    {
      RouteNext(z, routes, owners, i);
      routes := routes[requests[i].id := handles[i]];
      owners := owners[handles[i] := requests[i].id];
      accs := accs[requests[i].id := []];
    }
  }

  /** The first `n` requests have routes to their handles and back. */
  ghost predicate RoutedUpTo(z: Session, routes: map<string, nat>, owners: map<nat, string>, n: nat) {
    && n <= |z.requests|
    && (forall h :: h in owners <==> z.base <= h < z.base + n)
    && (forall h :: h in owners ==> owners[h] == z.Of(h).id && owners[h] in routes && routes[owners[h]] == h)
    && (forall id :: id in routes ==> routes[id] in owners && owners[routes[id]] == id)
  }

  lemma RouteNext(z: Session, routes: map<string, nat>, owners: map<nat, string>, i: nat)
    requires z.WellFormed() && RoutedUpTo(z, routes, owners, i) && i < |z.requests|
    ensures RoutedUpTo(z, routes[z.requests[i].id := z.base + i], owners[z.base + i := z.requests[i].id], i + 1)
  {
    assert z.Of(z.base + i) == z.requests[i];
    forall g | g in owners ensures owners[g] != z.requests[i].id {
      assert z.Of(g) == z.requests[g - z.base];
    }
  }

  function Fresh(r: Request): Sequence {
    Sequence(ReadyToDecode, r.maxTokens, 0, r.sampler, r.id)
  }

  lemma FreshTracks(z: Session, seqs: map<nat, Sequence>, owners: map<nat, string>, accs: map<string, seq<Token>>)
    requires forall h :: h in owners <==> z.Owns(h)
    requires forall h :: h in owners ==>
      owners[h] == z.Of(h).id && owners[h] in accs && h in seqs && seqs[h] == Fresh(z.Of(h))
    requires forall id :: id in accs ==> accs[id] == []
    ensures z.Tracks(seqs, accs, 0) && z.Needed(0) && z.Counted(seqs, 0, 0, 0)
  {
    forall h | z.Owns(h)
      ensures h in seqs && z.Of(h).id in accs && TracksOne(seqs[h], accs[z.Of(h).id], z.Of(h), z.plans, 0)
    {
      assert h in owners;
    }
    assert z.InState(seqs, Cancelled) == {};
    assert z.InState(seqs, TimedOut) == {};
    assert z.InState(seqs, Failed) == {};
  }

  /** Release every handle once. */
  method ReleaseAll(backend: Backend, handles: seq<nat>) returns (cleaned: nat)
    requires forall k :: 0 <= k < |handles| ==> handles[k] in backend.seqs
    modifies backend`seqs
    ensures backend.seqs.Keys == old(backend.seqs).Keys && cleaned == |handles|
    ensures forall h :: h in backend.seqs ==>
      backend.seqs[h] == if h in handles then old(backend.seqs)[h].(state := CleanedUp) else old(backend.seqs)[h]
  {
    cleaned := 0;
    ghost var before := backend.seqs;
    for k := 0 to |handles|
      invariant backend.seqs.Keys == before.Keys && cleaned == k
      invariant forall h :: h in before ==>
        backend.seqs[h] == if h in handles[..k] then before[h].(state := CleanedUp) else before[h]
    {
      assert handles[..k+1] == handles[..k] + [handles[k]];
      backend.ReleaseSequence(handles[k]);
      cleaned := cleaned + 1;
    }
    assert handles[..|handles|] == handles;
  }

  ghost function WithReason(results: seq<Result>, reason: FinishReason): set<nat> {
    set i | 0 <= i < |results| && results[i].reason == reason
  }

  lemma WithReasonLast(results: seq<Result>, reason: FinishReason)
    requires results != []
    ensures var n := |results| - 1;
      |WithReason(results, reason)| == |WithReason(results[..n], reason)| + if results[n].reason == reason then 1 else 0
  {
    var n := |results| - 1;
    var front := WithReason(results[..n], reason);
    assert WithReason(results, reason) == front + if results[n].reason == reason then {n} else {};
  }

  lemma NoResults(reason: FinishReason)
    ensures WithReason([], reason) == {}
  {}

  /** Every result has exactly one of the four reasons. */
  lemma {:induction false} ReasonsPartition(results: seq<Result>)
    ensures |WithReason(results, Stop)| + |WithReason(results, CancelledReason)|
          + |WithReason(results, TimeoutReason)| + |WithReason(results, ErrorReason)| == |results|
  {
    if results == [] {
      assert forall reason :: WithReason(results, reason) == {};
    } else {
      ReasonsPartition(results[..|results| - 1]);
      WithReasonLast(results, Stop);
      WithReasonLast(results, CancelledReason);
      WithReasonLast(results, TimeoutReason);
      WithReasonLast(results, ErrorReason);
    }
  }

  ghost function StateRange(seqs: map<nat, Sequence>, base: nat, n: nat, st: SequenceState): set<nat> {
    set h | base <= h < base + n && h in seqs && seqs[h].state == st
  }

  lemma StateRangeNext(seqs: map<nat, Sequence>, base: nat, n: nat, st: SequenceState)
    ensures |StateRange(seqs, base, n + 1, st)| ==
      |StateRange(seqs, base, n, st)| + if base + n in seqs && seqs[base + n].state == st then 1 else 0
  {
    var h, a, b := base + n, StateRange(seqs, base, n, st), StateRange(seqs, base, n + 1, st);
    assert h !in a && a <= b;
    assert b - a == if h in b then {h} else {};
    assert b == a + (b - a);
  }

  /** Results carry the reason of the state their sequence ended in, so the two counts agree. */
  lemma {:induction false} ReasonCount(seqs: map<nat, Sequence>, base: nat, results: seq<Result>,
                                       st: SequenceState, reason: FinishReason)
    requires forall h :: base <= h < base + |results| ==>
      h in seqs && (seqs[h].state == st <==> results[h - base].reason == reason)
    ensures |StateRange(seqs, base, |results|, st)| == |WithReason(results, reason)|
  {
    hide WithReason;
    if results == [] {
      assert StateRange(seqs, base, 0, st) == {};
      NoResults(reason);
    } else {
      var n := |results| - 1;
      ReasonCount(seqs, base, results[..n], st, reason);
      WithReasonLast(results, reason);
      StateRangeNext(seqs, base, n, st);
    }
  }

  function Largest(requests: seq<Request>): (m: nat)
    ensures forall i :: 0 <= i < |requests| ==> Budget(requests[i]) <= m
  {
    if requests == [] then 0
    else
      var m := Largest(requests[1..]);
      assert forall i :: 1 <= i < |requests| ==> requests[i] == requests[1..][i-1];
      Max(Budget(requests[0]), m)
  }

  /** A step at which a shared failure is planned: nothing happens if no sequence is live, else all live ones fail. */
  method SharedStep(backend: Backend, handles: seq<nat>, ghost z: Session, ghost accs: map<string, seq<Token>>,
                    ghost s: nat, ghost c: nat, ghost t: nat, f: nat)
    returns (n: nat, struck: bool)
    requires z.Tracks(backend.seqs, accs, s) && z.Needed(s) && z.Counted(backend.seqs, c, t, f) && s in z.plans.shared
    requires Distinct(handles) && forall h :: h in handles <==> z.Owns(h)
    modifies backend`seqs
    ensures backend.seqs.Keys == old(backend.seqs).Keys
    ensures forall h :: h in backend.seqs && !z.Owns(h) ==> backend.seqs[h] == old(backend.seqs)[h]
    ensures forall h :: z.Owns(h) ==> backend.seqs[h].state.Terminal()
    ensures !struck ==> backend.seqs == old(backend.seqs)
    ensures struck ==> z.Tracks(backend.seqs, accs, s + 1) && z.Needed(s + 1) && z.Counted(backend.seqs, c, t, f + n)
    ensures struck ==> z.StruckTogether()
  {
    var active := Active(handles, backend.seqs);
    if active == [] {
      return 0, false;
    }
    ghost var before := backend.seqs;
    n := FailAll(backend, active);
    SharedFailureEnds(z, before, backend.seqs, accs, active, s);
    struck := true;
  }

  lemma HandlesKnown(z: Session, seqs: map<nat, Sequence>, accs: map<string, seq<Token>>, handles: seq<nat>, s: nat)
    requires z.Tracks(seqs, accs, s) && forall h :: h in handles <==> z.Owns(h)
    ensures forall k :: 0 <= k < |handles| ==> handles[k] in seqs
    ensures forall h :: z.Owns(h) ==> h in seqs
  {
    forall k | 0 <= k < |handles| ensures handles[k] in seqs { assert handles[k] in handles; }
  }

  lemma SameCounts(z: Session, before: map<nat, Sequence>, after: map<nat, Sequence>, c: nat, t: nat, f: nat)
    requires z.Counted(before, c, t, f) && z.InState(after, Cancelled) == z.InState(before, Cancelled)
    requires z.InState(after, TimedOut) == z.InState(before, TimedOut)
    requires z.InState(after, Failed) == z.InState(before, Failed)
    ensures z.Counted(after, c, t, f)
  {}

  lemma NoneLive(z: Session, handles: seq<nat>, seqs: map<nat, Sequence>)
    requires forall h :: h in handles <==> z.Owns(h)
    requires Distinct(handles) && (forall k :: 0 <= k < |handles| ==> handles[k] in seqs) && Active(handles, seqs) == []
    requires forall h :: z.Owns(h) ==> h in seqs
    ensures forall h :: z.Owns(h) ==> seqs[h].state.Terminal()
  {
    forall h | z.Owns(h)
      ensures seqs[h].state.Terminal()
    {
      assert h in Active(handles, seqs) <==> !seqs[h].state.Terminal();
    }
  }

  /** A step without a shared failure: apply the plans, then decode whatever is still live. */
  method Round(backend: Backend, handles: seq<nat>, routes: map<string, nat>, owners: map<nat, string>,
               accs0: map<string, seq<Token>>, cancelIds: seq<string>, timeoutIds: seq<string>, failIds: seq<string>,
               ghost z: Session, ghost s: nat, c0: nat, t0: nat, f0: nat)
    returns (more: bool, accs: map<string, seq<Token>>, c: nat, t: nat, f: nat)
    requires z.WellFormed() && z.Routes(routes) && s !in z.plans.shared
    requires z.Tracks(backend.seqs, accs0, s) && z.Needed(s) && z.Counted(backend.seqs, c0, t0, f0)
    requires Distinct(handles) && forall h :: h in handles <==> z.Owns(h)
    requires forall h :: h in owners <==> z.Owns(h)
    requires forall h :: h in owners ==> owners[h] == z.Of(h).id
    requires forall id :: id in cancelIds <==> Planned(z.plans.cancel, id, s)
    requires forall id :: id in timeoutIds <==> Planned(z.plans.timeout, id, s)
    requires forall id :: id in failIds <==> Planned(z.plans.fail, id, s)
    modifies backend`seqs
    ensures backend.seqs.Keys == old(backend.seqs).Keys
    ensures forall h :: h in backend.seqs && !z.Owns(h) ==> backend.seqs[h] == old(backend.seqs)[h]
    ensures z.Counted(backend.seqs, c, t, f)
    ensures more ==> z.Tracks(backend.seqs, accs, s + 1) && z.Needed(s + 1) && s <= Largest(z.requests)
    ensures !more ==> z.Tracks(backend.seqs, accs, s) && forall h :: z.Owns(h) ==> backend.seqs[h].state.Terminal()
  {
    hide *;
    HandlesKnown(z, backend.seqs, accs0, handles, s);
    var active := Active(handles, backend.seqs);
    if active == [] {
      NoneLive(z, handles, backend.seqs);
      return false, accs0, c0, t0, f0;
    }
    c, t, f := ApplyStep(backend, routes, cancelIds, timeoutIds, failIds, z, accs0, s, c0, t0, f0);
    HandlesKnown(z, backend.seqs, accs0, handles, s);
    active := Active(handles, backend.seqs);
    if active == [] {
      NoneLive(z, handles, backend.seqs);
      return false, accs0, c, t, f;
    }
    assert active[0] in active;
    LiveWithinBudget(z, backend.seqs, accs0, s, active[0]);
    ghost var before := backend.seqs;
    accs := DecodeRound(backend, active, owners, accs0, z, s);
    SameCounts(z, before, backend.seqs, c, t, f);
    more := true;
  }

  /** The loop alone: it stops only when every sequence has met the ending of its own request. */
  method RunLoop(backend: Backend, handles: seq<nat>, routes: map<string, nat>, owners: map<nat, string>,
                 accs0: map<string, seq<Token>>, plans: Plans, ghost z: Session)
    returns (accs: map<string, seq<Token>>, steps: nat, cancelled: nat, timedOut: nat, failed: nat, sharedFailures: nat)
    requires z.WellFormed() && z.plans == plans && z.Routes(routes)
    requires z.Tracks(backend.seqs, accs0, 0) && z.Needed(0) && z.Counted(backend.seqs, 0, 0, 0)
    requires forall h :: z.Owns(h) ==> h in backend.seqs
    requires Distinct(handles) && forall h :: h in handles <==> z.Owns(h)
    requires forall h :: h in owners <==> z.Owns(h)
    requires forall h :: h in owners ==> owners[h] == z.Of(h).id
    modifies backend`seqs
    ensures backend.seqs.Keys == old(backend.seqs).Keys
    ensures forall h :: h in backend.seqs && !z.Owns(h) ==> backend.seqs[h] == old(backend.seqs)[h]
    ensures z.Tracks(backend.seqs, accs, steps) && z.Needed(steps)
    ensures z.Counted(backend.seqs, cancelled, timedOut, failed)
    ensures forall h :: z.Owns(h) ==> h in backend.seqs && backend.seqs[h].state.Terminal()
    ensures sharedFailures == 0 || (sharedFailures == 1 && z.StruckTogether())
    ensures sharedFailures == 0 ==> forall t :: 0 <= t < steps ==> t !in plans.shared
  {
    hide *;
    var cancelAt := IndexPlan(plans.cancel);
    var timeoutAt := IndexPlan(plans.timeout);
    var failAt := IndexPlan(plans.fail);
    accs, steps, cancelled, timedOut, failed, sharedFailures := accs0, 0, 0, 0, 0, 0;
    var more := true;
    while more
      invariant backend.seqs.Keys == old(backend.seqs).Keys
      invariant forall h :: h in backend.seqs && !z.Owns(h) ==> backend.seqs[h] == old(backend.seqs)[h]
      invariant z.Tracks(backend.seqs, accs, steps) && z.Needed(steps)
      invariant z.Counted(backend.seqs, cancelled, timedOut, failed)
      invariant forall h :: z.Owns(h) ==> h in backend.seqs && (!more ==> backend.seqs[h].state.Terminal())
      invariant sharedFailures == 0 || (sharedFailures == 1 && z.StruckTogether() && !more)
      invariant sharedFailures == 0 ==> forall t :: 0 <= t < steps ==> t !in plans.shared
      decreases more, Largest(z.requests) + 1 - steps
    {
      if steps in plans.shared {
        var n;
        n, more := SharedStep(backend, handles, z, accs, steps, cancelled, timedOut, failed);
        if more {
          sharedFailures, failed, steps, more := sharedFailures + 1, failed + n, steps + 1, false;
        }
      } else {
        more, accs, cancelled, timedOut, failed :=
          Round(backend, handles, routes, owners, accs, Lookup(cancelAt, steps), Lookup(timeoutAt, steps),
                Lookup(failAt, steps), z, steps, cancelled, timedOut, failed);
        if more {
          steps := steps + 1;
        }
      }
    }
  }

  lemma LiveWithinBudget(z: Session, seqs: map<nat, Sequence>, accs: map<string, seq<Token>>, s: nat, h: nat)
    requires z.Tracks(seqs, accs, s) && z.Owns(h) && !seqs[h].state.Terminal()
    ensures s <= Largest(z.requests)
  {
    assert Budget(z.requests[h - z.base]) <= Largest(z.requests);
  }

  function ResultOf(r: Request, acc: seq<Token>, state: SequenceState): Result {
    Result(r.id, acc, ReasonFor(state))
  }

  ghost predicate BuiltFrom(z: Session, seqs: map<nat, Sequence>, accs: map<string, seq<Token>>, results: seq<Result>) {
    && |results| == |z.requests|
    && (forall h :: z.Owns(h) ==> h in seqs && seqs[h].state.Terminal() && z.Of(h).id in accs)
    && (forall h :: z.Owns(h) ==> results[h - z.base] == ResultOf(z.Of(h), accs[z.Of(h).id], seqs[h].state))
  }

  lemma TerminalDelivers(q: Sequence, acc: seq<Token>, r: Request, p: Plans, s: nat)
    requires TracksOne(q, acc, r, p, s) && q.state.Terminal()
    ensures Delivers(r, p, ResultOf(r, acc, q.state)) && StepsForced(r, p) <= s
  {
    EndingFromIsEnding(r, p, 0);
  }

  lemma ResultsDeliver(z: Session, seqs: map<nat, Sequence>, accs: map<string, seq<Token>>, steps: nat,
                       results: seq<Result>)
    requires z.Tracks(seqs, accs, steps) && BuiltFrom(z, seqs, accs, results)
    ensures forall i :: 0 <= i < |results| ==> Delivers(z.requests[i], z.plans, results[i])
    ensures forall i :: 0 <= i < |results| ==> StepsForced(z.requests[i], z.plans) <= steps
  {
    forall i | 0 <= i < |results|
      ensures Delivers(z.requests[i], z.plans, results[i]) && StepsForced(z.requests[i], z.plans) <= steps
    {
      var h := z.base + i;
      assert z.Owns(h) && z.Of(h) == z.requests[i];
      TerminalDelivers(seqs[h], accs[z.Of(h).id], z.Of(h), z.plans, steps);
    }
  }

  lemma StepsAttained(z: Session, steps: nat)
    requires z.Needed(steps) && z.requests != []
    requires forall i :: 0 <= i < |z.requests| ==> StepsForced(z.requests[i], z.plans) <= steps
    ensures exists i :: 0 <= i < |z.requests| && StepsForced(z.requests[i], z.plans) == steps
  {
    if steps == 0 {
      assert StepsForced(z.requests[0], z.plans) == 0;
    } else {
      var h :| z.Owns(h) && StepsForced(z.Of(h), z.plans) >= steps;
      assert StepsForced(z.requests[h - z.base], z.plans) == steps;
    }
  }

  lemma StateCountsReason(z: Session, seqs: map<nat, Sequence>, accs: map<string, seq<Token>>, results: seq<Result>,
                          st: SequenceState, reason: FinishReason)
    requires BuiltFrom(z, seqs, accs, results)
    requires st.Terminal() && reason == ReasonFor(st)
    ensures |z.InState(seqs, st)| == |WithReason(results, reason)|
  {
    forall h | z.base <= h < z.base + |results|
      ensures h in seqs && (seqs[h].state == st <==> results[h - z.base].reason == reason)
    {
      assert z.Owns(h);
    }
    ReasonCount(seqs, z.base, results, st, reason);
    assert z.InState(seqs, st) == StateRange(seqs, z.base, |results|, st);
  }

  /** The loop's counters are the numbers of results per finish reason. */
  lemma CountersAreReasons(z: Session, seqs: map<nat, Sequence>, accs: map<string, seq<Token>>, results: seq<Result>,
                           c: nat, t: nat, f: nat)
    requires BuiltFrom(z, seqs, accs, results) && z.Counted(seqs, c, t, f)
    ensures c == |WithReason(results, CancelledReason)| && t == |WithReason(results, TimeoutReason)|
    ensures f == |WithReason(results, ErrorReason)| && |results| - c - t - f == |WithReason(results, Stop)|
  {
    StateCountsReason(z, seqs, accs, results, Cancelled, CancelledReason);
    StateCountsReason(z, seqs, accs, results, TimedOut, TimeoutReason);
    StateCountsReason(z, seqs, accs, results, Failed, ErrorReason);
    ReasonsPartition(results);
  }

  lemma HandlesAreOwned(z: Session, handles: seq<nat>)
    requires |handles| == |z.requests| && forall i :: 0 <= i < |handles| ==> handles[i] == z.base + i
    ensures Distinct(handles)
    ensures forall h :: h in handles <==> z.Owns(h)
  {
    forall h | z.Owns(h) ensures h in handles { assert handles[h - z.base] == h; }
  }

  /** Build the results in request order. */
  method Collect(requests: seq<Request>, handles: seq<nat>, backend: Backend, accs: map<string, seq<Token>>,
                 ghost z: Session, ghost steps: nat)
    returns (results: seq<Result>)
    requires z.requests == requests && |handles| == |requests|
    requires forall i :: 0 <= i < |handles| ==> handles[i] == z.base + i
    requires z.Tracks(backend.seqs, accs, steps)
    requires forall h :: z.Owns(h) ==> h in backend.seqs && backend.seqs[h].state.Terminal()
    ensures BuiltFrom(z, backend.seqs, accs, results)
  {
    results := [];
    for i := 0 to |requests|
      invariant |results| == i
      invariant forall h :: z.Owns(h) && h < z.base + i ==>
        results[h - z.base] == ResultOf(z.Of(h), accs[z.Of(h).id], backend.seqs[h].state)
    {
      assert z.Owns(handles[i]) && z.Of(handles[i]) == requests[i];
      results := results + [ResultOf(requests[i], accs[requests[i].id], backend.seqs[handles[i]].state)];
    }
  }

  /** Everything the report and the results promise together. */
  ghost predicate Reported(requests: seq<Request>, plans: Plans, results: seq<Result>, report: Report) {
    && |results| == |requests|
    && (forall i :: 0 <= i < |requests| ==> Delivers(requests[i], plans, results[i]))
    && report.requestCount == report.sequenceCount == report.cleanedUp == |requests|
    && report.finished == |WithReason(results, Stop)|
    && report.cancelled == |WithReason(results, CancelledReason)|
    && report.timedOut == |WithReason(results, TimeoutReason)|
    && report.failed == |WithReason(results, ErrorReason)|
    && report.finished + report.cancelled + report.timedOut + report.failed == |requests|
    && (forall i :: 0 <= i < |requests| ==> StepsForced(requests[i], plans) <= report.decodeSteps)
    && (exists i :: 0 <= i < |requests| && StepsForced(requests[i], plans) == report.decodeSteps)
    && report.sharedFailures == if SomeEndsShared(results, plans) then 1 else 0
  }

  /** A result's length is the step it ends at. */
  ghost predicate SomeEndsShared(results: seq<Result>, plans: Plans) {
    exists i :: 0 <= i < |results| && |results[i].content| in plans.shared
  }

  /** The shared-failure counter tells whether some request ended at a shared failure. */
  lemma SharedFailuresCounted(z: Session, results: seq<Result>, steps: nat, n: nat)
    requires |results| == |z.requests|
    requires forall i :: 0 <= i < |results| ==> Delivers(z.requests[i], z.plans, results[i])
    requires forall i :: 0 <= i < |results| ==> StepsForced(z.requests[i], z.plans) <= steps
    requires n == 0 || (n == 1 && z.StruckTogether())
    requires n == 0 ==> forall t :: 0 <= t < steps ==> t !in z.plans.shared
    ensures n == if SomeEndsShared(results, z.plans) then 1 else 0
  {
    forall i | 0 <= i < |results|
      ensures |results[i].content| == EndingFrom(z.requests[i], z.plans, 0).step
      ensures n == 0 ==> |results[i].content| !in z.plans.shared
    {
      var r, e := z.requests[i], EndingFrom(z.requests[i], z.plans, 0);
      EndingFromIsEnding(r, z.plans, 0);
      EndingUnique(r, z.plans, |results[i].content|, results[i].reason, e.step, e.reason);
      assert e.step in z.plans.shared ==> e.step < StepsForced(r, z.plans);
    }
    if n == 1 {
      var h :| z.Owns(h) && EndsShared(z.Of(h), z.plans);
      assert |results[h - z.base].content| in z.plans.shared;
    }
  }

  lemma ReportedFrom(z: Session, seqs: map<nat, Sequence>, accs: map<string, seq<Token>>, results: seq<Result>,
                     report: Report)
    requires z.requests != [] && BuiltFrom(z, seqs, accs, results)
    requires z.Tracks(seqs, accs, report.decodeSteps) && z.Needed(report.decodeSteps)
    requires z.Counted(seqs, report.cancelled, report.timedOut, report.failed)
    requires report.requestCount == report.sequenceCount == report.cleanedUp == |z.requests|
    requires report.finished == |z.requests| - report.cancelled - report.timedOut - report.failed
    requires report.sharedFailures == 0 || (report.sharedFailures == 1 && z.StruckTogether())
    requires report.sharedFailures == 0 ==> forall t :: 0 <= t < report.decodeSteps ==> t !in z.plans.shared
    ensures Reported(z.requests, z.plans, results, report)
  {
    ResultsDeliver(z, seqs, accs, report.decodeSteps, results);
    StepsAttained(z, report.decodeSteps);
    SharedFailuresCounted(z, results, report.decodeSteps, report.sharedFailures);
    CountersAreReasons(z, seqs, accs, results, report.cancelled, report.timedOut, report.failed);
  }

  method Execute(requests: seq<Request>, backend: Backend, plans: Plans, ghost z: Session)
    returns (results: seq<Result>, report: Report)
    requires backend.Valid() && z == Session(requests, plans, backend.nextId) && z.WellFormed() && requests != []
    modifies backend
    ensures Reported(requests, plans, results, report)
    ensures backend.nextId == z.base + |requests|
    ensures forall h :: h in backend.seqs <==> h in old(backend.seqs) || z.Owns(h)
    ensures forall h :: h in backend.seqs && !z.Owns(h) ==> backend.seqs[h] == old(backend.seqs)[h]
    ensures forall h :: z.Owns(h) ==> backend.seqs[h].state == CleanedUp
  {
    hide *;
    var handles := PrefillAll(requests, backend, z);
    var routes, owners, accs := BuildRoutes(requests, handles, z);
    FreshTracks(z, backend.seqs, owners, accs);
    HandlesAreOwned(z, handles);
    var steps, cancelled, timedOut, failed, sharedFailures;
    accs, steps, cancelled, timedOut, failed, sharedFailures :=
      RunLoop(backend, handles, routes, owners, accs, plans, z);
    results := Collect(requests, handles, backend, accs, z, steps);
    ghost var final := backend.seqs;
    var cleaned := ReleaseAll(backend, handles);
    report := Report(|requests|, |handles|, steps, |requests| - cancelled - timedOut - failed,
                     cancelled, timedOut, failed, cleaned, sharedFailures);
    ReportedFrom(z, final, accs, results, report);
  }

  /**
  The shared decode schedule.  It terminates on every input; each request gets exactly the result it would get
  alone; the counters are the numbers of results per finish reason; every sequence is released once; and the
  number of decode steps is the largest number any one request forces.
  */
  method RunSchedule(requests: seq<Request>, backend: Backend, plans: Plans) returns (outcome: Outcome)
    requires backend.Valid()
    requires forall i, j :: 0 <= i < j < |requests| ==> requests[i].id != requests[j].id
    modifies backend
    ensures backend.Valid()
    ensures outcome.NoRequests? <==> requests == []
    ensures outcome.NoRequests? ==> backend.seqs == old(backend.seqs) && backend.nextId == old(backend.nextId)
    ensures outcome.Done? ==> Reported(requests, plans, outcome.results, outcome.report)
    ensures forall h :: h in old(backend.seqs) ==> h in backend.seqs && backend.seqs[h] == old(backend.seqs)[h]
    ensures forall h :: h in backend.seqs && h !in old(backend.seqs) ==> backend.seqs[h].state == CleanedUp
  {
    if requests == [] {
      return NoRequests;
    }
    ghost var z := Session(requests, plans, backend.nextId);
    var results, report := Execute(requests, backend, plans, z);
    outcome := Done(results, report);
  }
}
