/** The contract validators, and what they find in a reachable state of the token-level scheduler. */
module ContinuousContract {
  import opened Core
  import opened Continuous

  datatype Violation = DuplicateSlotAssignment | TerminalStateReentered | OutputDemuxMismatch

  // ---------------------------------------------------------------------------
  // The validators
  // ---------------------------------------------------------------------------

  function Owners(slots: seq<Slot>): set<Id> {
    if slots == [] then {}
    else
      var o := slots[|slots|-1].owner;
      Owners(slots[..|slots|-1]) + if o.Some? then {o.value} else {}
  }

  function SlotViolationsAt(seen: set<Id>, slot: Slot): seq<Violation> {
    if slot.owner.None? then []
    else (if slot.state == Released then [DuplicateSlotAssignment] else [])
         + (if slot.owner.value in seen then [DuplicateSlotAssignment] else [])
  }

  function SlotViolations(slots: seq<Slot>): seq<Violation> {
    if slots == [] then []
    else SlotViolations(slots[..|slots|-1]) + SlotViolationsAt(Owners(slots[..|slots|-1]), slots[|slots|-1])
  }

  /** validate_slot_assignments */
  method ValidateSlots(slots: seq<Slot>) returns (v: seq<Violation>)
    ensures v == SlotViolations(slots)
  {
    v := [];
    var seen: set<Id> := {};
    for k := 0 to |slots|
      invariant v == SlotViolations(slots[..k]) && seen == Owners(slots[..k])
    {
      assert slots[..k+1][..k] == slots[..k];
      if slots[k].owner.Some? {
        if slots[k].state == Released {
          v := v + [DuplicateSlotAssignment];
        }
        if slots[k].owner.value in seen {
          v := v + [DuplicateSlotAssignment];
        }
        seen := seen + {slots[k].owner.value};
      }
    }
    assert slots[..|slots|] == slots;
  }

  function TerminalViolations(live: seq<Id>, ended: set<Id>): seq<Violation> {
    if live == [] then []
    else TerminalViolations(live[..|live|-1], ended) + if live[|live|-1] in ended then [TerminalStateReentered] else []
  }

  /** validate_terminal_state_not_reentered */
  method ValidateTerminal(live: seq<Id>, ended: set<Id>) returns (v: seq<Violation>)
    ensures v == TerminalViolations(live, ended)
  {
    v := [];
    for k := 0 to |live|
      invariant v == TerminalViolations(live[..k], ended)
    {
      assert live[..k+1][..k] == live[..k];
      if live[k] in ended {
        v := v + [TerminalStateReentered];
      }
    }
    assert live[..|live|] == live;
  }

  /** The last index seen for a request, or -1. */
  function LastIndex(chunks: seq<Chunk>, id: Id): int {
    if chunks == [] then -1
    else if chunks[|chunks|-1].id == id then chunks[|chunks|-1].index
    else LastIndex(chunks[..|chunks|-1], id)
  }

  function DemuxViolationsAt(before: seq<Chunk>, c: Chunk, ids: set<Id>, slots: set<Option<nat>>): seq<Violation> {
    (if c.id !in ids then [OutputDemuxMismatch] else [])
    + (if c.slot !in slots then [OutputDemuxMismatch] else [])
    + (if c.index <= LastIndex(before, c.id) then [OutputDemuxMismatch] else [])
  }

  function DemuxViolations(chunks: seq<Chunk>, ids: set<Id>, slots: set<Option<nat>>): seq<Violation> {
    if chunks == [] then []
    else
      var front := chunks[..|chunks|-1];
      DemuxViolations(front, ids, slots) + DemuxViolationsAt(front, chunks[|chunks|-1], ids, slots)
  }

  /** validate_output_demux */
  method ValidateDemux(chunks: seq<Chunk>, ids: set<Id>, slots: set<Option<nat>>) returns (v: seq<Violation>)
    ensures v == DemuxViolations(chunks, ids, slots)
  {
    v := [];
    var last: map<Id, int> := map[];
    for k := 0 to |chunks|
      invariant v == DemuxViolations(chunks[..k], ids, slots)
      invariant forall id :: LastIndex(chunks[..k], id) == if id in last then last[id] else -1
    {
      assert chunks[..k+1][..k] == chunks[..k];
      var c := chunks[k];
      if c.id !in ids {
        v := v + [OutputDemuxMismatch];
      }
      if c.slot !in slots {
        v := v + [OutputDemuxMismatch];
      }
      var prev := if c.id in last then last[c.id] else -1;
      if c.index <= prev {
        v := v + [OutputDemuxMismatch];
      }
      last := last[c.id := c.index];
    }
    assert chunks[..|chunks|] == chunks;
  }

  // ---------------------------------------------------------------------------
  // The scheduler's own validation
  // ---------------------------------------------------------------------------

  function LiveIds(reqs: seq<Req>): seq<Id> {
    if reqs == [] then []
    else LiveIds(reqs[..|reqs|-1]) + if reqs[|reqs|-1].phase.Terminal() then [] else [reqs[|reqs|-1].id]
  }

  function EndedIds(reqs: seq<Req>): set<Id> {
    set i | 0 <= i < |reqs| && reqs[i].phase.Terminal() :: reqs[i].id
  }

  function ActiveIds(reqs: seq<Req>): set<Id> {
    set i | 0 <= i < |reqs| && !reqs[i].phase.Terminal() :: reqs[i].id
  }

  function ActiveSlots(reqs: seq<Req>): set<Option<nat>> {
    set i | 0 <= i < |reqs| && !reqs[i].phase.Terminal() && reqs[i].slot.Some? :: reqs[i].slot
  }

  function AllChunks(reqs: seq<Req>): seq<Chunk> {
    if reqs == [] then [] else AllChunks(reqs[..|reqs|-1]) + reqs[|reqs|-1].chunks
  }

  /** validate */
  function Validate(s: Scheduler): seq<Violation> {
    SlotViolations(s.slots)
    + TerminalViolations(LiveIds(s.reqs), EndedIds(s.reqs))
    + DemuxViolations(AllChunks(s.reqs), ActiveIds(s.reqs), ActiveSlots(s.reqs))
  }

  /** Chunks still held by finished requests. */
  function StrayChunks(reqs: seq<Req>): nat {
    if reqs == [] then 0
    else StrayChunks(reqs[..|reqs|-1]) + if reqs[|reqs|-1].phase.Terminal() then |reqs[|reqs|-1].chunks| else 0
  }

  lemma {:induction false} OwnersAreHolders(slots: seq<Slot>, id: Id)
    ensures id in Owners(slots) <==> exists k :: 0 <= k < |slots| && slots[k].owner == Some(id)
  {
    if slots != [] {
      var n := |slots| - 1;
      OwnersAreHolders(slots[..n], id);
      if k :| 0 <= k < n && slots[k].owner == Some(id) {
        assert slots[..n][k].owner == Some(id);
      }
      if id in Owners(slots[..n]) {
        var k :| 0 <= k < n && slots[..n][k].owner == Some(id);
        assert slots[k].owner == Some(id);
      }
    }
  }

  /** No slot is owned twice, and none is owned after release. */
  lemma {:induction false} NoSlotViolations(s: Scheduler, n: nat)
    requires Inv(s) && n <= |s.slots|
    ensures SlotViolations(s.slots[..n]) == []
  {
    if n > 0 {
      NoSlotViolations(s, n - 1);
      var front, slot := s.slots[..n-1], s.slots[n-1];
      assert s.slots[..n][..n-1] == front;
      if slot.owner.Some? {
        assert SlotOk(s.reqs, s.slots, n - 1);
        OwnersAreHolders(front, slot.owner.value);
        if k :| 0 <= k < |front| && front[k].owner == slot.owner {
          TwoSlotsOneOwner(s, k, n - 1);
        }
      }
    }
  }

  lemma TwoSlotsOneOwner(s: Scheduler, j: nat, k: nat)
    requires Inv(s) && j < |s.slots| && k < |s.slots| && s.slots[j].owner.Some? && s.slots[j].owner == s.slots[k].owner
    ensures j == k
  {
    assert SlotOk(s.reqs, s.slots, j);
    var i :| 0 <= i < |s.reqs| && Holds(s.reqs[i], j) && s.reqs[i].id == s.slots[j].owner.value;
    OwnerIs(s, i, k);
  }

  lemma {:induction false} LiveIdsAre(reqs: seq<Req>, id: Id)
    requires id in LiveIds(reqs)
    ensures exists i :: 0 <= i < |reqs| && !reqs[i].phase.Terminal() && reqs[i].id == id
  {
    var n := |reqs| - 1;
    if id in LiveIds(reqs[..n]) {
      LiveIdsAre(reqs[..n], id);
      var i :| 0 <= i < n && !reqs[..n][i].phase.Terminal() && reqs[..n][i].id == id;
      assert reqs[i].id == id;
    } else {
      assert reqs[n].id == id;
    }
  }

  lemma {:induction false} NoTerminalViolations(live: seq<Id>, ended: set<Id>)
    requires forall k :: 0 <= k < |live| ==> live[k] !in ended
    ensures TerminalViolations(live, ended) == []
  {
    if live != [] {
      NoTerminalViolations(live[..|live|-1], ended);
    }
  }

  // ---------------------------------------------------------------------------
  // Chunks
  // ---------------------------------------------------------------------------

  /**
  A request's chunks, appended to chunks of other requests, cost two violations each if it is finished, else none.
  */
  lemma {:induction false} AppendChunks(before: seq<Chunk>, r: Req, n: nat, ids: set<Id>, slots: set<Option<nat>>,
                                        stray: bool)
    requires n <= |r.chunks| && ChunksInOrder(r)
    requires forall c :: c in before ==> c.id != r.id
    requires (r.id !in ids) == stray && (n > 0 ==> (r.slot !in slots) == stray)
    ensures |DemuxViolations(before + r.chunks[..n], ids, slots)| ==
      |DemuxViolations(before, ids, slots)| + if stray then 2 * n else 0
    ensures LastIndex(before + r.chunks[..n], r.id) == if n == 0 then -1 else r.chunks[n-1].index
  {
    if n == 0 {
      assert before + r.chunks[..0] == before;
      NeverSeen(before, r.id);
    } else {
      AppendChunks(before, r, n - 1, ids, slots, stray);
      var all := before + r.chunks[..n];
      assert all[..|all|-1] == before + r.chunks[..n-1];
      assert all[|all|-1] == r.chunks[n-1];
      assert n > 1 ==> r.chunks[n-2].index < r.chunks[n-1].index;
    }
  }

  lemma {:induction false} NeverSeen(chunks: seq<Chunk>, id: Id)
    requires forall c :: c in chunks ==> c.id != id
    ensures LastIndex(chunks, id) == -1
  {
    if chunks != [] {
      assert chunks[|chunks|-1] in chunks;
      NeverSeen(chunks[..|chunks|-1], id);
    }
  }

  lemma {:induction false} ChunksBelong(reqs: seq<Req>, c: Chunk)
    requires c in AllChunks(reqs) && forall i :: 0 <= i < |reqs| ==> ChunksInOrder(reqs[i])
    ensures exists i :: 0 <= i < |reqs| && reqs[i].id == c.id
  {
    var n := |reqs| - 1;
    if c in AllChunks(reqs[..n]) {
      ChunksBelong(reqs[..n], c);
      var i :| 0 <= i < n && reqs[..n][i].id == c.id;
      assert reqs[i].id == c.id;
    } else {
      assert c in reqs[n].chunks;
      assert reqs[n].id == c.id;
    }
  }

  /** Whether a request's chunks are strays is visible in the active sets. */
  lemma StrayIsVisible(s: Scheduler, i: nat)
    requires Inv(s) && i < |s.reqs|
    ensures (s.reqs[i].id !in ActiveIds(s.reqs)) == s.reqs[i].phase.Terminal()
    ensures s.reqs[i].chunks != [] ==> (s.reqs[i].slot !in ActiveSlots(s.reqs)) == s.reqs[i].phase.Terminal()
  {
    assert ReqOk(s.slots, s.reqs[i]);
  }

  lemma {:induction false} DemuxCounts(s: Scheduler, n: nat)
    requires Inv(s) && n <= |s.reqs|
    ensures |DemuxViolations(AllChunks(s.reqs[..n]), ActiveIds(s.reqs), ActiveSlots(s.reqs))| ==
      2 * StrayChunks(s.reqs[..n])
  {
    if n > 0 {
      DemuxCounts(s, n - 1);
      var front, r := s.reqs[..n-1], s.reqs[n-1];
      assert s.reqs[..n][..n-1] == front;
      assert ReqOk(s.slots, r);
      StrayIsVisible(s, n - 1);
      forall i | 0 <= i < |front| ensures ChunksInOrder(front[i]) && front[i].id != r.id {
        assert ReqOk(s.slots, s.reqs[i]);
      }
      forall c | c in AllChunks(front) ensures c.id != r.id {
        ChunksBelong(front, c);
      }
      hide ActiveIds, ActiveSlots;
      AppendChunks(AllChunks(front), r, |r.chunks|, ActiveIds(s.reqs), ActiveSlots(s.reqs), r.phase.Terminal());
      assert r.chunks[..|r.chunks|] == r.chunks;
    }
  }

  /**
  In every state the invariant allows, validation reports two violations for each chunk still held by a finished
  request and nothing else; so it reports none exactly when no finished request holds undrained chunks.
  */
  lemma ValidateExactly(s: Scheduler)
    requires Inv(s)
    ensures |Validate(s)| == 2 * StrayChunks(s.reqs)
    ensures Validate(s) == [] <==> forall i :: 0 <= i < |s.reqs| && s.reqs[i].phase.Terminal() ==>
      s.reqs[i].chunks == []
  {
    NoSlotViolations(s, |s.slots|);
    assert s.slots[..|s.slots|] == s.slots;
    forall k | 0 <= k < |LiveIds(s.reqs)| ensures LiveIds(s.reqs)[k] !in EndedIds(s.reqs) {
      LiveIdsAre(s.reqs, LiveIds(s.reqs)[k]);
    }
    NoTerminalViolations(LiveIds(s.reqs), EndedIds(s.reqs));
    DemuxCounts(s, |s.reqs|);
    assert s.reqs[..|s.reqs|] == s.reqs;
    NoStrays(s.reqs);
  }

  lemma {:induction false} NoStrays(reqs: seq<Req>)
    ensures StrayChunks(reqs) == 0 <==> forall i :: 0 <= i < |reqs| && reqs[i].phase.Terminal() ==> reqs[i].chunks == []
  {
    if reqs != [] {
      var n := |reqs| - 1;
      NoStrays(reqs[..n]);
      assert forall i :: 0 <= i < n ==> reqs[..n][i] == reqs[i];
      if StrayChunks(reqs) == 0 {
        forall i | 0 <= i < |reqs| && reqs[i].phase.Terminal() ensures reqs[i].chunks == [] {
          if i < n { assert reqs[..n][i] == reqs[i]; }
        }
      }
    }
  }
}
