/**
The streaming demultiplexer: chunks are routed to one stream per request, in sequence, until the stream ends.

A chunk with an unknown request or slot is reported, but it is still accepted when its stream is open and its index
is the next one.
*/
module Demux {
  import opened Core

  type Id = string

  datatype Kind = ChunkEvent | CompletedEvent | CancelledEvent | TimedOutEvent | FailedEvent

  datatype Finish = Stop | WasCancelled | WasTimedOut | WasError

  datatype StreamState = Open | Completed | Cancelled | TimedOut | Failed

  datatype Event = Event(id: Id, index: int, kind: Kind, text: Option<string>, finish: Option<Finish>)

  datatype Stream = Stream(state: StreamState, next: nat, events: seq<Event>, terminalEmitted: bool)

  datatype Output = Output(id: Id, slot: string, index: int, text: Option<string>)

  datatype Violation = DemuxMismatch | TerminalReentered

  type Streams = map<Id, Stream>

  function NewStream(): Stream { Stream(Open, 0, [], false) }

  function OpenStream(m: Streams, id: Id): Streams { if id in m then m else m[id := NewStream()] }

  function Mismatches(c: Output, ids: set<Id>, slots: set<string>): seq<Violation> {
    (if c.id !in ids then [DemuxMismatch] else []) + (if c.slot !in slots then [DemuxMismatch] else [])
  }

  predicate Accepts(m: Streams, c: Output) {
    c.id in m && m[c.id].state == Open && c.index == m[c.id].next
  }

  function ChunkOf(c: Output): Event { Event(c.id, c.index, ChunkEvent, c.text, None) }

  function Append(st: Stream, e: Event): Stream { st.(events := st.events + [e], next := st.next + 1) }

  /** route_chunk */
  function Route(m: Streams, c: Output, ids: set<Id>, slots: set<string>): (Streams, seq<Violation>) {
    var v := Mismatches(c, ids, slots);
    if c.id !in m then (m, v + [DemuxMismatch])
    else if m[c.id].state != Open then (m, v + [TerminalReentered])
    else if c.index != m[c.id].next then (m, v + [DemuxMismatch])
    else (m[c.id := Append(m[c.id], ChunkOf(c))], v)
  }

  function StateOf(k: Kind): StreamState {
    match k
    case CancelledEvent => Cancelled
    case TimedOutEvent => TimedOut
    case FailedEvent => Failed
    case _ => Completed
  }

  function FinishOf(k: Kind): Finish {
    match k
    case CancelledEvent => WasCancelled
    case TimedOutEvent => WasTimedOut
    case FailedEvent => WasError
    case _ => Stop
  }

  /** complete, cancel, timeout and fail: one terminal event, if the stream is open. */
  function EmitTerminal(m: Streams, id: Id, k: Kind): (Streams, seq<Violation>) {
    if id !in m then (m, [])
    else if m[id].state != Open then (m, [TerminalReentered])
    else
      var e := Event(id, m[id].next, k, None, Some(FinishOf(k)));
      (m[id := Append(m[id], e).(state := StateOf(k), terminalEmitted := true)], [])
  }

  function DrainEvents(m: Streams, id: Id): (Streams, seq<Event>) {
    if id !in m then (m, []) else (m[id := m[id].(events := [])], m[id].events)
  }

  /** One mismatch for an inactive request, one for an inactive slot, and one more for why a chunk was not accepted. */
  ghost predicate Reports(m: Streams, c: Output, ids: set<Id>, slots: set<string>, v: seq<Violation>) {
    var first := (if c.id in ids then 0 else 1) + (if c.slot in slots then 0 else 1);
    && first <= |v| && (forall i :: 0 <= i < first ==> v[i] == DemuxMismatch)
    && if c.id in m && m[c.id].state == Open && c.index == m[c.id].next then |v| == first
       else
         && |v| == first + 1
         && v[first] == if c.id in m && m[c.id].state != Open then TerminalReentered else DemuxMismatch
  }

  /** Each way to end a stream, with the state and the finish reason it leaves. */
  ghost predicate EndsAs(k: Kind, st: StreamState, f: Finish) {
    match k
    case CompletedEvent => st == Completed && f == Stop
    case CancelledEvent => st == Cancelled && f == WasCancelled
    case TimedOutEvent => st == TimedOut && f == WasTimedOut
    case FailedEvent => st == Failed && f == WasError
    case ChunkEvent => false
  }

  /** An open stream ends with one event in its next place; an ended one reports the attempt; others are untouched. */
  lemma TerminalExactly(m: Streams, id: Id, k: Kind)
    requires k != ChunkEvent
    ensures var (n, v) := EmitTerminal(m, id, k);
      && n.Keys == m.Keys && (forall x :: x in m && x != id ==> n[x] == m[x])
      && (id !in m ==> v == [])
      && (id in m && m[id].state != Open ==> n[id] == m[id] && v == [TerminalReentered])
      && (id in m && m[id].state == Open ==>
            && v == [] && n[id].next == m[id].next + 1 && n[id].terminalEmitted
            && |n[id].events| == |m[id].events| + 1 && n[id].events[..|m[id].events|] == m[id].events
            && var e := n[id].events[|m[id].events|];
            && e.id == id && e.index == m[id].next && e.kind == k && e.text == None
            && e.finish.Some? && EndsAs(k, n[id].state, e.finish.value))
  {}

  /** Draining hands out the pending events and leaves the rest of the stream. */
  lemma DrainExactly(m: Streams, id: Id)
    ensures var (n, es) := DrainEvents(m, id);
      && n.Keys == m.Keys && (forall x :: x in m && x != id ==> n[x] == m[x])
      && (id !in m ==> es == [])
      && (id in m ==> es == m[id].events && n[id] == Stream(m[id].state, m[id].next, [], m[id].terminalEmitted))
  {}

  /** A chunk is accepted exactly when its stream is open and expects its index, whatever the active sets say. */
  lemma RouteExactly(m: Streams, c: Output, ids: set<Id>, slots: set<string>)
    ensures Accepts(m, c) <==> Route(m, c, ids, slots).0 != m
    ensures Accepts(m, c) ==> Route(m, c, ids, slots).1 == Mismatches(c, ids, slots)
    ensures !Accepts(m, c) ==> |Route(m, c, ids, slots).1| == |Mismatches(c, ids, slots)| + 1
    ensures Accepts(m, c) ==>
      var st, n := m[c.id], Route(m, c, ids, slots).0;
      && n.Keys == m.Keys && (forall x :: x in m && x != c.id ==> n[x] == m[x])
      && n[c.id] == Stream(Open, st.next + 1, st.events + [Event(c.id, st.next, ChunkEvent, c.text, None)],
          st.terminalEmitted)
    ensures Reports(m, c, ids, slots, Route(m, c, ids, slots).1)
  {
    if Accepts(m, c) {
      assert Route(m, c, ids, slots).0[c.id].next == m[c.id].next + 1;
    }
  }

  // ---------------------------------------------------------------------------
  // Histories
  // ---------------------------------------------------------------------------

  datatype Op = OpenOp(id: Id) | RouteOp(chunk: Output, ids: set<Id>, slots: set<string>) | EndOp(id: Id, kind: Kind)
    | DrainOp(id: Id)

  /** The demultiplexer with everything drained from it so far. */
  datatype Run = Run(streams: Streams, drained: map<Id, seq<Event>>)

  function Target(op: Op): Id { if op.RouteOp? then op.chunk.id else op.id }

  function DrainedOf(r: Run, id: Id): seq<Event> { if id in r.drained then r.drained[id] else [] }

  function Step(r: Run, op: Op): Run {
    match op
    case OpenOp(id) => r.(streams := OpenStream(r.streams, id))
    case RouteOp(c, ids, slots) => r.(streams := Route(r.streams, c, ids, slots).0)
    case EndOp(id, k) => if k.ChunkEvent? then r else r.(streams := EmitTerminal(r.streams, id, k).0)
    case DrainOp(id) =>
      var (m, es) := DrainEvents(r.streams, id);
      Run(m, r.drained[id := DrainedOf(r, id) + es])
  }

  function Exec(ops: seq<Op>): Run {
    if ops == [] then Run(map[], map[]) else Step(Exec(ops[..|ops|-1]), ops[|ops|-1])
  }

  /** Everything a stream ever delivered: what was drained, then what is pending. */
  function History(r: Run, id: Id): seq<Event>
    requires id in r.streams
  {
    DrainedOf(r, id) + r.streams[id].events
  }

  ghost predicate ChunksUpTo(id: Id, h: seq<Event>, n: nat) {
    n <= |h| && forall j :: 0 <= j < n ==>
      h[j].id == id && h[j].index == j && h[j].kind == ChunkEvent && h[j].finish == None
  }

  /** Chunks 0 to n-1, and for a finished stream one terminal event with index n, and nothing after it. */
  ghost predicate WellFormed(id: Id, st: Stream, h: seq<Event>) {
    && |h| == st.next
    && (st.terminalEmitted <==> st.state != Open)
    && if st.state == Open then ChunksUpTo(id, h, |h|)
       else
         && |h| >= 1 && ChunksUpTo(id, h, |h| - 1)
         && var last := h[|h|-1];
         && last.id == id && last.index == |h| - 1 && last.text == None
         && last.finish.Some? && EndsAs(last.kind, st.state, last.finish.value)
  }

  /** An operation on one stream leaves every other stream, and what was drained from it, alone. */
  lemma PeersUntouched(r: Run, op: Op, id: Id)
    requires id != Target(op)
    ensures id in Step(r, op).streams <==> id in r.streams
    ensures id in r.streams ==> Step(r, op).streams[id] == r.streams[id]
    ensures DrainedOf(Step(r, op), id) == DrainedOf(r, id)
  {}

  ghost predicate Sound(r: Run) {
    && (forall id :: id in r.streams ==> WellFormed(id, r.streams[id], History(r, id)))
    && (forall id :: id in r.drained && id !in r.streams ==> r.drained[id] == [])
  }

  lemma AppendHistory(drained: seq<Event>, events: seq<Event>, e: Event)
    ensures drained + (events + [e]) == (drained + events) + [e]
  {}

  lemma StepSound(r: Run, op: Op)
    requires Sound(r)
    ensures Sound(Step(r, op))
  {
    var n, t := Step(r, op), Target(op);
    forall id | id in n.streams ensures WellFormed(id, n.streams[id], History(n, id)) {
      if id != t {
        PeersUntouched(r, op, id);
      } else if id in r.streams {
        AppendedSound(r, op);
      } else {
        assert DrainedOf(r, id) == [];
      }
    }
  }

  /** One more event in an open stream. */
  lemma AppendSound(id: Id, st: Stream, drained: seq<Event>, e: Event, n: Stream)
    requires WellFormed(id, st, drained + st.events) && st.state == Open && e.id == id && e.index == st.next
    requires n.events == st.events + [e] && n.next == st.next + 1
    requires if n.state == Open then e.kind == ChunkEvent && e.finish == None && n.terminalEmitted == st.terminalEmitted
      else
        && e.kind != ChunkEvent && n.state == StateOf(e.kind) && e.finish == Some(FinishOf(e.kind)) && n.terminalEmitted
        && e.text == None
    ensures WellFormed(id, n, drained + n.events)
  {
    AppendHistory(drained, st.events, e);
  }

  lemma AppendedSound(r: Run, op: Op)
    requires Sound(r) && Target(op) in r.streams
    ensures var t := Target(op);
      t in Step(r, op).streams && WellFormed(t, Step(r, op).streams[t], History(Step(r, op), t))
  {
    var n, t := Step(r, op), Target(op);
    var st, h := r.streams[t], History(r, t);
    assert WellFormed(t, st, h);
    hide WellFormed;
    match op {
      case OpenOp(_) =>
      case RouteOp(c, ids, slots) =>
        if Accepts(r.streams, c) { AppendSound(t, st, DrainedOf(r, t), ChunkOf(c), n.streams[t]); }
      case EndOp(id, k) =>
        if !k.ChunkEvent? && st.state == Open {
          AppendSound(t, st, DrainedOf(r, t), Event(id, st.next, k, None, Some(FinishOf(k))), n.streams[t]);
        }
      case DrainOp(_) =>
        assert History(n, t) == h + [] == h;
        SameButDrained(t, st, n.streams[t], h);
    }
  }

  lemma SameButDrained(id: Id, st: Stream, n: Stream, h: seq<Event>)
    requires WellFormed(id, st, h) && n == st.(events := n.events)
    ensures WellFormed(id, n, h)
  {}

  /** Over every sequence of operations the history of every stream is well formed. */
  lemma {:induction false} StreamHistory(ops: seq<Op>)
    ensures Sound(Exec(ops))
  {
    if ops != [] {
      StreamHistory(ops[..|ops|-1]);
      StepSound(Exec(ops[..|ops|-1]), ops[|ops|-1]);
    }
  }

  // ---------------------------------------------------------------------------
  // Feeding a whole output sequence
  // ---------------------------------------------------------------------------

  /** Route chunks one after the other; the violations are those of each chunk, in order. */
  function Feed(m: Streams, cs: seq<Output>, ids: set<Id>, slots: set<string>): (Streams, seq<Violation>) {
    if cs == [] then (m, [])
    else
      var (m1, v1) := Feed(m, cs[..|cs|-1], ids, slots);
      var (m2, v2) := Route(m1, cs[|cs|-1], ids, slots);
      (m2, v1 + v2)
  }

  function ChunksOf(cs: seq<Output>): seq<Event> {
    seq(|cs|, j requires 0 <= j < |cs| => ChunkOf(cs[j]))
  }

  function AllMismatches(cs: seq<Output>, ids: set<Id>, slots: set<string>): seq<Violation> {
    if cs == [] then [] else AllMismatches(cs[..|cs|-1], ids, slots) + Mismatches(cs[|cs|-1], ids, slots)
  }

  /** A request's chunks 0, 1, 2, ... fed in order to its new stream are all accepted and reproduced as they are. */
  lemma {:induction false} FeedReproduces(m: Streams, id: Id, cs: seq<Output>, ids: set<Id>, slots: set<string>)
    requires id !in m && forall j :: 0 <= j < |cs| ==> cs[j].id == id && cs[j].index == j
    ensures var (n, v) := Feed(OpenStream(m, id), cs, ids, slots);
      && id in n && n[id] == Stream(Open, |cs|, ChunksOf(cs), false)
      && (forall j :: 0 <= j < |cs| ==> n[id].events[j] == Event(id, j, ChunkEvent, cs[j].text, None))
      && v == AllMismatches(cs, ids, slots)
      && (id in ids && (forall j :: 0 <= j < |cs| ==> cs[j].slot in slots) ==> v == [])
      && (forall x :: x != id ==> (x in n <==> x in m) && (x in m ==> n[x] == m[x]))
  {
    if cs == [] {
      assert ChunksOf(cs) == [];
    } else {
      var front := cs[..|cs|-1];
      FeedReproduces(m, id, front, ids, slots);
      assert ChunksOf(cs) == ChunksOf(front) + [ChunkOf(cs[|cs|-1])];
    }
  }

  class StreamingDemux {
    var streams: Streams

    constructor ()
      ensures streams == map[]
    {
      streams := map[];
    }

    method Open(id: Id)
      modifies this
      ensures streams == OpenStream(old(streams), id)
    {
      if id in streams {
        return;
      }
      streams := streams[id := NewStream()];
    }

    method RouteChunk(c: Output, ids: set<Id>, slots: set<string>) returns (v: seq<Violation>)
      modifies this
      ensures (streams, v) == Route(old(streams), c, ids, slots)
    {
      v := [];
      if c.id !in ids {
        v := v + [DemuxMismatch];
      }
      if c.slot !in slots {
        v := v + [DemuxMismatch];
      }
      assert v == Mismatches(c, ids, slots);
      if c.id !in streams {
        return v + [DemuxMismatch];
      }
      var st := streams[c.id];
      if st.state != StreamState.Open {
        return v + [TerminalReentered];
      }
      if c.index != st.next {
        return v + [DemuxMismatch];
      }
      streams := streams[c.id := st.(events := st.events + [ChunkOf(c)], next := st.next + 1)];
    }

    method End(id: Id, k: Kind) returns (v: seq<Violation>)
      requires !k.ChunkEvent?
      modifies this
      ensures (streams, v) == EmitTerminal(old(streams), id, k)
    {
      if id !in streams {
        return [];
      }
      var st := streams[id];
      if st.state != StreamState.Open {
        return [TerminalReentered];
      }
      var e := Event(id, st.next, k, None, Some(FinishOf(k)));
      streams := streams[id := Stream(StateOf(k), st.next + 1, st.events + [e], true)];
      return [];
    }

    method Take(id: Id) returns (es: seq<Event>)
      modifies this
      ensures (streams, es) == DrainEvents(old(streams), id)
    {
      if id !in streams {
        return [];
      }
      es := streams[id].events;
      streams := streams[id := streams[id].(events := [])];
    }
  }
}
