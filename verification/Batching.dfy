/**
The batch analyzer: a greedy loop that takes the oldest remaining candidate as an anchor and gathers, in
queue order, the candidates compatible with that anchor.

`Analyze` is the loop.  Its contract states that the groups partition the queue positions, that each group
is pairwise compatible although members are compared with the anchor only, and that no partition of the
queue into compatible groups within the size limit has fewer groups.
*/
module Batching {

  import opened Core

  datatype Candidate = Candidate(
    id: string, model: string, backend: Option<string>, stream: bool,
    promptTokens: Option<int>, maxTokens: Option<int>, samplingClass: Option<string>, hasImage: bool)

  datatype Incompatibility =
    | DifferentModel | DifferentBackend | StreamingUnsupported | VisionUnsupported | SamplingMismatch
    | TokenBudgetExceeded

  datatype Group = Group(
    positions: seq<nat>, ids: seq<string>, model: string, backend: Option<string>,
    eligible: bool, reasons: seq<Incompatibility>, totalTokens: Option<int>)

  datatype Analysis = Analysis(enabled: bool, candidateCount: nat, groups: seq<Group>, eligibleCount: nat)

  /** _check_compatibility */
  function Reasons(a: Candidate, b: Candidate): seq<Incompatibility> {
    if a.model != b.model then [DifferentModel]
    else if a.backend != b.backend then [DifferentBackend]
    else
      (if a.stream || b.stream then [StreamingUnsupported] else [])
      + (if a.hasImage || b.hasImage then [VisionUnsupported] else [])
      + (if a.samplingClass != b.samplingClass then [SamplingMismatch] else [])
  }

  predicate Compatible(a: Candidate, b: Candidate) { Reasons(a, b) == [] }

  /** Each reason, with the difference it reports; a different model or backend hides the others. */
  lemma ReasonsExactly(a: Candidate, b: Candidate)
    ensures var same := a.model == b.model && a.backend == b.backend;
      && (DifferentModel in Reasons(a, b) <==> a.model != b.model)
      && (DifferentBackend in Reasons(a, b) <==> a.model == b.model && a.backend != b.backend)
      && (StreamingUnsupported in Reasons(a, b) <==> same && (a.stream || b.stream))
      && (VisionUnsupported in Reasons(a, b) <==> same && (a.hasImage || b.hasImage))
      && (SamplingMismatch in Reasons(a, b) <==> same && a.samplingClass != b.samplingClass)
      && TokenBudgetExceeded !in Reasons(a, b)
  {}

  // ---------------------------------------------------------------------------
  // Compatibility as equality of keys
  // ---------------------------------------------------------------------------

  /** Streaming and image requests batch with nothing, so each is a class of its own. */
  datatype Key = Solo(position: nat) | Shared(model: string, backend: Option<string>, samplingClass: Option<string>)

  function KeyOf(cs: seq<Candidate>, i: nat): Key
    requires i < |cs|
  {
    if cs[i].stream || cs[i].hasImage then Solo(i) else Shared(cs[i].model, cs[i].backend, cs[i].samplingClass)
  }

  /** Two different positions are compatible exactly when they have the same key. */
  lemma CompatibleIsSameKey(cs: seq<Candidate>, i: nat, j: nat)
    requires i < |cs| && j < |cs| && i != j
    ensures Compatible(cs[i], cs[j]) <==> KeyOf(cs, i) == KeyOf(cs, j)
  {
    var a, b := cs[i], cs[j];
    if a.model == b.model && a.backend == b.backend {
      assert a.stream || b.stream ==> Reasons(a, b)[0] == StreamingUnsupported;
      assert a.hasImage || b.hasImage ==> VisionUnsupported in Reasons(a, b);
      assert a.samplingClass != b.samplingClass ==> SamplingMismatch in Reasons(a, b);
    }
  }

  // ---------------------------------------------------------------------------
  // The number of groups a multiset of keys needs
  // ---------------------------------------------------------------------------

  function Count(ks: seq<Key>, c: Key): nat {
    if ks == [] then 0 else Count(ks[..|ks|-1], c) + if ks[|ks|-1] == c then 1 else 0
  }

  function Others(ks: seq<Key>, c: Key): seq<Key> {
    if ks == [] then []
    else
      var rest := Others(ks[..|ks|-1], c);
      if ks[|ks|-1] == c then rest else rest + [ks[|ks|-1]]
  }

  /** Groups of at most `k` that `n` occurrences of one key fill. */
  function Batches(n: nat, k: nat): nat
    requires k >= 1
  {
    if n == 0 then 0 else if n <= k then 1 else 1 + Batches(n - k, k)
  }

  lemma BatchesOfNone(k: nat)
    requires k >= 1
    ensures Batches(0, k) == 0
  {}

  lemma {:induction false} BatchesMonotone(m: nat, n: nat, k: nat)
    requires k >= 1 && m <= n
    ensures Batches(m, k) <= Batches(n, k)
  {
    if m > k {
      BatchesMonotone(m - k, n - k, k);
    }
  }

  /** Taking `s` occurrences away saves one group when they fill or empty one, and never more. */
  lemma BatchesMinus(n: nat, k: nat, s: nat)
    requires k >= 1 && 1 <= s <= k && s <= n
    ensures Batches(n, k) <= Batches(n - s, k) + 1
    ensures s == k || s == n ==> Batches(n, k) == Batches(n - s, k) + 1
  {
    if n > k {
      BatchesMonotone(n - k, n - s, k);
    }
  }

  /** Each key adds the groups its next occurrence opens. */
  function GroupsNeeded(ks: seq<Key>, k: nat): int
    requires k >= 1
  {
    if ks == [] then 0
    else
      var front, n := ks[..|ks|-1], Count(ks[..|ks|-1], ks[|ks|-1]);
      GroupsNeeded(front, k) + Batches(n + 1, k) - Batches(n, k)
  }

  lemma {:induction false} CountOthers(ks: seq<Key>, c: Key, x: Key)
    requires x != c
    ensures Count(Others(ks, c), x) == Count(ks, x)
  {
    if ks != [] {
      var front := ks[..|ks|-1];
      CountOthers(front, c, x);
      assert (Others(front, c) + [ks[|ks|-1]])[..|Others(front, c)|] == Others(front, c);
    }
  }

  /** The need splits into the groups of one key and the need of all others. */
  lemma {:induction false} NeedSplits(ks: seq<Key>, c: Key, k: nat)
    requires k >= 1
    ensures GroupsNeeded(ks, k) == GroupsNeeded(Others(ks, c), k) + Batches(Count(ks, c), k)
  {
    hide Batches;
    if ks == [] {
      BatchesOfNone(k);
    } else {
      var front, last := ks[..|ks|-1], ks[|ks|-1];
      NeedSplits(front, c, k);
      if last != c {
        CountOthers(front, c, last);
        assert (Others(front, c) + [last])[..|Others(front, c)|] == Others(front, c);
      }
    }
  }

  /** Removing some occurrences of one key: at most one group is saved, and exactly one when they fill or empty it. */
  lemma NeedAfterRemoval(ks: seq<Key>, less: seq<Key>, c: Key, s: nat, k: nat)
    requires k >= 1 && 1 <= s <= k
    requires Others(less, c) == Others(ks, c) && Count(ks, c) == Count(less, c) + s
    ensures GroupsNeeded(ks, k) <= GroupsNeeded(less, k) + 1
    ensures s == k || Count(less, c) == 0 ==> GroupsNeeded(ks, k) == GroupsNeeded(less, k) + 1
  {
    hide *;
    NeedSplits(ks, c, k);
    NeedSplits(less, c, k);
    BatchesMinus(Count(ks, c), k, s);
  }

  // ---------------------------------------------------------------------------
  // Positions, keys and partitions
  // ---------------------------------------------------------------------------

  ghost predicate InRange(cs: seq<Candidate>, ps: seq<nat>) {
    forall i :: 0 <= i < |ps| ==> ps[i] < |cs|
  }

  ghost function Keys(cs: seq<Candidate>, ps: seq<nat>): seq<Key>
    requires InRange(cs, ps)
  {
    seq(|ps|, i requires 0 <= i < |ps| => KeyOf(cs, ps[i]))
  }

  ghost function Range(n: nat): seq<nat> {
    seq(n, i requires 0 <= i < n => i)
  }

  ghost predicate Increasing(ps: seq<nat>) {
    forall i, j :: 0 <= i < j < |ps| ==> ps[i] < ps[j]
  }

  ghost function Flatten(groups: seq<seq<nat>>): seq<nat> {
    if groups == [] then [] else Flatten(groups[..|groups|-1]) + groups[|groups|-1]
  }

  /** Positions that may share a batch: pairwise compatible and at most `k` of them. */
  ghost predicate ValidGroup(cs: seq<Candidate>, g: seq<nat>, k: nat) {
    && InRange(cs, g) && |g| <= k
    && forall i, j :: 0 <= i < |g| && 0 <= j < |g| && g[i] != g[j] ==> Compatible(cs[g[i]], cs[g[j]])
  }

  /** Every queue position lies in exactly one group, once. */
  ghost predicate ValidPartition(cs: seq<Candidate>, groups: seq<seq<nat>>, k: nat) {
    && (forall j :: 0 <= j < |groups| ==> ValidGroup(cs, groups[j], k))
    && multiset(Flatten(groups)) == multiset(Range(|cs|))
  }

  lemma {:induction false} CountConcat(a: seq<Key>, b: seq<Key>, c: Key)
    ensures Count(a + b, c) == Count(a, c) + Count(b, c)
  {
    if b == [] {
      assert a + b == a;
    } else {
      CountConcat(a, b[..|b|-1], c);
      assert (a + b)[..|a + b|-1] == a + b[..|b|-1];
    }
  }

  lemma {:induction false} OthersConcat(a: seq<Key>, b: seq<Key>, c: Key)
    ensures Others(a + b, c) == Others(a, c) + Others(b, c)
  {
    if b == [] {
      assert a + b == a;
    } else {
      OthersConcat(a, b[..|b|-1], c);
      assert (a + b)[..|a + b|-1] == a + b[..|b|-1];
    }
  }

  lemma KeysSnoc(cs: seq<Candidate>, ps: seq<nat>, p: nat, c: Key)
    requires InRange(cs, ps) && p < |cs|
    ensures InRange(cs, ps + [p])
    ensures Count(Keys(cs, ps + [p]), c) == Count(Keys(cs, ps), c) + if KeyOf(cs, p) == c then 1 else 0
    ensures Others(Keys(cs, ps + [p]), c) ==
      if KeyOf(cs, p) == c then Others(Keys(cs, ps), c) else Others(Keys(cs, ps), c) + [KeyOf(cs, p)]
  {
    var ks := Keys(cs, ps + [p]);
    assert ks[..|ks|-1] == Keys(cs, ps);
  }

  lemma NoKeys(cs: seq<Candidate>, c: Key)
    ensures Count(Keys(cs, []), c) == 0 && Others(Keys(cs, []), c) == []
  {}

  lemma KeysConcat(cs: seq<Candidate>, a: seq<nat>, b: seq<nat>, c: Key)
    requires InRange(cs, a) && InRange(cs, b)
    ensures InRange(cs, a + b)
    ensures Count(Keys(cs, a + b), c) == Count(Keys(cs, a), c) + Count(Keys(cs, b), c)
    ensures Others(Keys(cs, a + b), c) == Others(Keys(cs, a), c) + Others(Keys(cs, b), c)
  {
    assert Keys(cs, a + b) == Keys(cs, a) + Keys(cs, b);
    CountConcat(Keys(cs, a), Keys(cs, b), c);
    OthersConcat(Keys(cs, a), Keys(cs, b), c);
  }

  // ---------------------------------------------------------------------------
  // No partition does better
  // ---------------------------------------------------------------------------

  /** Take one occurrence of a position out of a list. */
  lemma {:induction false} RemoveOne(cs: seq<Candidate>, ps: seq<nat>, x: nat) returns (less: seq<nat>)
    requires InRange(cs, ps) && x in ps
    ensures InRange(cs, less) && x < |cs| && multiset(less) == multiset(ps) - multiset{x}
    ensures var c := KeyOf(cs, x);
      && Others(Keys(cs, less), c) == Others(Keys(cs, ps), c)
      && Count(Keys(cs, ps), c) == Count(Keys(cs, less), c) + 1
    decreases |ps|
  {
    hide Count, Others, Keys, KeyOf;
    var front, last := ps[..|ps|-1], ps[|ps|-1];
    assert ps == front + [last];
    KeysSnoc(cs, front, last, KeyOf(cs, if last == x then last else x));
    if last == x {
      less := front;
    } else {
      less := RemoveOne(cs, front, x);
      KeysSnoc(cs, less, last, KeyOf(cs, x));
      less := less + [last];
    }
  }

  /** Take a whole group of one key out of a list. */
  lemma {:induction false} RemoveGroup(cs: seq<Candidate>, ps: seq<nat>, g: seq<nat>, c: Key) returns (less: seq<nat>)
    requires InRange(cs, ps) && multiset(g) <= multiset(ps)
    requires InRange(cs, g) && forall i :: 0 <= i < |g| ==> KeyOf(cs, g[i]) == c
    ensures InRange(cs, less) && multiset(less) == multiset(ps) - multiset(g)
    ensures Others(Keys(cs, less), c) == Others(Keys(cs, ps), c)
    ensures Count(Keys(cs, ps), c) == Count(Keys(cs, less), c) + |g|
    decreases |g|
  {
    hide Count, Others, Keys, KeyOf;
    if g == [] {
      less := ps;
    } else {
      var front, last := g[..|g|-1], g[|g|-1];
      assert g == front + [last];
      assert multiset(g) == multiset(front) + multiset{last};
      var mid := RemoveGroup(cs, ps, front, c);
      assert multiset(mid)[last] >= 1;
      less := RemoveOne(cs, mid, last);
    }
  }

  /** Compatible groups within the limit that cover a list are at least as many as it needs. */
  lemma {:induction false} LowerBound(cs: seq<Candidate>, groups: seq<seq<nat>>, ps: seq<nat>, k: nat)
    requires k >= 1 && InRange(cs, ps)
    requires forall j :: 0 <= j < |groups| ==> ValidGroup(cs, groups[j], k)
    requires multiset(Flatten(groups)) == multiset(ps)
    ensures GroupsNeeded(Keys(cs, ps), k) <= |groups|
    decreases |groups|
  {
    if groups == [] {
      assert |multiset(ps)| == 0;
      assert ps == [];
    } else {
      var front, g := groups[..|groups|-1], groups[|groups|-1];
      assert multiset(Flatten(groups)) == multiset(Flatten(front)) + multiset(g);
      if g == [] {
        LowerBound(cs, front, ps, k);
      } else {
        var c := KeyOf(cs, g[0]);
        forall i | 0 <= i < |g| ensures KeyOf(cs, g[i]) == c {
          if g[i] != g[0] {
            CompatibleIsSameKey(cs, g[i], g[0]);
          }
        }
        var less := RemoveGroup(cs, ps, g, c);
        LowerBound(cs, front, less, k);
        NeedAfterRemoval(Keys(cs, ps), Keys(cs, less), c, |g|, k);
      }
    }
  }

  /** The minimum over all valid partitions is at least the need of the whole queue. */
  lemma PartitionsNeedAtLeast(cs: seq<Candidate>, groups: seq<seq<nat>>, k: nat)
    requires k >= 1 && ValidPartition(cs, groups, k)
    ensures InRange(cs, Range(|cs|)) && GroupsNeeded(Keys(cs, Range(|cs|)), k) <= |groups|
  {
    LowerBound(cs, groups, Range(|cs|), k);
  }

  // ---------------------------------------------------------------------------
  // The greedy loop
  // ---------------------------------------------------------------------------

  function SizeLimit(maxGroupSize: int): nat { if maxGroupSize < 1 then 1 else maxGroupSize }

  /** One anchor and the compatible candidates behind it, as long as the group has room. */
  method Gather(cs: seq<Candidate>, remaining: seq<nat>, maxGroupSize: int) returns (group: seq<nat>, rest: seq<nat>)
    requires remaining != [] && InRange(cs, remaining) && Increasing(remaining)
    ensures InRange(cs, rest) && Increasing(rest) && Increasing(group)
    ensures multiset(group) + multiset(rest) == multiset(remaining)
    ensures group != [] && group[0] == remaining[0]
    ensures InRange(cs, group) && ValidGroup(cs, group, SizeLimit(maxGroupSize))
    ensures GroupsNeeded(Keys(cs, remaining), SizeLimit(maxGroupSize)) ==
      GroupsNeeded(Keys(cs, rest), SizeLimit(maxGroupSize)) + 1
    ensures forall p :: p in rest ==> p > group[0]
  {
    hide Keys, Count, Others, GroupsNeeded, ValidGroup;
    var anchor, pool := remaining[0], remaining[1..];
    GatherStart(cs, anchor);
    group, rest := [anchor], [];
    var i := 0;
    while i < |pool| && |group| < maxGroupSize
      invariant 0 <= i <= |pool|
      invariant 1 <= |group| <= SizeLimit(maxGroupSize) && group[0] == anchor
      invariant Gathered(cs, anchor, pool[..i], group, rest)
      decreases |pool| - i
    {
      hide Gathered;
      assert pool[i] == remaining[i+1];
      assert forall j :: 0 <= j < i ==> pool[j] == remaining[j+1];
      GatherNext(cs, anchor, pool[..i], group, rest, pool[i]);
      assert pool[..i+1] == pool[..i] + [pool[i]];
      CompatibleIsSameKey(cs, anchor, pool[i]);
      if Compatible(cs[anchor], cs[pool[i]]) {
        group := group + [pool[i]];
      } else {
        rest := rest + [pool[i]];
      }
      i := i + 1;
    }
    assert remaining == [anchor] + pool[..i] + pool[i..];
    GatherDone(cs, anchor, remaining, pool[..i], pool[i..], group, rest, SizeLimit(maxGroupSize));
    rest := rest + pool[i..];
  }

  lemma GatherStart(cs: seq<Candidate>, anchor: nat)
    requires anchor < |cs|
    ensures Gathered(cs, anchor, [], [anchor], [])
  {}

  /** What the scan knows after the part `seen` of the pool. */
  ghost predicate Gathered(cs: seq<Candidate>, anchor: nat, seen: seq<nat>, group: seq<nat>, rest: seq<nat>) {
    && anchor < |cs| && InRange(cs, seen) && InRange(cs, group) && InRange(cs, rest)
    && multiset(group) + multiset(rest) == multiset([anchor] + seen)
    && Increasing(group) && Increasing(rest)
    && (forall j :: 0 <= j < |group| ==> group[j] == anchor || group[j] in seen)
    && (forall j :: 0 <= j < |rest| ==> rest[j] in seen)
    && var c := KeyOf(cs, anchor);
    && (forall j :: 0 <= j < |group| ==> KeyOf(cs, group[j]) == c)
    && Count(Keys(cs, rest), c) == 0
    && Others(Keys(cs, rest), c) == Others(Keys(cs, seen), c)
    && Count(Keys(cs, seen), c) + 1 == |group|
  }

  lemma GatherNext(cs: seq<Candidate>, anchor: nat, seen: seq<nat>, group: seq<nat>, rest: seq<nat>, p: nat)
    requires Gathered(cs, anchor, seen, group, rest) && p < |cs|
    requires anchor < p && forall q :: q in seen ==> q < p
    ensures KeyOf(cs, p) == KeyOf(cs, anchor) ==> Gathered(cs, anchor, seen + [p], group + [p], rest)
    ensures KeyOf(cs, p) != KeyOf(cs, anchor) ==> Gathered(cs, anchor, seen + [p], group, rest + [p])
  {
    hide Count, Others, Keys;
    var c := KeyOf(cs, anchor);
    KeysSnoc(cs, seen, p, c);
    KeysSnoc(cs, rest, p, c);
    assert multiset(group + [p]) == multiset(group) + multiset{p};
    assert multiset(rest + [p]) == multiset(rest) + multiset{p};
    assert [anchor] + (seen + [p]) == ([anchor] + seen) + [p];
  }

  lemma GatherDone(cs: seq<Candidate>, anchor: nat, remaining: seq<nat>, seen: seq<nat>, tail: seq<nat>,
                   group: seq<nat>, rest: seq<nat>, k: nat)
    requires Gathered(cs, anchor, seen, group, rest) && 1 <= |group| <= k && group[0] == anchor
    requires remaining == [anchor] + seen + tail && InRange(cs, remaining) && Increasing(remaining)
    requires |group| == k || tail == []
    ensures InRange(cs, rest + tail) && Increasing(rest + tail)
    ensures multiset(group) + multiset(rest + tail) == multiset(remaining)
    ensures InRange(cs, group) && ValidGroup(cs, group, k)
    ensures GroupsNeeded(Keys(cs, remaining), k) == GroupsNeeded(Keys(cs, rest + tail), k) + 1
    ensures forall p :: p in rest + tail ==> p > anchor
  {
    assert forall j :: 0 <= j < |rest| ==> rest[j] in seen;
    GroupValid(cs, anchor, seen, group, rest, k);
    RestInOrder(cs, anchor, seen, tail, rest);
    GatherNeeds(cs, anchor, seen, tail, group, rest, k);
  }

  lemma RestInOrder(cs: seq<Candidate>, anchor: nat, seen: seq<nat>, tail: seq<nat>, rest: seq<nat>)
    requires InRange(cs, [anchor] + seen + tail) && Increasing([anchor] + seen + tail) && Increasing(rest)
    requires forall i :: 0 <= i < |rest| ==> rest[i] in seen
    ensures InRange(cs, tail) && InRange(cs, rest + tail) && Increasing(rest + tail)
    ensures forall p :: p in rest + tail ==> p > anchor
  {
    var whole := [anchor] + seen + tail;
    assert whole[0] == anchor;
    forall i | 0 <= i < |rest|
      ensures rest[i] > anchor && rest[i] < |cs| && forall j :: 0 <= j < |tail| ==> rest[i] < tail[j]
    {
      assert rest[i] in seen;
      var m :| 0 <= m < |seen| && seen[m] == rest[i];
      assert whole[1 + m] == rest[i];
      forall j | 0 <= j < |tail| ensures rest[i] < tail[j] {
        assert whole[1 + |seen| + j] == tail[j];
      }
    }
    forall j | 0 <= j < |tail| ensures tail[j] > anchor && tail[j] < |cs| {
      assert whole[1 + |seen| + j] == tail[j];
    }
    forall i, j | 0 <= i < j < |tail| ensures tail[i] < tail[j] {
      assert whole[1 + |seen| + i] == tail[i] && whole[1 + |seen| + j] == tail[j];
    }
  }

  lemma GroupValid(cs: seq<Candidate>, anchor: nat, seen: seq<nat>, group: seq<nat>, rest: seq<nat>, k: nat)
    requires Gathered(cs, anchor, seen, group, rest) && |group| <= k
    ensures ValidGroup(cs, group, k)
  {
    forall i, j | 0 <= i < |group| && 0 <= j < |group| && group[i] != group[j]
      ensures Compatible(cs[group[i]], cs[group[j]])
    {
      CompatibleIsSameKey(cs, group[i], group[j]);
    }
  }

  lemma GatherNeeds(cs: seq<Candidate>, anchor: nat, seen: seq<nat>, tail: seq<nat>,
                    group: seq<nat>, rest: seq<nat>, k: nat)
    requires Gathered(cs, anchor, seen, group, rest) && 1 <= |group| <= k && InRange(cs, tail)
    requires |group| == k || tail == []
    ensures InRange(cs, [anchor] + seen + tail) && InRange(cs, rest + tail)
    ensures GroupsNeeded(Keys(cs, [anchor] + seen + tail), k) == GroupsNeeded(Keys(cs, rest + tail), k) + 1
  {
    hide Count, Others, Keys, GroupsNeeded;
    var c := KeyOf(cs, anchor);
    KeysConcat(cs, rest, tail, c);
    KeysConcat(cs, [anchor] + seen, tail, c);
    KeysConcat(cs, [anchor], seen, c);
    KeysSnoc(cs, [], anchor, c);
    NoKeys(cs, c);
    assert [] + [anchor] == [anchor];
    assert [] + Others(Keys(cs, seen), c) == Others(Keys(cs, seen), c);
    assert tail == [] ==> rest + tail == rest;
    NeedAfterRemoval(Keys(cs, [anchor] + seen + tail), Keys(cs, rest + tail), c, |group|, k);
  }

  function Tokens(c: Candidate): int {
    (if c.promptTokens.Some? then c.promptTokens.value else 0) + (if c.maxTokens.Some? then c.maxTokens.value else 0)
  }

  function TotalTokens(cs: seq<Candidate>, ps: seq<nat>): int
    requires forall i :: 0 <= i < |ps| ==> ps[i] < |cs|
  {
    if ps == [] then 0 else TotalTokens(cs, ps[..|ps|-1]) + Tokens(cs[ps[|ps|-1]])
  }

  /** The published form of a group of positions. */
  function Describe(cs: seq<Candidate>, g: seq<nat>, maxTotal: int): Group
    requires g != [] && forall i :: 0 <= i < |g| ==> g[i] < |cs|
  {
    var total := TotalTokens(cs, g);
    Group(g, seq(|g|, i requires 0 <= i < |g| => cs[g[i]].id), cs[g[0]].model, cs[g[0]].backend,
          |g| > 1 && total <= maxTotal,
          if |g| > 1 then [] else [TokenBudgetExceeded],
          if total == 0 then None else Some(total))
  }

  // ---------------------------------------------------------------------------
  // What a published group says
  // ---------------------------------------------------------------------------

  /** Prompt tokens stated by the members, missing estimates counting nothing. */
  ghost function PromptSum(cs: seq<Candidate>, ps: seq<nat>): int
    requires InRange(cs, ps)
  {
    if ps == [] then 0
    else (match cs[ps[0]].promptTokens case Some(n) => n case None => 0) + PromptSum(cs, ps[1..])
  }

  /** Output limits stated by the members. */
  ghost function OutputSum(cs: seq<Candidate>, ps: seq<nat>): int
    requires InRange(cs, ps)
  {
    if ps == [] then 0
    else (match cs[ps[0]].maxTokens case Some(n) => n case None => 0) + OutputSum(cs, ps[1..])
  }

  /** Everything a group publishes, in terms of its own members. */
  ghost predicate Published(cs: seq<Candidate>, g: Group, maxTotal: int) {
    && g.positions != [] && InRange(cs, g.positions)
    && |g.ids| == |g.positions| && (forall i :: 0 <= i < |g.ids| ==> g.ids[i] == cs[g.positions[i]].id)
    && g.model == cs[g.positions[0]].model && g.backend == cs[g.positions[0]].backend
    && var total := PromptSum(cs, g.positions) + OutputSum(cs, g.positions);
    && (total == 0 <==> g.totalTokens == None) && (total != 0 ==> g.totalTokens == Some(total))
    && (g.eligible <==> |g.positions| >= 2 && total <= maxTotal)
    && (|g.positions| >= 2 ==> g.reasons == []) && (|g.positions| == 1 ==> g.reasons == [TokenBudgetExceeded])
  }

  lemma {:induction false} SumsSnoc(cs: seq<Candidate>, ps: seq<nat>, p: nat)
    requires InRange(cs, ps) && p < |cs|
    ensures InRange(cs, ps + [p])
    ensures PromptSum(cs, ps + [p]) == PromptSum(cs, ps) + PromptSum(cs, [p])
    ensures OutputSum(cs, ps + [p]) == OutputSum(cs, ps) + OutputSum(cs, [p])
  {
    if ps == [] {
      assert ps + [p] == [p];
    } else {
      SumsSnoc(cs, ps[1..], p);
      assert (ps + [p])[1..] == ps[1..] + [p];
    }
  }

  /** The running total adds up prompts and limits of all members. */
  lemma {:induction false} TotalIsSum(cs: seq<Candidate>, ps: seq<nat>)
    requires InRange(cs, ps)
    ensures TotalTokens(cs, ps) == PromptSum(cs, ps) + OutputSum(cs, ps)
  {
    if ps != [] {
      var front, p := ps[..|ps|-1], ps[|ps|-1];
      TotalIsSum(cs, front);
      assert ps == front + [p];
      SumsSnoc(cs, front, p);
      assert [p][1..] == [];
    }
  }

  lemma DescribePublishes(cs: seq<Candidate>, g: seq<nat>, maxTotal: int)
    requires g != [] && InRange(cs, g)
    ensures Published(cs, Describe(cs, g, maxTotal), maxTotal)
  {
    TotalIsSum(cs, g);
    hide TotalTokens, PromptSum, OutputSum;
  }

  lemma AllPublished(cs: seq<Candidate>, groups: seq<Group>, maxTotal: int)
    requires WellDescribed(cs, groups, maxTotal)
    ensures forall j :: 0 <= j < |groups| ==> Published(cs, groups[j], maxTotal)
  {
    forall j | 0 <= j < |groups| ensures Published(cs, groups[j], maxTotal) {
      DescribePublishes(cs, groups[j].positions, maxTotal);
    }
  }

  ghost function Positions(groups: seq<Group>): seq<seq<nat>> {
    seq(|groups|, j requires 0 <= j < |groups| => groups[j].positions)
  }

  ghost function Eligible(groups: seq<Group>): set<nat> {
    set j | 0 <= j < |groups| && groups[j].eligible
  }

  /** The groups in the order of their anchors, each described from its own members. */
  ghost predicate WellDescribed(cs: seq<Candidate>, groups: seq<Group>, maxTotal: int) {
    && (forall j :: 0 <= j < |groups| ==>
          && groups[j].positions != [] && InRange(cs, groups[j].positions) && Increasing(groups[j].positions)
          && groups[j] == Describe(cs, groups[j].positions, maxTotal))
    && (forall i, j :: 0 <= i < j < |groups| ==> groups[i].positions[0] < groups[j].positions[0])
  }

  /** The groups come in the order of their first members. */
  ghost predicate AnchorsAscend(groups: seq<Group>) {
    && (forall j :: 0 <= j < |groups| ==> groups[j].positions != [])
    && (forall i, j :: 0 <= i < j < |groups| ==> groups[i].positions[0] < groups[j].positions[0])
  }

  /** The loop invariant: groups so far and remaining positions make up the queue, and nothing was wasted. */
  ghost predicate Progress(cs: seq<Candidate>, groups: seq<Group>, remaining: seq<nat>, k: nat, maxTotal: int) {
    && k >= 1 && InRange(cs, remaining) && Increasing(remaining)
    && (forall j :: 0 <= j < |groups| ==> ValidGroup(cs, groups[j].positions, k))
    && WellDescribed(cs, groups, maxTotal)
    && (groups != [] ==> forall p :: p in remaining ==> p > groups[|groups|-1].positions[0])
    && multiset(Flatten(Positions(groups))) + multiset(remaining) == multiset(Range(|cs|))
    && |groups| + GroupsNeeded(Keys(cs, remaining), k) == GroupsNeeded(Keys(cs, Range(|cs|)), k)
  }

  lemma ProgressStart(cs: seq<Candidate>, k: nat, maxTotal: int)
    requires k >= 1
    ensures Progress(cs, [], Range(|cs|), k, maxTotal)
  {
    assert Flatten(Positions([])) == [];
  }

  lemma ProgressStep(cs: seq<Candidate>, groups: seq<Group>, remaining: seq<nat>, g: seq<nat>, rest: seq<nat>, k: nat,
                     maxTotal: int)
    requires Progress(cs, groups, remaining, k, maxTotal) && remaining != []
    requires InRange(cs, rest) && Increasing(rest) && InRange(cs, g) && Increasing(g) && ValidGroup(cs, g, k)
    requires multiset(g) + multiset(rest) == multiset(remaining) && g != [] && g[0] == remaining[0]
    requires GroupsNeeded(Keys(cs, remaining), k) == GroupsNeeded(Keys(cs, rest), k) + 1
    requires forall p :: p in rest ==> p > g[0]
    ensures Progress(cs, groups + [Describe(cs, g, maxTotal)], rest, k, maxTotal)
  {
    hide GroupsNeeded, Keys, Flatten, Describe, ValidGroup, WellDescribed, Increasing;
    var d := Describe(cs, g, maxTotal);
    DescribePositions(cs, g, maxTotal);
    AppendGroup(groups, d);
    assert remaining[0] in remaining;
    assert multiset(Flatten(Positions(groups)) + g) == multiset(Flatten(Positions(groups))) + multiset(g);
    StillDescribed(cs, groups, g, maxTotal);
  }

  lemma StillDescribed(cs: seq<Candidate>, groups: seq<Group>, g: seq<nat>, maxTotal: int)
    requires WellDescribed(cs, groups, maxTotal) && g != [] && InRange(cs, g) && Increasing(g)
    requires groups != [] ==> groups[|groups|-1].positions[0] < g[0]
    ensures WellDescribed(cs, groups + [Describe(cs, g, maxTotal)], maxTotal)
  {
    var d := Describe(cs, g, maxTotal);
    DescribePositions(cs, g, maxTotal);
    hide Describe, Increasing;
    var all := groups + [d];
    forall i, j | 0 <= i < j < |all| ensures all[i].positions[0] < all[j].positions[0] {
      if j == |groups| && i < |groups| - 1 {
        assert groups[i].positions[0] < groups[|groups|-1].positions[0];
      }
    }
  }

  lemma DescribePositions(cs: seq<Candidate>, g: seq<nat>, maxTotal: int)
    requires g != [] && InRange(cs, g)
    ensures Describe(cs, g, maxTotal).positions == g
  {}

  lemma ProgressDone(cs: seq<Candidate>, groups: seq<Group>, k: nat, maxTotal: int)
    requires Progress(cs, groups, [], k, maxTotal)
    ensures ValidPartition(cs, Positions(groups), k) && WellDescribed(cs, groups, maxTotal)
    ensures forall p :: ValidPartition(cs, p, k) ==> |groups| <= |p|
  {
    assert GroupsNeeded(Keys(cs, []), k) == 0;
    forall p | ValidPartition(cs, p, k) ensures |groups| <= |p| {
      PartitionsNeedAtLeast(cs, p, k);
    }
  }

  /**
  Greedy grouping of the whole queue.  The groups are a valid partition that keeps queue order, and no valid
  partition is smaller.
  */
  method Analyze(cs: seq<Candidate>, enabled: bool, maxGroupSize: int, maxTotal: int) returns (a: Analysis)
    ensures a.enabled == enabled && a.candidateCount == |cs|
    ensures !enabled ==> a.groups == []
    ensures enabled ==> ValidPartition(cs, Positions(a.groups), SizeLimit(maxGroupSize))
    ensures enabled ==> forall j :: 0 <= j < |a.groups| ==>
      Published(cs, a.groups[j], maxTotal) && Increasing(a.groups[j].positions)
    ensures enabled ==> AnchorsAscend(a.groups)
    ensures enabled ==> forall p :: ValidPartition(cs, p, SizeLimit(maxGroupSize)) ==> |a.groups| <= |p|
    ensures a.eligibleCount == |Eligible(a.groups)|
  {
    if !enabled || cs == [] {
      a := Analysis(enabled, |cs|, [], 0);
      assert Eligible([]) == {};
      if enabled {
        ProgressStart(cs, SizeLimit(maxGroupSize), maxTotal);
        ProgressDone(cs, [], SizeLimit(maxGroupSize), maxTotal);
      }
      return;
    }
    var groups := GroupAll(cs, maxGroupSize, maxTotal);
    ProgressDone(cs, groups, SizeLimit(maxGroupSize), maxTotal);
    AllPublished(cs, groups, maxTotal);
    var eligible := CountEligible(groups);
    a := Analysis(enabled, |cs|, groups, eligible);
  }

  /** The while loop over the remaining candidates. */
  method GroupAll(cs: seq<Candidate>, maxGroupSize: int, maxTotal: int) returns (groups: seq<Group>)
    ensures Progress(cs, groups, [], SizeLimit(maxGroupSize), maxTotal)
  {
    groups := [];
    var remaining: seq<nat> := seq(|cs|, i requires 0 <= i < |cs| => i);
    ProgressStart(cs, SizeLimit(maxGroupSize), maxTotal);
    assert remaining == Range(|cs|);
    while remaining != []
      invariant InRange(cs, remaining) && Increasing(remaining)
      invariant Progress(cs, groups, remaining, SizeLimit(maxGroupSize), maxTotal)
      decreases |multiset(remaining)|
    {
      hide *;
      var g, rest := Gather(cs, remaining, maxGroupSize);
      ProgressStep(cs, groups, remaining, g, rest, SizeLimit(maxGroupSize), maxTotal);
      groups := groups + [Describe(cs, g, maxTotal)];
      assert |multiset(g)| > 0;
      remaining := rest;
    }
  }

  method CountEligible(groups: seq<Group>) returns (n: nat)
    ensures n == |Eligible(groups)|
  {
    n := 0;
    assert Eligible(groups[..0]) == {};
    for j := 0 to |groups|
      invariant n == |Eligible(groups[..j])|
    {
      AppendGroup(groups[..j], groups[j]);
      assert groups[..j+1] == groups[..j] + [groups[j]];
      if groups[j].eligible {
        n := n + 1;
      }
    }
    assert groups[..|groups|] == groups;
  }

  lemma AppendGroup(groups: seq<Group>, g: Group)
    ensures Flatten(Positions(groups + [g])) == Flatten(Positions(groups)) + g.positions
    ensures |Eligible(groups + [g])| == |Eligible(groups)| + if g.eligible then 1 else 0
  {
    var ps := Positions(groups + [g]);
    assert ps[..|ps|-1] == Positions(groups);
    var a, b := Eligible(groups), Eligible(groups + [g]);
    if g.eligible {
      assert b == a + {|groups|};
    } else {
      assert b == a;
    }
  }
}
