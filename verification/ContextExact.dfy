/** What a request costs and how it is judged, said of its own fields: sizes, rounding, limits and reasons. */
module ContextExact {
  import opened Core
  import opened Context

  // ---------------------------------------------------------------------------
  // Sizes
  // ---------------------------------------------------------------------------

  /** A text with its separator, or nothing for an empty one. */
  function Slot(t: string): nat { if |t| == 0 then 0 else |t| + 1 }

  ghost function PartsSize(ps: seq<Part>): nat {
    if ps == [] then 0
    else PartsSize(ps[1..]) + match ps[0] case TextPart(Some(t)) => Slot(t) case _ => 0
  }

  ghost function PartsMedia(ps: seq<Part>): nat {
    if ps == [] then 0 else PartsMedia(ps[1..]) + match ps[0] case Media => 1 case _ => 0
  }

  ghost function ContentSize(c: Content): nat {
    match c case NoContent => 0 case Plain(t) => Slot(t) case Parts(ps) => PartsSize(ps)
  }

  ghost function ContentMedia(c: Content): nat {
    match c case Parts(ps) => PartsMedia(ps) case _ => 0
  }

  /** Text of all messages, one separator per piece. */
  ghost function TextSize(ms: seq<Message>): nat {
    if ms == [] then 0 else ContentSize(ms[0].content) + TextSize(ms[1..])
  }

  ghost function MediaParts(ms: seq<Message>): nat {
    if ms == [] then 0 else ContentMedia(ms[0].content) + MediaParts(ms[1..])
  }

  /** Tool calls, names and tool-call ids of all messages. */
  ghost function FieldsSize(ms: seq<Message>): nat {
    if ms == [] then 0 else Slot(ms[0].toolCalls) + Slot(ms[0].name) + Slot(ms[0].toolCallId) + FieldsSize(ms[1..])
  }

  ghost function StructuredSize(r: Request): nat {
    Slot(r.tools) + Slot(r.toolChoice) + Slot(r.responseFormat) + Slot(r.stop) + FieldsSize(r.messages)
  }

  /** Characters joined with one separator between pieces: the last piece has none. */
  ghost function Joined(size: nat): nat { if size == 0 then 0 else size - 1 }

  /** The least number of tokens of four characters that hold `length` characters. */
  ghost predicate PricedAs(length: nat, tokens: nat) {
    length <= 4 * tokens && (tokens > 0 ==> 4 * (tokens - 1) < length)
  }

  lemma SlotIsSized(s: string)
    ensures Slot(s) == Sized(s)
  {}

  lemma {:induction false} PartsSnoc(ps: seq<Part>, p: Part)
    ensures PartsSize(ps + [p]) == PartsSize(ps) + PartsSize([p])
    ensures PartsMedia(ps + [p]) == PartsMedia(ps) + PartsMedia([p])
  {
    if ps == [] {
      assert ps + [p] == [p];
    } else {
      PartsSnoc(ps[1..], p);
      assert (ps + [p])[1..] == ps[1..] + [p];
    }
  }

  /** The last part, in both readings. */
  lemma LastPart(ps: seq<Part>)
    requires ps != []
    ensures var front, p := ps[..|ps|-1], ps[|ps|-1];
      && PartChunks(ps) == PartChunks(front) + Nonempty(PartText(p))
      && PartMedia(ps) == PartMedia(front) + PartsMedia([p]) && PartsSize([p]) == Sized(PartText(p))
  {
    assert [ps[|ps|-1]][1..] == [];
  }

  lemma {:induction false} PartsWeigh(ps: seq<Part>)
    ensures Weight(PartChunks(ps)) == PartsSize(ps) && PartMedia(ps) == PartsMedia(ps)
  {
    if ps != [] {
      hide *;
      var front, p := ps[..|ps|-1], ps[|ps|-1];
      PartsWeigh(front);
      assert ps == front + [p];
      PartsSnoc(front, p);
      LastPart(ps);
      WeightConcat(PartChunks(front), Nonempty(PartText(p)));
      NonemptyWeight(PartText(p));
    }
  }

  lemma MessageWeighs(m: Message)
    ensures Weight(MessageChunks(m)) == ContentSize(m.content) && MessageMedia(m) == ContentMedia(m.content)
    ensures Weight(MessageFields(m)) == Slot(m.toolCalls) + Slot(m.name) + Slot(m.toolCallId)
  {
    match m.content {
      case NoContent =>
      case Plain(t) => NonemptyWeight(t);
      case Parts(ps) => PartsWeigh(ps);
    }
    FieldsWeight(m);
  }

  lemma {:induction false} MessagesSnoc(ms: seq<Message>, m: Message)
    ensures TextSize(ms + [m]) == TextSize(ms) + ContentSize(m.content)
    ensures MediaParts(ms + [m]) == MediaParts(ms) + ContentMedia(m.content)
    ensures FieldsSize(ms + [m]) == FieldsSize(ms) + Slot(m.toolCalls) + Slot(m.name) + Slot(m.toolCallId)
  {
    if ms == [] {
      assert ms + [m] == [m] && [m][1..] == [];
    } else {
      MessagesSnoc(ms[1..], m);
      assert (ms + [m])[1..] == ms[1..] + [m];
    }
  }

  lemma LastMessage(ms: seq<Message>)
    requires ms != []
    ensures var front, m := ms[..|ms|-1], ms[|ms|-1];
      && Chunks(ms) == Chunks(front) + MessageChunks(m) && MediaCount(ms) == MediaCount(front) + MessageMedia(m)
      && MessagesFields(ms) == MessagesFields(front) + MessageFields(m)
  {
    hide MessageChunks, MessageFields, MessageMedia;
  }

  lemma NothingWeighs()
    ensures Weight(Chunks([])) == TextSize([]) && MediaCount([]) == MediaParts([])
    ensures Weight(MessagesFields([])) == FieldsSize([])
  {}

  lemma {:induction false} MessagesWeigh(ms: seq<Message>)
    ensures Weight(Chunks(ms)) == TextSize(ms) && MediaCount(ms) == MediaParts(ms)
    ensures Weight(MessagesFields(ms)) == FieldsSize(ms)
  {
    hide *;
    if ms == [] {
      NothingWeighs();
    } else {
      var front, m := ms[..|ms|-1], ms[|ms|-1];
      MessagesWeigh(front);
      assert ms == front + [m];
      MessagesSnoc(front, m);
      LastMessage(ms);
      MessageWeighs(m);
      WeightConcat(Chunks(front), MessageChunks(m));
      WeightConcat(MessagesFields(front), MessageFields(m));
    }
  }

  lemma {:induction false} NoWeightNoChunks(cs: seq<string>)
    ensures Weight(cs) == 0 <==> cs == []
  {
    if cs != [] {
      NoWeightNoChunks(cs[..|cs|-1]);
    }
  }

  lemma JoinedLength(cs: seq<string>)
    ensures |Join(cs)| == Joined(Weight(cs))
  {
    JoinLength(cs);
    NoWeightNoChunks(cs);
  }

  /** Rounding up: a token for every four characters begun. */
  lemma TokensExactly(length: nat)
    ensures PricedAs(length, TokensOf(length))
  {}

  // ---------------------------------------------------------------------------
  // Cost
  // ---------------------------------------------------------------------------

  ghost function Stated(limit: Option<int>): nat { if limit.Some? && limit.value > 0 then limit.value else 0 }

  /** The whole cost of a request, component by component, from its own fields. */
  lemma CostExactly(r: Request, estimate: Option<nat>, defaultMax: int)
    ensures var c := EstimateCost(r, estimate, defaultMax);
      var none := r.maxTokens.None? && r.maxCompletionTokens.None?;
      && PricedAs(Joined(StructuredSize(r)), c.structured)
      && c.structured <= c.input && PricedAs(Joined(TextSize(r.messages)), c.input - c.structured)
      && c.mediaParts == MediaParts(r.messages)
      && c.multimodal == (if estimate.Some? then MediaParts(r.messages) * estimate.value else 0)
      && (none ==> c.output == (if defaultMax > 0 then defaultMax else 0))
      && (!none ==> Stated(r.maxTokens) <= c.output && Stated(r.maxCompletionTokens) <= c.output)
      && (!none ==> c.output == Stated(r.maxTokens) || c.output == Stated(r.maxCompletionTokens))
      && c.total == c.input + c.output + c.multimodal
      && (c.outputIsExact <==> !none) && (c.multimodalIsExact <==> c.mediaParts == 0)
      && (c.hasUnknown <==> c.mediaParts > 0 && (estimate.None? || estimate.value == 0))
      && (c.source == FromDefault <==> none) && (c.source == FromMaxCompletionTokens <==> r.maxCompletionTokens.Some?)
  {
    hide TokensOf, PricedAs, Join, Chunks, StructuredChunks, MediaCount, Joined, TextSize, StructuredSize, MediaParts;
    TextPriced(r);
    MediaPriced(MediaParts(r.messages), estimate);
  }

  lemma TextPriced(r: Request)
    ensures PricedAs(Joined(StructuredSize(r)), TokensOf(|Join(StructuredChunks(r))|))
    ensures PricedAs(Joined(TextSize(r.messages)), TokensOf(|Join(Chunks(r.messages))|))
    ensures MediaCount(r.messages) == MediaParts(r.messages)
  {
    hide *;
    MessagesWeigh(r.messages);
    StructuredWeighs(r);
    JoinedLength(StructuredChunks(r));
    JoinedLength(Chunks(r.messages));
    TokensExactly(|Join(StructuredChunks(r))|);
    TokensExactly(|Join(Chunks(r.messages))|);
  }

  /** Unpriced media, or none, cost nothing. */
  lemma MediaPriced(media: nat, estimate: Option<nat>)
    ensures (if media > 0 && estimate.Some? && estimate.value > 0 then media * estimate.value else 0)
         == if estimate.Some? then media * estimate.value else 0
  {
    if media == 0 && estimate.Some? {
      assert media * estimate.value == 0;
    }
  }

  lemma StructuredWeighs(r: Request)
    ensures Weight(StructuredChunks(r)) == StructuredSize(r)
  {
    StructuredWeight(r);
    MessagesWeigh(r.messages);
    NonemptyWeight(r.tools);
    NonemptyWeight(r.toolChoice);
    NonemptyWeight(r.responseFormat);
    NonemptyWeight(r.stop);
    hide Weight, StructuredChunks, MessagesFields;
  }

  // ---------------------------------------------------------------------------
  // The collected text
  // ---------------------------------------------------------------------------

  ghost function PartTexts(ps: seq<Part>): seq<string> {
    if ps == [] then []
    else (match ps[0] case TextPart(Some(t)) => if |t| > 0 then [t] else [] case _ => []) + PartTexts(ps[1..])
  }

  ghost function ContentTexts(c: Content): seq<string> {
    match c
    case NoContent => []
    case Plain(t) => if |t| > 0 then [t] else []
    case Parts(ps) => PartTexts(ps)
  }

  /** The non-empty texts of the messages, in order. */
  ghost function Texts(ms: seq<Message>): seq<string> {
    if ms == [] then [] else ContentTexts(ms[0].content) + Texts(ms[1..])
  }

  /** Lines separated by line feeds. */
  ghost function Lines(cs: seq<string>): string {
    if cs == [] then "" else if |cs| == 1 then cs[0] else cs[0] + "\n" + Lines(cs[1..])
  }

  lemma {:induction false} PartTextsSnoc(ps: seq<Part>, p: Part)
    ensures PartTexts(ps + [p]) == PartTexts(ps) + PartTexts([p])
  {
    if ps == [] {
      assert ps + [p] == [p];
    } else {
      PartTextsSnoc(ps[1..], p);
      assert (ps + [p])[1..] == ps[1..] + [p];
    }
  }

  lemma {:induction false} PartTextsAre(ps: seq<Part>)
    ensures PartChunks(ps) == PartTexts(ps)
  {
    if ps != [] {
      var front, p := ps[..|ps|-1], ps[|ps|-1];
      PartTextsAre(front);
      assert ps == front + [p];
      PartTextsSnoc(front, p);
      assert [p][1..] == [];
    }
  }

  lemma {:induction false} TextsSnoc(ms: seq<Message>, m: Message)
    ensures Texts(ms + [m]) == Texts(ms) + Texts([m])
  {
    hide ContentTexts;
    if ms == [] {
      assert ms + [m] == [m];
    } else {
      TextsSnoc(ms[1..], m);
      assert (ms + [m])[1..] == ms[1..] + [m];
    }
  }

  lemma {:induction false} TextsAre(ms: seq<Message>)
    ensures Chunks(ms) == Texts(ms)
  {
    if ms != [] {
      var front, m := ms[..|ms|-1], ms[|ms|-1];
      TextsAre(front);
      assert ms == front + [m];
      TextsSnoc(front, m);
      assert [m][1..] == [];
      if m.content.Parts? { PartTextsAre(m.content.parts); }
      hide PartTexts, PartChunks;
    }
  }

  lemma {:induction false} LinesSnoc(cs: seq<string>, c: string)
    requires cs != []
    ensures Lines(cs + [c]) == Lines(cs) + "\n" + c
  {
    if |cs| == 1 {
      assert (cs + [c])[1..] == [c];
    } else {
      LinesSnoc(cs[1..], c);
      assert (cs + [c])[1..] == cs[1..] + [c];
    }
  }

  lemma {:induction false} JoinIsLines(cs: seq<string>)
    ensures Join(cs) == Lines(cs)
  {
    if |cs| > 1 {
      JoinIsLines(cs[..|cs|-1]);
      LinesSnoc(cs[..|cs|-1], cs[|cs|-1]);
      assert cs == cs[..|cs|-1] + [cs[|cs|-1]];
    }
  }

  /** The text of a request is its non-empty texts, one per line, and its media are its non-text parts. */
  lemma TextExactly(ms: seq<Message>)
    ensures Join(Chunks(ms)) == Lines(Texts(ms)) && |Chunks(ms)| == |Texts(ms)| && MediaCount(ms) == MediaParts(ms)
  {
    TextsAre(ms);
    JoinIsLines(Chunks(ms));
    MessagesWeigh(ms);
  }

  // ---------------------------------------------------------------------------
  // Judgement
  // ---------------------------------------------------------------------------

  /** Each reason, with the bounds that lead to it; the first broken bound in this order names it. */
  lemma ReasonExactly(cost: Cost, b: Budgets)
    ensures var e := Evaluate(cost, Some(b));
      var output := b.maxOutput.Some? && cost.output > b.maxOutput.value;
      var input := b.maxInput.Some? && cost.input + cost.multimodal > b.maxInput.value;
      var hard := b.hard.Some? && cost.total > b.hard.value;
      var recommended := b.recommended.Some? && cost.total > b.recommended.value;
      var interactive := b.interactive.Some? && cost.total > b.interactive.value;
      && (e.reason == AboveOutputLimit <==> output)
      && (e.reason == AboveInputLimit <==> !output && input)
      && (e.reason == AboveHard <==> !output && !input && hard)
      && (e.reason == AboveRecommended <==> !output && !input && !hard && recommended)
      && (e.reason == WithinRecommended <==> !output && !input && !hard && !recommended && interactive)
      && (e.reason == WithinInteractive <==> !output && !input && !hard && !recommended && !interactive)
      && (e.overLimit <==> output || input || hard) && (e.withinBudget <==> !(output || input || hard))
      && e.total == cost.total
    ensures Evaluate(cost, None) == Evaluation(NoBudget, cost.total, true, false)
  {}
}
