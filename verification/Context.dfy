/**
Per-model context policy: what a chat request costs in tokens, with the character fallback, and how that
cost compares with the budgets measured for its model.
*/
module Context {

  import opened Core

  /** A content part: not an object, a text part (whose text may be missing or not a string), or media. */
  datatype Part = NotAnObject | TextPart(text: Option<string>) | Media

  datatype Content = NoContent | Plain(text: string) | Parts(parts: seq<Part>)

  /** Optional prompt-affecting fields are held in the serialized form that is sized; absent is "". */
  datatype Message = Message(content: Content, toolCalls: string, name: string, toolCallId: string)

  datatype Request = Request(
    messages: seq<Message>, tools: string, toolChoice: string, responseFormat: string, stop: string,
    maxTokens: Option<int>, maxCompletionTokens: Option<int>)

  datatype OutputSource = FromMaxTokens | FromMaxCompletionTokens | FromDefault

  datatype Cost = Cost(
    input: nat, output: nat, multimodal: nat, total: nat, structured: nat, mediaParts: nat,
    outputIsExact: bool, multimodalIsExact: bool, hasUnknown: bool, source: OutputSource)

  datatype Budgets = Budgets(
    hard: Option<int>, recommended: Option<int>, interactive: Option<int>,
    maxOutput: Option<int>, maxInput: Option<int>, multimodalEstimate: Option<nat>)

  datatype Reason =
    | WithinInteractive | WithinRecommended | AboveRecommended | AboveHard | AboveInputLimit | AboveOutputLimit
    | NoBudget

  datatype Evaluation = Evaluation(reason: Reason, total: nat, withinBudget: bool, overLimit: bool)

  // ---------------------------------------------------------------------------
  // Collecting the text
  // ---------------------------------------------------------------------------

  function PartText(p: Part): string {
    if p.TextPart? && p.text.Some? then p.text.value else ""
  }

  /** The text chunks of a list of parts: the non-empty ones, in order. */
  function PartChunks(ps: seq<Part>): seq<string> {
    if ps == [] then []
    else PartChunks(ps[..|ps|-1]) + if PartText(ps[|ps|-1]) == "" then [] else [PartText(ps[|ps|-1])]
  }

  function PartMedia(ps: seq<Part>): nat {
    if ps == [] then 0 else PartMedia(ps[..|ps|-1]) + if ps[|ps|-1].Media? then 1 else 0
  }

  function MessageChunks(m: Message): seq<string> {
    match m.content
    case NoContent => []
    case Plain(t) => if t == "" then [] else [t]
    case Parts(ps) => PartChunks(ps)
  }

  function MessageMedia(m: Message): nat {
    if m.content.Parts? then PartMedia(m.content.parts) else 0
  }

  function Chunks(ms: seq<Message>): seq<string> {
    if ms == [] then [] else Chunks(ms[..|ms|-1]) + MessageChunks(ms[|ms|-1])
  }

  function MediaCount(ms: seq<Message>): nat {
    if ms == [] then 0 else MediaCount(ms[..|ms|-1]) + MessageMedia(ms[|ms|-1])
  }

  /** "\n".join */
  function Join(cs: seq<string>): string {
    if cs == [] then "" else if |cs| == 1 then cs[0] else Join(cs[..|cs|-1]) + "\n" + cs[|cs|-1]
  }

  /** _message_text_and_media: one pass over messages and parts. */
  method TextAndMedia(ms: seq<Message>) returns (text: string, textParts: nat, media: nat)
    ensures text == Join(Chunks(ms)) && textParts == |Chunks(ms)| && media == MediaCount(ms)
  {
    var chunks: seq<string> := [];
    textParts, media := 0, 0;
    for i := 0 to |ms|
      invariant chunks == Chunks(ms[..i]) && textParts == |chunks| && media == MediaCount(ms[..i])
    {
      assert ms[..i+1][..i] == ms[..i];
      match ms[i].content {
        case NoContent =>
        case Plain(t) =>
          if t != "" {
            chunks, textParts := chunks + [t], textParts + 1;
          }
        case Parts(ps) =>
          var c, n := ScanParts(ps);
          chunks, textParts, media := chunks + c, textParts + |c|, media + n;
      }
    }
    assert ms[..|ms|] == ms;
    text := Join(chunks);
  }

  method ScanParts(ps: seq<Part>) returns (chunks: seq<string>, media: nat)
    ensures chunks == PartChunks(ps) && media == PartMedia(ps)
  {
    chunks, media := [], 0;
    for j := 0 to |ps|
      invariant chunks == PartChunks(ps[..j]) && media == PartMedia(ps[..j])
    {
      assert ps[..j+1][..j] == ps[..j];
      match ps[j] {
        case NotAnObject =>
        case TextPart(t) =>
          if t.Some? && t.value != "" {
            chunks := chunks + [t.value];
          }
        case Media => media := media + 1;
      }
    }
    assert ps[..|ps|] == ps;
  }

  function Nonempty(s: string): seq<string> { if s == "" then [] else [s] }

  function MessageFields(m: Message): seq<string> {
    Nonempty(m.toolCalls) + Nonempty(m.name) + Nonempty(m.toolCallId)
  }

  function MessagesFields(ms: seq<Message>): seq<string> {
    if ms == [] then [] else MessagesFields(ms[..|ms|-1]) + MessageFields(ms[|ms|-1])
  }

  /** _structured_prompt_text */
  function StructuredChunks(r: Request): seq<string> {
    Nonempty(r.tools) + Nonempty(r.toolChoice) + Nonempty(r.responseFormat) + Nonempty(r.stop)
    + MessagesFields(r.messages)
  }

  // ---------------------------------------------------------------------------
  // Costing
  // ---------------------------------------------------------------------------

  const CHARS_PER_TOKEN := 4

  /** math.ceil(len(text) / 4) */
  function TokensOf(length: nat): nat { (length + CHARS_PER_TOKEN - 1) / CHARS_PER_TOKEN }

  function AtLeastZero(n: int): nat { if n < 0 then 0 else n }

  function MaxNat(a: nat, b: nat): nat { if a < b then b else a }

  /** _effective_output_limit: the larger of two stated limits, else the one stated, else the default. */
  function OutputLimit(r: Request, defaultMax: int): (nat, bool, OutputSource) {
    match r.maxCompletionTokens
    case Some(c) =>
      (MaxNat(AtLeastZero(c), if r.maxTokens.Some? then AtLeastZero(r.maxTokens.value) else 0), true,
       FromMaxCompletionTokens)
    case None =>
      if r.maxTokens.Some? then (AtLeastZero(r.maxTokens.value), true, FromMaxTokens)
      else (AtLeastZero(defaultMax), false, FromDefault)
  }

  /** estimate_request_cost without a tokenizer. */
  function EstimateCost(r: Request, estimate: Option<nat>, defaultMax: int): Cost {
    var media := MediaCount(r.messages);
    var structured := TokensOf(|Join(StructuredChunks(r))|);
    var input := TokensOf(|Join(Chunks(r.messages))|) + structured;
    var (output, exact, source) := OutputLimit(r, defaultMax);
    var priced := media > 0 && estimate.Some? && estimate.value > 0;
    var multimodal := if priced then media * estimate.value else 0;
    Cost(input, output, multimodal, input + output + multimodal, structured, media,
         exact, media == 0, media > 0 && !priced, source)
  }

  predicate Over(limit: Option<int>, n: nat) { limit.Some? && n > limit.value }

  /** evaluate_context */
  function Evaluate(cost: Cost, budgets: Option<Budgets>): Evaluation {
    if budgets.None? then Evaluation(NoBudget, cost.total, true, false)
    else
      var b := budgets.value;
      if Over(b.maxOutput, cost.output) then Evaluation(AboveOutputLimit, cost.total, false, true)
      else if Over(b.maxInput, cost.input + cost.multimodal) then Evaluation(AboveInputLimit, cost.total, false, true)
      else if Over(b.hard, cost.total) then Evaluation(AboveHard, cost.total, false, true)
      else if Over(b.recommended, cost.total) then Evaluation(AboveRecommended, cost.total, true, false)
      else if Over(b.interactive, cost.total) then Evaluation(WithinRecommended, cost.total, true, false)
      else Evaluation(WithinInteractive, cost.total, true, false)
  }

  // ---------------------------------------------------------------------------
  // Growing a request
  // ---------------------------------------------------------------------------

  predicate IsPrefix<T(==)>(a: seq<T>, b: seq<T>) { |a| <= |b| && a == b[..|a|] }

  /** Content parts are appended, plain text and serialized fields do not get shorter. */
  predicate MessageGrows(m: Message, m': Message) {
    && |m.toolCalls| <= |m'.toolCalls| && |m.name| <= |m'.name| && |m.toolCallId| <= |m'.toolCallId|
    && match m.content {
         case NoContent => true
         case Plain(t) => m'.content.Plain? && |t| <= |m'.content.text|
         case Parts(ps) => m'.content.Parts? && IsPrefix(ps, m'.content.parts)
       }
  }

  predicate LimitGrows(a: Option<int>, b: Option<int>) {
    a.Some? ==> b.Some? && a.value <= b.value
  }

  /** Stated output limits are kept or raised; a request that stated none still states none. */
  predicate OutputGrows(r: Request, r': Request) {
    if r.maxTokens.None? && r.maxCompletionTokens.None?
    then r'.maxTokens.None? && r'.maxCompletionTokens.None?
    else LimitGrows(r.maxTokens, r'.maxTokens) && LimitGrows(r.maxCompletionTokens, r'.maxCompletionTokens)
  }

  predicate Grows(r: Request, r': Request) {
    && |r.messages| <= |r'.messages|
    && (forall i :: 0 <= i < |r.messages| ==> MessageGrows(r.messages[i], r'.messages[i]))
    && |r.tools| <= |r'.tools| && |r.toolChoice| <= |r'.toolChoice|
    && |r.responseFormat| <= |r'.responseFormat| && |r.stop| <= |r'.stop|
    && OutputGrows(r, r')
  }

  /** Length of the chunks with one separator each. */
  function Weight(cs: seq<string>): nat {
    if cs == [] then 0 else Weight(cs[..|cs|-1]) + |cs[|cs|-1]| + 1
  }

  lemma {:induction false} JoinLength(cs: seq<string>)
    ensures |Join(cs)| == if cs == [] then 0 else Weight(cs) - 1
  {
    if |cs| > 1 {
      JoinLength(cs[..|cs|-1]);
    } else if |cs| == 1 {
      assert cs[..0] == [];
    }
  }

  lemma {:induction false} WeightConcat(a: seq<string>, b: seq<string>)
    ensures Weight(a + b) == Weight(a) + Weight(b)
  {
    if b == [] {
      assert a + b == a;
    } else {
      WeightConcat(a, b[..|b|-1]);
      assert (a + b)[..|a + b|-1] == a + b[..|b|-1];
    }
  }

  lemma {:induction false} PartsPrefix(ps: seq<Part>, qs: seq<Part>)
    requires IsPrefix(ps, qs)
    ensures Weight(PartChunks(ps)) <= Weight(PartChunks(qs)) && PartMedia(ps) <= PartMedia(qs)
    decreases |qs|
  {
    if |ps| == |qs| {
      assert ps == qs;
    } else {
      var front := qs[..|qs|-1];
      assert front[..|ps|] == ps;
      PartsPrefix(ps, front);
      WeightConcat(PartChunks(front), if PartText(qs[|qs|-1]) == "" then [] else [PartText(qs[|qs|-1])]);
    }
  }

  lemma WeightOne(s: string)
    ensures Weight([s]) == |s| + 1
  {
    assert [s][..0] == [];
  }

  /** What an optional field adds to the weight. */
  function Sized(s: string): nat { if s == "" then 0 else |s| + 1 }

  lemma NonemptyWeight(s: string)
    ensures Weight(Nonempty(s)) == Sized(s)
  {
    WeightOne(s);
  }

  lemma MessageMonotone(m: Message, m': Message)
    requires MessageGrows(m, m')
    ensures Weight(MessageChunks(m)) <= Weight(MessageChunks(m'))
    ensures MessageMedia(m) <= MessageMedia(m')
    ensures Weight(MessageFields(m)) <= Weight(MessageFields(m'))
  {
    match m.content {
      case NoContent =>
      case Plain(t) =>
        WeightOne(t);
        WeightOne(m'.content.text);
      case Parts(ps) => PartsPrefix(ps, m'.content.parts);
    }
    FieldsMonotone(m, m');
  }

  lemma FieldsMonotone(m: Message, m': Message)
    requires |m.toolCalls| <= |m'.toolCalls| && |m.name| <= |m'.name| && |m.toolCallId| <= |m'.toolCallId|
    ensures Weight(MessageFields(m)) <= Weight(MessageFields(m'))
  {
    hide Weight, MessageFields;
    FieldsWeight(m);
    FieldsWeight(m');
  }

  lemma FieldsWeight(m: Message)
    ensures Weight(MessageFields(m)) == Sized(m.toolCalls) + Sized(m.name) + Sized(m.toolCallId)
  {
    WeightConcat(Nonempty(m.toolCalls) + Nonempty(m.name), Nonempty(m.toolCallId));
    WeightConcat(Nonempty(m.toolCalls), Nonempty(m.name));
    NonemptyWeight(m.toolCalls);
    NonemptyWeight(m.name);
    NonemptyWeight(m.toolCallId);
  }

  lemma {:induction false} MessagesMonotone(ms: seq<Message>, ms': seq<Message>)
    requires |ms| <= |ms'|
    requires forall i :: 0 <= i < |ms| ==> MessageGrows(ms[i], ms'[i])
    ensures Weight(Chunks(ms)) <= Weight(Chunks(ms'))
    ensures MediaCount(ms) <= MediaCount(ms')
    ensures Weight(MessagesFields(ms)) <= Weight(MessagesFields(ms'))
    decreases |ms'|
  {
    if ms' != [] {
      var front', last' := ms'[..|ms'|-1], ms'[|ms'|-1];
      WeightConcat(Chunks(front'), MessageChunks(last'));
      WeightConcat(MessagesFields(front'), MessageFields(last'));
      if |ms| == |ms'| {
        var front, last := ms[..|ms|-1], ms[|ms|-1];
        MessagesMonotone(front, front');
        MessageMonotone(last, last');
        WeightConcat(Chunks(front), MessageChunks(last));
        WeightConcat(MessagesFields(front), MessageFields(last));
      } else {
        MessagesMonotone(ms, front');
      }
    }
  }

  lemma StructuredWeight(r: Request)
    ensures Weight(StructuredChunks(r)) ==
      Weight(Nonempty(r.tools)) + Weight(Nonempty(r.toolChoice)) + Weight(Nonempty(r.responseFormat))
      + Weight(Nonempty(r.stop)) + Weight(MessagesFields(r.messages))
  {
    var a, b, c, d := Nonempty(r.tools), Nonempty(r.toolChoice), Nonempty(r.responseFormat), Nonempty(r.stop);
    WeightConcat(a + b + c + d, MessagesFields(r.messages));
    WeightConcat(a + b + c, d);
    WeightConcat(a + b, c);
    WeightConcat(a, b);
  }

  lemma JoinMonotone(cs: seq<string>, cs': seq<string>)
    requires Weight(cs) <= Weight(cs')
    ensures TokensOf(|Join(cs)|) <= TokensOf(|Join(cs')|)
  {
    JoinLength(cs);
    JoinLength(cs');
  }

  lemma StructuredMonotone(r: Request, r': Request)
    requires Grows(r, r')
    ensures Weight(StructuredChunks(r)) <= Weight(StructuredChunks(r'))
  {
    MessagesMonotone(r.messages, r'.messages);
    StructuredWeight(r);
    StructuredWeight(r');
    NonemptyWeight(r.tools); NonemptyWeight(r'.tools);
    NonemptyWeight(r.toolChoice); NonemptyWeight(r'.toolChoice);
    NonemptyWeight(r.responseFormat); NonemptyWeight(r'.responseFormat);
    NonemptyWeight(r.stop); NonemptyWeight(r'.stop);
  }

  lemma ProductMonotone(a: nat, b: nat, e: nat)
    requires a <= b
    ensures a * e <= b * e
  {}

  /** Growing a request lowers no component of its cost. */
  lemma CostMonotone(r: Request, r': Request, estimate: Option<nat>, defaultMax: int)
    requires Grows(r, r')
    ensures var c, c' := EstimateCost(r, estimate, defaultMax), EstimateCost(r', estimate, defaultMax);
      && c.input <= c'.input && c.output <= c'.output && c.multimodal <= c'.multimodal && c.total <= c'.total
      && c.structured <= c'.structured && c.mediaParts <= c'.mediaParts
  {
    hide Join, Chunks, StructuredChunks, MediaCount, MessageGrows;
    MessagesMonotone(r.messages, r'.messages);
    JoinMonotone(Chunks(r.messages), Chunks(r'.messages));
    StructuredMonotone(r, r');
    JoinMonotone(StructuredChunks(r), StructuredChunks(r'));
    if estimate.Some? {
      ProductMonotone(MediaCount(r.messages), MediaCount(r'.messages), estimate.value);
    }
  }

  /** A request is over limit exactly when its output, its whole input or its total breaks the bound declared for it. */
  lemma OverLimitExactly(cost: Cost, budgets: Option<Budgets>)
    ensures Evaluate(cost, budgets).overLimit <==>
      budgets.Some? && (Over(budgets.value.maxOutput, cost.output)
                        || Over(budgets.value.maxInput, cost.input + cost.multimodal)
                        || Over(budgets.value.hard, cost.total))
    ensures Evaluate(cost, budgets).overLimit <==> !Evaluate(cost, budgets).withinBudget
  {}

  /** Under fixed budgets a request that is over limit stays over limit however it grows. */
  lemma OverLimitStays(r: Request, r': Request, budgets: Budgets, defaultMax: int)
    requires Grows(r, r')
    requires Evaluate(EstimateCost(r, budgets.multimodalEstimate, defaultMax), Some(budgets)).overLimit
    ensures Evaluate(EstimateCost(r', budgets.multimodalEstimate, defaultMax), Some(budgets)).overLimit
  {
    hide EstimateCost, Grows;
    CostMonotone(r, r', budgets.multimodalEstimate, defaultMax);
  }

  /** Stating a first limit may lower the reservation: the default is reserved only while nothing is stated. */
  lemma FirstLimitMayLower(r: Request, r': Request, defaultMax: int)
    requires r.maxTokens.None? && r.maxCompletionTokens.None?
    requires r' == r.(maxTokens := r'.maxTokens, maxCompletionTokens := r'.maxCompletionTokens)
    requires r'.maxTokens.Some? || r'.maxCompletionTokens.Some?
    ensures OutputLimit(r, defaultMax).0 <= OutputLimit(r', defaultMax).0 <==>
      || defaultMax <= 0
      || (r'.maxTokens.Some? && defaultMax <= r'.maxTokens.value)
      || (r'.maxCompletionTokens.Some? && defaultMax <= r'.maxCompletionTokens.value)
  {}
}
