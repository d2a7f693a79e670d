/**
What the boundary does, said of the ingress request alone: the exact content of the upstream body, message by message,
and the exact class of every extra field.  Nothing here is said through the functions that build or classify.
*/
module BoundaryExact {
  import opened Core
  import opened Boundary

  // ---------------------------------------------------------------------------
  // Messages
  // ---------------------------------------------------------------------------

  /** One object per message: role and content always, the other fields exactly when they are given. */
  ghost predicate Renders(m: Message, j: Json) {
    && j.Object?
    && (forall k :: k in j.fields ==> k in {"role", "content", "name", "tool_calls", "tool_call_id"})
    && "role" in j.fields && j.fields["role"] == Text(m.role)
    && "content" in j.fields && j.fields["content"] == m.content
    && ("name" in j.fields <==> m.name.Some? && m.name.value != "")
    && ("name" in j.fields ==> j.fields["name"] == Text(m.name.value))
    && ("tool_calls" in j.fields <==> m.toolCalls != Null)
    && ("tool_calls" in j.fields ==> j.fields["tool_calls"] == m.toolCalls)
    && ("tool_call_id" in j.fields <==> m.toolCallId != Null)
    && ("tool_call_id" in j.fields ==> j.fields["tool_call_id"] == m.toolCallId)
  }

  ghost predicate RendersAll(ms: seq<Message>, j: Json) {
    j.List? && |j.items| == |ms| && forall i :: 0 <= i < |ms| ==> Renders(ms[i], j.items[i])
  }

  lemma MessageRendered(m: Message)
    ensures Renders(m, SerializeMessage(m))
  {}

  lemma MessagesRendered(ms: seq<Message>)
    ensures RendersAll(ms, SerializeMessages(ms))
  {
    forall i | 0 <= i < |ms| ensures Renders(ms[i], SerializeMessages(ms).items[i]) {
      MessageRendered(ms[i]);
    }
  }

  /** A message has one rendering. */
  lemma RenderingUnique(m: Message, i: Json, j: Json)
    requires Renders(m, i) && Renders(m, j)
    ensures i == j
  {
    forall k ensures k in i.fields <==> k in j.fields {
      assert k in i.fields || k in j.fields ==> k in {"role", "content", "name", "tool_calls", "tool_call_id"};
    }
    forall k | k in i.fields ensures i.fields[k] == j.fields[k] {
      assert k in {"role", "content", "name", "tool_calls", "tool_call_id"};
    }
    assert i.fields == j.fields;
  }

  lemma RenderingsUnique(ms: seq<Message>, i: Json, j: Json)
    requires RendersAll(ms, i) && RendersAll(ms, j)
    ensures i == j
  {
    forall k | 0 <= k < |ms| ensures i.items[k] == j.items[k] {
      RenderingUnique(ms[k], i.items[k], j.items[k]);
    }
    assert i.items == j.items;
  }

  // ---------------------------------------------------------------------------
  // The body
  // ---------------------------------------------------------------------------

  /** The optional canonical fields. */
  predicate OptionalField(k: string) {
    || k == "temperature" || k == "top_p" || k == "max_tokens" || k == "max_completion_tokens" || k == "stop"
    || k == "user" || k == "tools" || k == "tool_choice" || k == "parallel_tool_calls" || k == "response_format"
    || k == "seed" || k == "presence_penalty" || k == "frequency_penalty" || k == "logit_bias" || k == "logprobs"
    || k == "top_logprobs" || k == "reasoning_effort"
  }

  /** The extensions an adapter declares: three for llama_cpp, none for any other. */
  predicate Declared(adapter: Option<string>, k: string) {
    adapter == Some("llama_cpp") && (k == "min_p" || k == "top_k" || k == "repeat_penalty")
  }

  lemma OptionalFields(k: string)
    ensures OptionalField(k) <==> k in OPTIONAL
  {}

  lemma DeclaredFields(adapter: Option<string>, k: string)
    ensures Declared(adapter, k) <==> k in Extensions(Kind(adapter))
  {}

  lemma FieldsApart(adapter: Option<string>, k: string)
    ensures OptionalField(k) ==> k != "model" && k != "messages" && k != "stream" && !Declared(adapter, k)
    ensures Declared(adapter, k) ==> k != "model" && k != "messages" && k != "stream"
  {}

  /** No later extra has the same name. */
  ghost predicate LastOf(extras: seq<Extra>, i: int)
    requires 0 <= i < |extras|
  {
    forall j :: i < j < |extras| ==> extras[j].name != extras[i].name
  }

  /** The last value given for an extra field, Null for none. */
  ghost predicate GivenAs(extras: seq<Extra>, k: string, v: Json) {
    || (v == Null && forall i :: 0 <= i < |extras| ==> extras[i].name != k)
    || (exists i :: 0 <= i < |extras| && extras[i] == Extra(k, v) && LastOf(extras, i))
  }

  lemma {:induction false} LastValueGiven(extras: seq<Extra>, k: string)
    ensures GivenAs(extras, k, LastValue(extras, k))
  {
    if extras != [] {
      var n := |extras| - 1;
      var front := extras[..n];
      if extras[n].name == k {
        assert extras[n] == Extra(k, extras[n].value) && LastOf(extras, n);
      } else {
        LastValueGiven(front, k);
        if i :| 0 <= i < |front| && front[i] == Extra(k, LastValue(extras, k)) && LastOf(front, i) {
          assert extras[i] == Extra(k, LastValue(extras, k));
          assert forall j :: i < j < n ==> extras[j] == front[j];
          assert LastOf(extras, i);
        } else {
          assert forall i :: 0 <= i < n ==> extras[i] == front[i];
        }
      }
    }
  }

  lemma GivenOnce(extras: seq<Extra>, k: string, v: Json, w: Json)
    requires GivenAs(extras, k, v) && GivenAs(extras, k, w)
    ensures v == w
  {
    if i :| 0 <= i < |extras| && extras[i] == Extra(k, v) && LastOf(extras, i) {
      var l :| 0 <= l < |extras| && extras[l] == Extra(k, w) && LastOf(extras, l);
      assert i == l;
    }
  }

  /** What may stand under a key of the body of a request. */
  ghost predicate MayHold(r: Ingress, adapter: Option<string>, model: Option<string>, k: string, v: Json) {
    && (k == "model" ==> v == Text(if model.Some? && model.value != "" then model.value else r.model))
    && (k == "messages" ==> RendersAll(r.messages, v))
    && (k == "stream" ==> v == Flag(r.stream))
    && (OptionalField(k) ==> v != Null && k in r.params && v == r.params[k])
    && (Declared(adapter, k) ==> v != Null && GivenAs(r.extras, k, v))
    && (k == "model" || k == "messages" || k == "stream" || OptionalField(k) || Declared(adapter, k))
  }

  /**
  The body of an accepted request holds a value under a key exactly when the request gives one for it, and then that
  value: nothing else is in the body and nothing is lost.
  */
  lemma BodyExactly(lower: string -> string, r: Ingress, adapter: Option<string>, model: Option<string>, k: string)
    requires ForwardBody(lower, Raw(r), adapter, model).Accepted?
    ensures var body := ForwardBody(lower, Raw(r), adapter, model).value;
      && (k in body <==> exists v :: MayHold(r, adapter, model, k, v))
      && (k in body ==> MayHold(r, adapter, model, k, body[k]))
  {
    BodyCrosses(lower, r, adapter, model, k);
    CrossingHolds(r, adapter, model, k);
    hide ForwardBody, Crossing, MayHold;
    var body := ForwardBody(lower, Raw(r), adapter, model).value;
    if k in body {
      assert MayHold(r, adapter, model, k, body[k]);
    }
  }

  lemma CrossingHolds(r: Ingress, adapter: Option<string>, model: Option<string>, k: string)
    ensures var c := Crossing(r, Kind(adapter), model, k);
      && (c != Null ==> MayHold(r, adapter, model, k, c))
      && (c == Null ==> forall v :: !MayHold(r, adapter, model, k, v))
  {
    OptionalFields(k);
    DeclaredFields(adapter, k);
    FieldsApart(adapter, k);
    MessagesRendered(r.messages);
    LastValueGiven(r.extras, k);
    var c := Crossing(r, Kind(adapter), model, k);
    if c == Null {
      forall v ensures !MayHold(r, adapter, model, k, v) {
        if Declared(adapter, k) && GivenAs(r.extras, k, v) {
          GivenOnce(r.extras, k, v, LastValue(r.extras, k));
        }
      }
    }
    hide OptionalField, Declared, RendersAll, SerializeMessages, GivenAs, Extensions, LastValue;
  }

  /** Two requests that give the same values for the canonical fields and the adapter's declared extensions. */
  ghost predicate AgreeOnInference(r: Ingress, q: Ingress, adapter: Option<string>) {
    && r.model == q.model && r.messages == q.messages && r.stream == q.stream
    && (forall k :: OptionalField(k) ==> Get(r.params, k) == Get(q.params, k))
    && (forall k, v :: Declared(adapter, k) ==> (GivenAs(r.extras, k, v) <==> GivenAs(q.extras, k, v)))
  }

  lemma SameHolding(r: Ingress, q: Ingress, adapter: Option<string>, model: Option<string>, k: string, v: Json)
    requires AgreeOnInference(r, q, adapter) && MayHold(r, adapter, model, k, v)
    ensures MayHold(q, adapter, model, k, v)
  {
    assert OptionalField(k) ==> Get(r.params, k) == Get(q.params, k);
    hide OptionalField, Declared, GivenAs, RendersAll;
  }

  lemma HoldingUnique(r: Ingress, adapter: Option<string>, model: Option<string>, k: string, v: Json, w: Json)
    requires MayHold(r, adapter, model, k, v) && MayHold(r, adapter, model, k, w)
    ensures v == w
  {
    if k == "messages" {
      RenderingsUnique(r.messages, v, w);
    } else if Declared(adapter, k) {
      GivenOnce(r.extras, k, v, w);
    }
  }

  /** Control metadata and undeclared extras never influence the body of an accepted request. */
  lemma NonInterference(lower: string -> string, r: Ingress, q: Ingress, adapter: Option<string>, model: Option<string>)
    requires ForwardBody(lower, Raw(r), adapter, model).Accepted?
    requires ForwardBody(lower, Raw(q), adapter, model).Accepted?
    requires AgreeOnInference(r, q, adapter)
    ensures ForwardBody(lower, Raw(r), adapter, model) == ForwardBody(lower, Raw(q), adapter, model)
  {
    var x, y := ForwardBody(lower, Raw(r), adapter, model).value, ForwardBody(lower, Raw(q), adapter, model).value;
    AgreementIsMutual(r, q, adapter);
    hide *;
    forall k ensures (k in x <==> k in y) && (k in x ==> x[k] == y[k]) {
      BodyExactly(lower, r, adapter, model, k);
      BodyExactly(lower, q, adapter, model, k);
      if k in x {
        SameHolding(r, q, adapter, model, k, x[k]);
        HoldingUnique(q, adapter, model, k, x[k], y[k]);
      } else if k in y {
        SameHolding(q, r, adapter, model, k, y[k]);
      }
    }
    assert x == y;
  }

  lemma AgreementIsMutual(r: Ingress, q: Ingress, adapter: Option<string>)
    requires AgreeOnInference(r, q, adapter)
    ensures AgreeOnInference(q, r, adapter)
  {}

  // ---------------------------------------------------------------------------
  // The class of an extra field
  // ---------------------------------------------------------------------------

  /** Control metadata, by the lower-cased name. */
  predicate ControlName(l: string) {
    || l == "metadata" || "threadwake" <= l || "codexify_" <= l || "whooshd_" <= l || "routing_" <= l || "route_" <= l
    || "queue_" <= l || "admission_" <= l || "cache_" <= l || "trace_" <= l || "diagnostic_" <= l || "provenance" <= l
    || "identity_" <= l || "persona_" <= l || "memory_" <= l || "retrieval_" <= l || "lifecycle_" <= l || "cancel" <= l
  }

  /** A name that begins like an inference control. */
  predicate InferencePrefix(l: string) {
    || "temperature" <= l || "top_" <= l || "max_" <= l || "min_" <= l || "stop" <= l || "seed" <= l || "presence_" <= l
    || "frequency_" <= l || "logit_" <= l || "logprob" <= l || "tool" <= l || "response_" <= l || "reasoning" <= l
    || "sampling" <= l || "repeat_" <= l || "prompt" <= l || "message" <= l || "stream" <= l || "model" <= l
  }

  predicate InferenceWord(t: string) {
    || t == "temperature" || t == "top" || t == "tokens" || t == "stop" || t == "seed" || t == "tool" || t == "tools"
    || t == "reasoning" || t == "sampling" || t == "prompt" || t == "message" || t == "stream" || t == "model"
  }

  predicate WordChar(c: char) { 'a' <= c <= 'z' || '0' <= c <= '9' }

  /** `s[i..j]` is a whole word of `s`: letters and digits, with none before or after. */
  predicate WordAt(s: string, i: int, j: int) {
    && 0 <= i < j <= |s| && (forall k :: i <= k < j ==> WordChar(s[k]))
    && (i == 0 || !WordChar(s[i-1])) && (j == |s| || !WordChar(s[j]))
  }

  ghost predicate HasWord(s: string, t: string) { exists i, j :: WordAt(s, i, j) && s[i..j] == t }

  /** Words of a text whose first part `run` is one unfinished word. */
  ghost predicate Unfinished(run: string) { forall k :: 0 <= k < |run| ==> WordChar(run[k]) }

  /** A word of the end of a text is a word of the text, if no word character comes before it. */
  lemma WordShift(s: string, n: nat, rest: string, i: int, j: int)
    requires n <= |s| && s[n..] == rest && 0 <= i && (n == 0 || !WordChar(s[n-1]))
    ensures WordAt(rest, i, j) <==> WordAt(s, n + i, n + j)
    ensures WordAt(rest, i, j) ==> rest[i..j] == s[n + i..n + j]
  {
    assert forall k :: 0 <= k < |rest| ==> rest[k] == s[n + k];
    if WordAt(s, n + i, n + j) {
      assert forall k :: i <= k < j ==> rest[k] == s[n + k];
    }
  }

  /** A text cut at a character that belongs to no word. */
  lemma WordsSplit(run: string, c: char, rest: string, t: string)
    requires Unfinished(run) && !WordChar(c)
    ensures HasWord(run + [c] + rest, t) <==> (run != "" && t == run) || HasWord(rest, t)
  {
    var s, n := run + [c] + rest, |run| + 1;
    assert s[n..] == rest && s[n-1] == c && s[..|run|] == run;
    hide WordAt, WordChar;
    if HasWord(s, t) {
      var i, j :| WordAt(s, i, j) && s[i..j] == t;
      WordWithin(run, c, rest, i, j);
      if i >= n {
        WordShift(s, n, rest, i - n, j - n);
        assert WordAt(rest, i - n, j - n) && rest[i - n..j - n] == t;
      } else {
        assert s[i..j] == run;
      }
    }
    if run != "" && t == run {
      FirstWord(run, c, rest);
      assert WordAt(s, 0, |run|) && s[0..|run|] == t;
    }
    if HasWord(rest, t) {
      var i, j :| WordAt(rest, i, j) && rest[i..j] == t;
      assert 0 <= i by { WordBounds(rest, i, j); }
      WordShift(s, n, rest, i, j);
      assert WordAt(s, n + i, n + j) && s[n + i..n + j] == t;
    }
  }

  lemma WordBounds(s: string, i: int, j: int)
    requires WordAt(s, i, j)
    ensures 0 <= i < j <= |s|
  {}

  lemma FirstWord(run: string, c: char, rest: string)
    requires Unfinished(run) && !WordChar(c) && run != ""
    ensures WordAt(run + [c] + rest, 0, |run|)
  {
    var s := run + [c] + rest;
    assert s[|run|] == c && forall k :: 0 <= k < |run| ==> s[k] == run[k];
  }

  lemma WordWithin(run: string, c: char, rest: string, i: int, j: int)
    requires Unfinished(run) && !WordChar(c) && WordAt(run + [c] + rest, i, j)
    ensures 0 <= i < j <= |run| + 1 + |rest| && ((i == 0 && j == |run| && run != "") || i > |run|)
  {
    var s := run + [c] + rest;
    assert s[|run|] == c && forall k :: 0 <= k < |run| ==> s[k] == run[k] && WordChar(s[k]);
  }

  lemma WholeWord(run: string, t: string)
    requires Unfinished(run)
    ensures HasWord(run, t) <==> run != "" && t == run
  {
    if HasWord(run, t) {
      var i, j :| WordAt(run, i, j) && run[i..j] == t;
      assert i == 0 && j == |run|;
    }
    if run != "" && t == run {
      assert WordAt(run, 0, |run|) && run[0..|run|] == run;
    }
  }

  lemma {:induction false} TokensAreWords(s: string, run: string, t: string)
    requires Unfinished(run)
    ensures t in Tokens(s, run) <==> HasWord(run + s, t)
    decreases |s|
  {
    if s == "" {
      assert run + s == run;
      WholeWord(run, t);
    } else if TokenChar(s[0]) {
      assert run + [s[0]] + s[1..] == run + s;
      TokensAreWords(s[1..], run + [s[0]], t);
    } else {
      assert run + [s[0]] + s[1..] == run + s && "" + s[1..] == s[1..];
      TokensAreWords(s[1..], "", t);
      WordsSplit(run, s[0], s[1..], t);
    }
  }

  lemma ControlNames(l: string)
    ensures ControlName(l) <==> l == "metadata" || l == "threadwake" || StartsWithAny(l, INTERNAL_PREFIXES)
  {
    var ps := INTERNAL_PREFIXES;
    if ControlName(l) && l != "metadata" {
      assert ps[0] == "codexify_" && ps[1] == "whooshd_" && ps[2] == "threadwake" && ps[3] == "routing_"
        && ps[4] == "route_";
      assert ps[5] == "queue_" && ps[6] == "admission_" && ps[7] == "cache_" && ps[8] == "trace_"
        && ps[9] == "diagnostic_";
      assert ps[10] == "provenance" && ps[11] == "identity_" && ps[12] == "persona_" && ps[13] == "memory_";
      assert ps[14] == "retrieval_" && ps[15] == "lifecycle_" && ps[16] == "cancel";
    }
  }

  lemma InferencePrefixes(l: string)
    ensures InferencePrefix(l) <==> StartsWithAny(l, INFERENCE_PREFIXES)
  {
    var ps := INFERENCE_PREFIXES;
    if InferencePrefix(l) {
      assert ps[0] == "temperature" && ps[1] == "top_" && ps[2] == "max_" && ps[3] == "min_" && ps[4] == "stop"
        && ps[5] == "seed";
      assert ps[6] == "presence_" && ps[7] == "frequency_" && ps[8] == "logit_" && ps[9] == "logprob"
        && ps[10] == "tool";
      assert ps[11] == "response_" && ps[12] == "reasoning" && ps[13] == "sampling" && ps[14] == "repeat_"
        && ps[15] == "prompt";
      assert ps[16] == "message" && ps[17] == "stream" && ps[18] == "model";
    }
  }

  lemma InferenceWords(t: string)
    ensures InferenceWord(t) <==> t in INFERENCE_TOKENS
  {}

  lemma InferenceCanonical(l: string)
    ensures CanonicalName(l) <==> l == "model" || l == "messages" || l == "stream" || OptionalField(l)
  {}

  /**
  Every extra field is in exactly one class: forwarded if the adapter declares it; else stripped if its name marks
  control metadata; else refused if it is spelled, begins or contains a word like an inference control; else stripped.
  */
  lemma ClassExactly(lower: string -> string, adapter: Option<string>, n: string)
    ensures var l, c := lower(n), Classify(lower, Kind(adapter), n);
      var control := !Declared(adapter, n) && ControlName(l);
      var refused := !Declared(adapter, n) && !ControlName(l) && LooksLikeInference(l);
      && (c == Forward <==> Declared(adapter, n))
      && (c == Reject <==> refused)
      && (c == Strip <==> control || (!Declared(adapter, n) && !refused))
  {
    var l := lower(n);
    DeclaredFields(adapter, n);
    if n in Extensions(Kind(adapter)) { ExtensionsAreFieldNames(Kind(adapter), n); }
    ControlNames(l);
    InferencePrefixes(l);
    InferenceCanonical(l);
    WordsDecide(l);
    ClassCases(lower, Kind(adapter), n);
    hide Classify, Extensions, FieldName, CanonicalName;
    hide StartsWithAny, ControlName, InferencePrefix, Declared, OptionalField;
    hide Tokens, HasWord;
  }

  ghost predicate LooksLikeInference(l: string) {
    || l == "model" || l == "messages" || l == "stream" || OptionalField(l) || InferencePrefix(l)
    || exists t :: InferenceWord(t) && HasWord(l, t)
  }

  lemma WordsDecide(l: string)
    ensures (exists t :: t in Tokens(l, "") && t in INFERENCE_TOKENS) <==>
      (exists t :: InferenceWord(t) && HasWord(l, t))
  {
    assert "" + l == l;
    forall t ensures (t in Tokens(l, "") <==> HasWord(l, t)) && (InferenceWord(t) <==> t in INFERENCE_TOKENS) {
      TokensAreWords(l, "", t);
      InferenceWords(t);
    }
    hide Tokens, HasWord, InferenceWord;
    if t :| t in Tokens(l, "") && t in INFERENCE_TOKENS {
      assert InferenceWord(t) && HasWord(l, t);
    }
  }

  /** An undeclared extra that is no control metadata and looks like an inference control. */
  ghost predicate Refuses(lower: string -> string, adapter: Option<string>, n: string) {
    !Declared(adapter, n) && !ControlName(lower(n)) && LooksLikeInference(lower(n))
  }

  ghost predicate IsExtra(r: Ingress, n: string) { exists i :: 0 <= i < |r.extras| && r.extras[i].name == n }

  lemma NamesOf(lower: string -> string, kind: string, r: Ingress, c: Class, n: string)
    ensures n in NamesIn(lower, kind, r.extras, c) <==> IsExtra(r, n) && Classify(lower, kind, n) == c
  {
    hide Classify;
  }

  /** A request is accepted exactly when no extra is refused, and otherwise the refused names are reported. */
  lemma RefusedNames(lower: string -> string, r: Ingress, adapter: Option<string>)
    ensures var out := Sanitize(lower, Raw(r), adapter);
      && (out.Accepted? <==> forall n :: IsExtra(r, n) ==> !Refuses(lower, adapter, n))
      && (out.Refused? ==> forall n :: n in out.fields <==> IsExtra(r, n) && Refuses(lower, adapter, n))
  {
    var kind := Kind(adapter);
    var rejected := NamesIn(lower, kind, r.extras, Reject);
    forall n ensures n in rejected <==> IsExtra(r, n) && Refuses(lower, adapter, n) {
      NamesOf(lower, kind, r, Reject, n);
      ClassExactly(lower, adapter, n);
    }
    hide NamesIn, Refuses, IsExtra, Given, Allowed;
    assert rejected != {} <==> exists n :: n in rejected;
  }

  /**
  The names an accepted request forwards are the canonical fields given and the declared extras; the names it strips are
  the control fields given and all other extras.
  */
  lemma ReportedNames(lower: string -> string, r: Ingress, adapter: Option<string>, n: string)
    requires Sanitize(lower, Raw(r), adapter).Accepted?
    ensures var b := Sanitize(lower, Raw(r), adapter).value;
      && (n in b.forwarded <==> CanonicalGiven(r, n) || (IsExtra(r, n) && Declared(adapter, n)))
      && (n in b.stripped <==> ControlGiven(r, n) || (IsExtra(r, n) && !Declared(adapter, n)))
      && b.kind == if adapter.Some? && adapter.value != "" then adapter.value else "generic"
  {
    var kind := Kind(adapter);
    OptionalFields(n);
    ClassExactly(lower, adapter, n);
    NamesOf(lower, kind, r, Forward, n);
    NamesOf(lower, kind, r, Strip, n);
    RefusedNames(lower, r, adapter);
    hide Classify, OptionalField, Declared, ControlName, LooksLikeInference, NamesIn, IsExtra, Allowed;
  }

  ghost predicate CanonicalGiven(r: Ingress, n: string) {
    n == "model" || n == "messages" || n == "stream" || (OptionalField(n) && n in r.params && r.params[n] != Null)
  }

  ghost predicate ControlGiven(r: Ingress, n: string) {
    (n == "metadata" && r.metadata != Null) || (n == "threadwake" && r.threadwake != Null)
  }
}
