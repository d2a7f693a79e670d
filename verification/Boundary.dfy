/**
The boundary between an ingress chat request and the body sent upstream: canonical fields and the adapter's declared
extensions cross it, control metadata does not, and unknown fields that look like inference controls are refused.

Lower-casing of field names is a parameter.
*/
module Boundary {
  import opened Core

  datatype Json =
    | Null | Flag(b: bool) | Number(r: real) | Text(s: string) | List(items: seq<Json>)
    | Object(fields: map<string, Json>)

  datatype Message = Message(role: string, content: Json, name: Option<string>, toolCalls: Json, toolCallId: Json)

  datatype Extra = Extra(name: string, value: Json)

  /** An ingress request; `params` holds the optional canonical fields, absent or Null when not given. */
  datatype Ingress = Ingress(
    model: string, messages: seq<Message>, stream: bool, params: map<string, Json>,
    metadata: Json, threadwake: Json, extras: seq<Extra>)

  datatype Backend = Backend(
    model: string, messages: seq<Message>, stream: bool, params: map<string, Json>,
    extras: map<string, Json>, kind: string, forwarded: set<string>, stripped: set<string>)

  datatype Request = Raw(ingress: Ingress) | Sanitized(backend: Backend)

  datatype Outcome<+T> = Accepted(value: T) | Refused(kind: string, fields: set<string>)

  datatype Class = Forward | Strip | Reject

  const REQUIRED: seq<string> := ["model", "messages", "stream"]

  const OPTIONAL: seq<string> := [
    "temperature", "top_p", "max_tokens", "max_completion_tokens", "stop", "user", "tools", "tool_choice",
    "parallel_tool_calls", "response_format", "seed", "presence_penalty", "frequency_penalty", "logit_bias",
    "logprobs", "top_logprobs", "reasoning_effort"]

  predicate CanonicalName(n: string) { n in REQUIRED || n in OPTIONAL }

  const INTERNAL_PREFIXES: seq<string> := [
    "codexify_", "whooshd_", "threadwake", "routing_", "route_", "queue_", "admission_", "cache_", "trace_",
    "diagnostic_", "provenance", "identity_", "persona_", "memory_", "retrieval_", "lifecycle_", "cancel"]

  const INFERENCE_PREFIXES: seq<string> := [
    "temperature", "top_", "max_", "min_", "stop", "seed", "presence_", "frequency_", "logit_", "logprob", "tool",
    "response_", "reasoning", "sampling", "repeat_", "prompt", "message", "stream", "model"]

  const INFERENCE_TOKENS: seq<string> := [
    "temperature", "top", "tokens", "stop", "seed", "tool", "tools", "reasoning", "sampling", "prompt", "message",
    "stream", "model"]

  // ---------------------------------------------------------------------------
  // Classification of extra fields
  // ---------------------------------------------------------------------------

  function Kind(adapter: Option<string>): string {
    if adapter.None? || adapter.value == "" then "generic" else adapter.value
  }

  /** Only one adapter declares extensions; unknown adapters are treated as generic. */
  function Extensions(kind: string): set<string> {
    if kind == "llama_cpp" then {"min_p", "top_k", "repeat_penalty"} else {}
  }

  predicate Letter(c: char) { 'a' <= c <= 'z' || 'A' <= c <= 'Z' }

  predicate FieldName(n: string) {
    && 1 <= |n| <= 81 && Letter(n[0])
    && forall i :: 1 <= i < |n| ==> Letter(n[i]) || '0' <= n[i] <= '9' || n[i] == '_' || n[i] == '.' || n[i] == '-'
  }

  predicate StartsWithAny(n: string, prefixes: seq<string>) { exists i :: 0 <= i < |prefixes| && prefixes[i] <= n }

  predicate Internal(lower: string -> string, n: string) {
    lower(n) == "metadata" || lower(n) == "threadwake" || StartsWithAny(lower(n), INTERNAL_PREFIXES)
  }

  predicate TokenChar(c: char) { 'a' <= c <= 'z' || '0' <= c <= '9' }

  /** The maximal runs of token characters. */
  function Tokens(s: string, run: string): set<string> {
    if s == "" then (if run == "" then {} else {run})
    else if TokenChar(s[0]) then Tokens(s[1..], run + [s[0]])
    else (if run == "" then {} else {run}) + Tokens(s[1..], "")
  }

  predicate InferenceAffecting(lower: string -> string, n: string) {
    || CanonicalName(lower(n)) || StartsWithAny(lower(n), INFERENCE_PREFIXES)
    || exists t :: t in Tokens(lower(n), "") && t in INFERENCE_TOKENS
  }

  function Classify(lower: string -> string, kind: string, n: string): Class {
    if n in Extensions(kind) && FieldName(n) then Forward
    else if Internal(lower, n) then Strip
    else if InferenceAffecting(lower, n) then Reject
    else Strip
  }

  function NamesIn(lower: string -> string, kind: string, extras: seq<Extra>, c: Class): set<string> {
    set i | 0 <= i < |extras| && Classify(lower, kind, extras[i].name) == c :: extras[i].name
  }

  /** The last value under each forwarded name. */
  function Allowed(lower: string -> string, kind: string, extras: seq<Extra>): map<string, Json> {
    if extras == [] then map[]
    else
      var m := Allowed(lower, kind, extras[..|extras|-1]);
      var e := extras[|extras|-1];
      if Classify(lower, kind, e.name) == Forward then m[e.name := e.value] else m
  }

  function Get(m: map<string, Json>, n: string): Json { if n in m then m[n] else Null }

  /** The canonical fields that are given. */
  function Given(params: map<string, Json>): set<string> {
    (set n | n in REQUIRED) + (set n | n in OPTIONAL && Get(params, n) != Null)
  }

  function ControlNames(r: Ingress): set<string> {
    (if r.metadata != Null then {"metadata"} else {}) + (if r.threadwake != Null then {"threadwake"} else {})
  }

  /** `sanitize_chat_request`; a request that is already sanitized passes as it is. */
  function Sanitize(lower: string -> string, request: Request, adapter: Option<string>): Outcome<Backend> {
    match request
    case Sanitized(b) => Accepted(b)
    case Raw(r) =>
      var kind := Kind(adapter);
      var rejected := NamesIn(lower, kind, r.extras, Reject);
      if rejected != {} then Refused(kind, rejected)
      else Accepted(Backend(r.model, r.messages, r.stream, r.params, Allowed(lower, kind, r.extras), kind,
                            Given(r.params) + NamesIn(lower, kind, r.extras, Forward),
                            ControlNames(r) + NamesIn(lower, kind, r.extras, Strip)))
  }

  lemma NamesInGrows(lower: string -> string, kind: string, extras: seq<Extra>, i: nat, c: Class)
    requires i < |extras|
    ensures NamesIn(lower, kind, extras[..i+1], c) ==
      NamesIn(lower, kind, extras[..i], c) + if Classify(lower, kind, extras[i].name) == c then {extras[i].name} else {}
  {
    var a, b := extras[..i], extras[..i+1];
    hide Classify;
    forall n | n in NamesIn(lower, kind, a, c) ensures n in NamesIn(lower, kind, b, c) {
      var j :| 0 <= j < i && Classify(lower, kind, a[j].name) == c && a[j].name == n;
      assert b[j] == a[j];
    }
    forall n | n in NamesIn(lower, kind, b, c) ensures n in NamesIn(lower, kind, a, c) || n == extras[i].name {
      var j :| 0 <= j <= i && Classify(lower, kind, b[j].name) == c && b[j].name == n;
      assert j < i ==> a[j] == b[j];
    }
    assert b[i] == extras[i];
  }

  method SanitizeChatRequest(lower: string -> string, request: Request, adapter: Option<string>)
    returns (out: Outcome<Backend>)
    ensures out == Sanitize(lower, request, adapter)
  {
    hide Classify, NamesIn;
    if request.Sanitized? {
      return Accepted(request.backend);
    }
    var r := request.ingress;
    var kind := Kind(adapter);
    var forwarded, stripped, rejected := {}, {}, {};
    var allowed: map<string, Json> := map[];
    var i := 0;
    assert r.extras[..0] == [];
    NoNames(lower, kind);
    while i < |r.extras|
      invariant 0 <= i <= |r.extras|
      invariant forwarded == NamesIn(lower, kind, r.extras[..i], Forward)
      invariant stripped == NamesIn(lower, kind, r.extras[..i], Strip)
      invariant rejected == NamesIn(lower, kind, r.extras[..i], Reject)
      invariant allowed == Allowed(lower, kind, r.extras[..i])
    {
      var e := r.extras[i];
      assert r.extras[..i+1][..i] == r.extras[..i];
      NamesInGrows(lower, kind, r.extras, i, Forward);
      NamesInGrows(lower, kind, r.extras, i, Strip);
      NamesInGrows(lower, kind, r.extras, i, Reject);
      ClassCases(lower, kind, e.name);
      if e.name in Extensions(kind) && FieldName(e.name) {
        allowed := allowed[e.name := e.value];
        forwarded := forwarded + {e.name};
      } else if Internal(lower, e.name) {
        stripped := stripped + {e.name};
      } else if InferenceAffecting(lower, e.name) {
        rejected := rejected + {e.name};
      } else {
        stripped := stripped + {e.name};
      }
      i := i + 1;
    }
    assert r.extras[..i] == r.extras;
    if rejected != {} {
      return Refused(kind, rejected);
    }
    return Accepted(Backend(r.model, r.messages, r.stream, r.params, allowed, kind,
                            Given(r.params) + forwarded, ControlNames(r) + stripped));
  }

  lemma NoNames(lower: string -> string, kind: string)
    ensures forall c :: NamesIn(lower, kind, [], c) == {}
  {}

  lemma ClassCases(lower: string -> string, kind: string, n: string)
    ensures Classify(lower, kind, n) ==
      if n in Extensions(kind) && FieldName(n) then Forward
      else if !Internal(lower, n) && InferenceAffecting(lower, n) then Reject else Strip
  {}

  // ---------------------------------------------------------------------------
  // The upstream body
  // ---------------------------------------------------------------------------

  function SerializeMessage(m: Message): Json {
    var d := map["role" := Text(m.role), "content" := m.content];
    var d := if m.name.Some? && m.name.value != "" then d["name" := Text(m.name.value)] else d;
    var d := if m.toolCalls != Null then d["tool_calls" := m.toolCalls] else d;
    Object(if m.toolCallId != Null then d["tool_call_id" := m.toolCallId] else d)
  }

  function SerializeMessages(ms: seq<Message>): Json {
    List(seq(|ms|, i requires 0 <= i < |ms| => SerializeMessage(ms[i])))
  }

  function Required(b: Backend, model: Option<string>): map<string, Json> {
    map["model" := Text(if model.Some? && model.value != "" then model.value else b.model),
        "messages" := SerializeMessages(b.messages), "stream" := Flag(b.stream)]
  }

  /** `_maybe_set` */
  function MaybeSet(body: map<string, Json>, b: Backend, n: string): map<string, Json> {
    if Get(b.params, n) != Null && n in b.forwarded then body[n := Get(b.params, n)] else body
  }

  function SetAll(body: map<string, Json>, b: Backend, names: seq<string>): map<string, Json> {
    if names == [] then body else MaybeSet(SetAll(body, b, names[..|names|-1]), b, names[|names|-1])
  }

  function Nonnull(m: map<string, Json>): map<string, Json> { map n | n in m && m[n] != Null :: m[n] }

  /** `build_forward_body`: required fields, then the optional ones that are given, then the extensions. */
  function BodyOf(b: Backend, model: Option<string>): map<string, Json> {
    SetAll(Required(b, model), b, OPTIONAL) + Nonnull(b.extras)
  }

  function ForwardBody(lower: string -> string, request: Request, adapter: Option<string>, model: Option<string>)
    : Outcome<map<string, Json>>
  {
    match Sanitize(lower, request, adapter)
    case Accepted(b) => Accepted(BodyOf(b, model))
    case Refused(k, f) => Refused(k, f)
  }

  method SetOptional(body: map<string, Json>, b: Backend, names: seq<string>) returns (out: map<string, Json>)
    ensures out == SetAll(body, b, names)
  {
    out := body;
    var i := 0;
    while i < |names|
      invariant 0 <= i <= |names|
      invariant out == SetAll(body, b, names[..i])
    {
      assert names[..i+1][..i] == names[..i];
      out := MaybeSet(out, b, names[i]);
      i := i + 1;
    }
    assert names[..i] == names;
  }

  function Excluding(m: map<string, Json>, todo: set<string>): map<string, Json> {
    map n | n in m && n !in todo :: m[n]
  }

  /** One more extension is dealt with. */
  lemma OneMore(body: map<string, Json>, exts: map<string, Json>, todo: set<string>, n: string)
    requires n in todo && n in exts
    ensures body + Nonnull(Excluding(exts, todo - {n})) ==
      if exts[n] != Null then (body + Nonnull(Excluding(exts, todo)))[n := exts[n]]
      else body + Nonnull(Excluding(exts, todo))
  {
    var a, b := Nonnull(Excluding(exts, todo)), Nonnull(Excluding(exts, todo - {n}));
    assert b == if exts[n] != Null then a[n := exts[n]] else a;
  }

  /** The extensions in whatever order the dictionary gives them. */
  method AddExtensions(body: map<string, Json>, exts: map<string, Json>) returns (out: map<string, Json>)
    ensures out == body + Nonnull(exts)
  {
    out := body;
    var todo := exts.Keys;
    assert Excluding(exts, todo) == map[];
    while todo != {}
      invariant todo <= exts.Keys
      invariant out == body + Nonnull(Excluding(exts, todo))
      decreases todo
    {
      var n :| n in todo;
      OneMore(body, exts, todo, n);
      if exts[n] != Null {
        out := out[n := exts[n]];
      }
      todo := todo - {n};
    }
    assert Excluding(exts, {}) == exts;
  }

  method BuildForwardBody(lower: string -> string, request: Request, adapter: Option<string>, model: Option<string>)
    returns (out: Outcome<map<string, Json>>)
    ensures out == ForwardBody(lower, request, adapter, model)
  {
    var s := SanitizeChatRequest(lower, request, adapter);
    if s.Refused? {
      return Refused(s.kind, s.fields);
    }
    hide Sanitize, SetAll, Required, Nonnull;
    var body := SetOptional(Required(s.value, model), s.value, OPTIONAL);
    body := AddExtensions(body, s.value.extras);
    return Accepted(body);
  }

  // ---------------------------------------------------------------------------
  // What crosses the boundary
  // ---------------------------------------------------------------------------

  /** The value of an extra field: its last occurrence. */
  function LastValue(extras: seq<Extra>, n: string): Json {
    if extras == [] then Null
    else if extras[|extras|-1].name == n then extras[|extras|-1].value
    else LastValue(extras[..|extras|-1], n)
  }

  lemma {:induction false} AllowedExactly(lower: string -> string, kind: string, extras: seq<Extra>, n: string)
    ensures Get(Nonnull(Allowed(lower, kind, extras)), n) ==
      if n in Extensions(kind) && FieldName(n) then LastValue(extras, n) else Null
    ensures n in Nonnull(Allowed(lower, kind, extras)) <==> Get(Nonnull(Allowed(lower, kind, extras)), n) != Null
  {
    if extras != [] {
      AllowedExactly(lower, kind, extras[..|extras|-1], n);
      ClassCases(lower, kind, extras[|extras|-1].name);
      hide Classify, Extensions, FieldName;
    }
  }

  lemma ExtensionsAreFieldNames(kind: string, n: string)
    requires n in Extensions(kind)
    ensures FieldName(n) && !CanonicalName(n)
  {}

  lemma {:induction false} SetAllExactly(body: map<string, Json>, b: Backend, names: seq<string>, k: string)
    ensures var out := SetAll(body, b, names);
      if k in names && Get(b.params, k) != Null && k in b.forwarded then k in out && out[k] == Get(b.params, k)
      else (k in out <==> k in body) && (k in out ==> out[k] == body[k])
  {
    if names != [] {
      SetAllExactly(body, b, names[..|names|-1], k);
      assert k in names <==> k in names[..|names|-1] || k == names[|names|-1];
    }
  }

  /** What the body holds under a key, said of the ingress request alone; Null for nothing. */
  function Crossing(r: Ingress, kind: string, model: Option<string>, k: string): Json {
    if k == "model" then Text(if model.Some? && model.value != "" then model.value else r.model)
    else if k == "messages" then SerializeMessages(r.messages)
    else if k == "stream" then Flag(r.stream)
    else if k in OPTIONAL then Get(r.params, k)
    else if k in Extensions(kind) then LastValue(r.extras, k)
    else Null
  }

  lemma RequiredNotOptional(k: string)
    requires k in REQUIRED
    ensures k !in OPTIONAL
  {}

  /** The body of an accepted request is what crosses, key by key. */
  lemma BodyCrosses(lower: string -> string, r: Ingress, adapter: Option<string>, model: Option<string>, k: string)
    requires ForwardBody(lower, Raw(r), adapter, model).Accepted?
    ensures var body := ForwardBody(lower, Raw(r), adapter, model).value;
      && (k in body <==> Crossing(r, Kind(adapter), model, k) != Null)
      && (k in body ==> body[k] == Crossing(r, Kind(adapter), model, k))
  {
    var kind := Kind(adapter);
    var b := Sanitize(lower, Raw(r), adapter).value;
    AllowedExactly(lower, kind, r.extras, k);
    SetAllExactly(Required(b, model), b, OPTIONAL, k);
    assert k in OPTIONAL && Get(r.params, k) != Null ==> k in b.forwarded;
    if k in Extensions(kind) { ExtensionsAreFieldNames(kind, k); }
    if k in REQUIRED { RequiredNotOptional(k); }
    hide Classify, NamesIn, FieldName, Extensions, Allowed, SetAll, SerializeMessages;
  }

  // ---------------------------------------------------------------------------
  // What is refused
  // ---------------------------------------------------------------------------

  /** The first three letters already separate internal prefixes from canonical names. */
  function Head(s: string): string { if |s| < 3 then s else s[..3] }

  predicate InternalHead(h: string) {
    h in ["cod", "who", "thr", "rou", "que", "adm", "cac", "tra", "dia", "pro", "ide", "per", "mem", "ret", "lif",
        "can"]
  }

  predicate CanonicalHead(h: string) {
    h in ["mod", "mes", "str", "tem", "top", "max", "sto", "use", "too", "par", "res", "see", "pre", "fre", "log",
        "rea"]
  }

  lemma RequiredHeads(n: string)
    requires n in REQUIRED
    ensures CanonicalHead(Head(n))
  {
    assert Head("model") == "mod" && Head("messages") == "mes" && Head("stream") == "str";
  }

  lemma OptionalHeads(n: string)
    requires n in OPTIONAL
    ensures CanonicalHead(Head(n))
  {
    assert Head("temperature") == "tem" && Head("top_p") == "top" && Head("max_tokens") == "max";
    assert Head("max_completion_tokens") == "max" && Head("stop") == "sto" && Head("user") == "use";
    assert Head("tools") == "too" && Head("tool_choice") == "too" && Head("parallel_tool_calls") == "par";
    assert Head("response_format") == "res" && Head("seed") == "see" && Head("presence_penalty") == "pre";
    assert Head("frequency_penalty") == "fre" && Head("logit_bias") == "log" && Head("logprobs") == "log";
    assert Head("top_logprobs") == "top" && Head("reasoning_effort") == "rea";
  }

  lemma InternalHeads(p: string)
    requires p in INTERNAL_PREFIXES
    ensures |p| >= 3 && InternalHead(Head(p))
  {
    assert Head("codexify_") == "cod" && Head("whooshd_") == "who" && Head("threadwake") == "thr";
    assert Head("routing_") == "rou" && Head("route_") == "rou" && Head("queue_") == "que";
    assert Head("admission_") == "adm" && Head("cache_") == "cac" && Head("trace_") == "tra";
    assert Head("diagnostic_") == "dia" && Head("provenance") == "pro" && Head("identity_") == "ide";
    assert Head("persona_") == "per" && Head("memory_") == "mem" && Head("retrieval_") == "ret";
    assert Head("lifecycle_") == "lif" && Head("cancel") == "can";
  }

  lemma HeadsDisjoint(h: string)
    ensures !(InternalHead(h) && CanonicalHead(h))
  {}

  lemma CanonicalIsNotInternal(n: string)
    requires CanonicalName(n)
    ensures n != "metadata" && n != "threadwake" && !StartsWithAny(n, INTERNAL_PREFIXES)
  {
    if n in REQUIRED { RequiredHeads(n); } else { OptionalHeads(n); }
    hide InternalHead, CanonicalHead;
    forall i | 0 <= i < |INTERNAL_PREFIXES| ensures !(INTERNAL_PREFIXES[i] <= n) {
      var p := INTERNAL_PREFIXES[i];
      InternalHeads(p);
      HeadsDisjoint(Head(n));
      assert p <= n ==> Head(p) == Head(n);
    }
  }

  /** An extra spelled like a canonical field, in any case, is refused by every adapter. */
  lemma CanonicalExtraRefused(lower: string -> string, kind: string, n: string)
    requires CanonicalName(lower(n)) && n !in Extensions(kind)
    ensures Classify(lower, kind, n) == Reject
  {
    CanonicalIsNotInternal(lower(n));
  }

  /** A request is refused exactly when one of its extras is, whatever the values are. */
  lemma RefusedExactly(lower: string -> string, r: Ingress, adapter: Option<string>)
    ensures Sanitize(lower, Raw(r), adapter).Refused? <==>
      exists i :: 0 <= i < |r.extras| && Classify(lower, Kind(adapter), r.extras[i].name) == Reject
  {
    hide Classify;
    var kind := Kind(adapter);
    if i :| 0 <= i < |r.extras| && Classify(lower, kind, r.extras[i].name) == Reject {
      assert r.extras[i].name in NamesIn(lower, kind, r.extras, Reject);
    }
  }

  lemma ControlsAreNoExtensions(kind: string)
    ensures "metadata" !in Extensions(kind) && "threadwake" !in Extensions(kind)
  {}

  /**
  In an accepted request the names of extras that are forwarded are exactly the declared extensions; the rest are
  stripped.
  */
  lemma ForwardedOrStripped(lower: string -> string, r: Ingress, adapter: Option<string>, i: nat)
    requires Sanitize(lower, Raw(r), adapter).Accepted? && i < |r.extras|
    requires forall n :: CanonicalName(n) ==> lower(n) == n
    ensures var b := Sanitize(lower, Raw(r), adapter).value; var n := r.extras[i].name;
      && (n in b.forwarded <==> n in Extensions(Kind(adapter)))
      && (n in b.stripped <==> n !in Extensions(Kind(adapter)))
  {
    var kind, n := Kind(adapter), r.extras[i].name;
    RefusedExactly(lower, r, adapter);
    ClassCases(lower, kind, n);
    ControlsAreNoExtensions(kind);
    if n in Extensions(kind) {
      ExtensionsAreFieldNames(kind, n);
    } else if CanonicalName(n) {
      CanonicalExtraRefused(lower, kind, n);
    }
    hide Classify, Extensions, CanonicalName, FieldName, Internal, InferenceAffecting;
    assert Classify(lower, kind, n) == (if n in Extensions(kind) then Forward else Strip);
    GivenIsCanonical(r.params, n);
    assert forall c :: n in NamesIn(lower, kind, r.extras, c) <==> Classify(lower, kind, n) == c;
    hide NamesIn, Given;
  }

  lemma GivenIsCanonical(params: map<string, Json>, n: string)
    ensures n in Given(params) ==> CanonicalName(n)
  {}

  /** A body built from a sanitized request is the one its first adapter would get: the second is not consulted. */
  lemma SanitizeIsIdempotent(lower: string -> string, r: Ingress, first: Option<string>, second: Option<string>,
                             model: Option<string>)
    requires Sanitize(lower, Raw(r), first).Accepted?
    ensures var b := Sanitize(lower, Raw(r), first).value;
      && Sanitize(lower, Sanitized(b), second) == Sanitize(lower, Raw(r), first)
      && ForwardBody(lower, Sanitized(b), second, model) == ForwardBody(lower, Raw(r), first, model)
  {}

  /** Every key is canonical or one of the adapter's declared extensions. */
  ghost predicate KeysFit(body: map<string, Json>, adapter: Option<string>) {
    forall k :: k in body ==> CanonicalName(k) || k in Extensions(Kind(adapter))
  }

  /** The keys of a body fit the adapter the request was sanitized for, also when it is built later for another one. */
  lemma KeysWithin(lower: string -> string, r: Ingress, adapter: Option<string>, second: Option<string>,
                   model: Option<string>)
    requires Sanitize(lower, Raw(r), adapter).Accepted?
    ensures KeysFit(ForwardBody(lower, Raw(r), adapter, model).value, adapter)
    ensures KeysFit(ForwardBody(lower, Sanitized(Sanitize(lower, Raw(r), adapter).value), second, model).value, adapter)
  {
    SanitizeIsIdempotent(lower, r, adapter, second, model);
    var body := ForwardBody(lower, Raw(r), adapter, model).value;
    assert ForwardBody(lower, Raw(r), adapter, model).Accepted?;
    hide ForwardBody, Sanitize, CanonicalName, Extensions, LastValue, Crossing;
    forall k | k in body ensures CanonicalName(k) || k in Extensions(Kind(adapter)) {
      BodyCrosses(lower, r, adapter, model, k);
      BeyondCanonical(r, Kind(adapter), model, k);
    }
  }

  /** Every extension given for the first adapter is declared by the second one too. */
  ghost predicate GivenAreDeclared(r: Ingress, first: Option<string>, second: Option<string>) {
    forall k :: k in Extensions(Kind(first)) && LastValue(r.extras, k) != Null ==> k in Extensions(Kind(second))
  }

  /**
  A request sanitized for one adapter gives a body that fits another one exactly when every extension the request gives
  for the first is declared by the second.
  */
  lemma ReuseFitsExactly(lower: string -> string, r: Ingress, first: Option<string>, second: Option<string>,
                         model: Option<string>)
    requires Sanitize(lower, Raw(r), first).Accepted?
    ensures KeysFit(ForwardBody(lower, Sanitized(Sanitize(lower, Raw(r), first).value), second, model).value, second)
      <==> GivenAreDeclared(r, first, second)
  {
    SanitizeIsIdempotent(lower, r, first, second, model);
    var body := ForwardBody(lower, Raw(r), first, model).value;
    assert ForwardBody(lower, Raw(r), first, model).Accepted?;
    hide ForwardBody, Sanitize, CanonicalName, Extensions, LastValue, Crossing;
    forall k
      ensures k in body && !CanonicalName(k) <==> k in Extensions(Kind(first)) && LastValue(r.extras, k) != Null
    {
      BodyCrosses(lower, r, first, model, k);
      BeyondCanonical(r, Kind(first), model, k);
    }
  }

  /** Beyond the canonical fields only given extensions cross. */
  lemma BeyondCanonical(r: Ingress, kind: string, model: Option<string>, k: string)
    ensures Crossing(r, kind, model, k) != Null && !CanonicalName(k) <==>
      k in Extensions(kind) && LastValue(r.extras, k) != Null
  {
    if k in Extensions(kind) { ExtensionsAreFieldNames(kind, k); }
    hide Extensions, SerializeMessages, LastValue;
  }

  /** An input on which it does not fit: a body built for another adapter carries an extension of the first one. */
  lemma PassThroughIgnoresAdapter(lower: string -> string)
    ensures var r := Ingress("m", [], false, map[], Null, Null, [Extra("min_p", Flag(true))]);
      var s := Sanitize(lower, Raw(r), Some("llama_cpp"));
      && s.Accepted?
      && "min_p" in ForwardBody(lower, Sanitized(s.value), Some("mlx_lm"), None).value
      && "min_p" !in Extensions("mlx_lm") && !CanonicalName("min_p")
  {
    var r := Ingress("m", [], false, map[], Null, Null, [Extra("min_p", Flag(true))]);
    ExtensionsAreFieldNames("llama_cpp", "min_p");
    RefusedExactly(lower, r, Some("llama_cpp"));
    BodyCrosses(lower, r, Some("llama_cpp"), None, "min_p");
  }
}
