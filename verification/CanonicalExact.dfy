/**
Exactly which identity documents have canonical bytes: the fixed layout, the evidence rules and the encodable texts.
*/
module CanonicalExact {
  import opened Core
  import opened Canonical
  import opened CanonicalJson

  // ---------------------------------------------------------------------------
  // Evidence
  // ---------------------------------------------------------------------------

  lemma TextOf(s: string, r: string)
    ensures |T(s)| == |s| && (forall i :: 0 <= i < |s| ==> T(s)[i] == s[i] as int) && (T(s) == T(r) <==> s == r)
  {
    if T(s) == T(r) {
      assert |s| == |r|;
      forall i | 0 <= i < |s| ensures s[i] == r[i] {
        assert T(s)[i] == T(r)[i];
      }
      assert s == r;
    }
  }

  /** Evidence is any text but the empty one and those that fold to "unknown", "unavailable" or "n/a". */
  lemma EvidenceExactly(uni: Unicode, t: Text)
    ensures ValidEvidence(uni, t) <==>
      && t != []
      && uni.fold(t) != [0x75, 0x6E, 0x6B, 0x6E, 0x6F, 0x77, 0x6E]
      && uni.fold(t) != [0x75, 0x6E, 0x61, 0x76, 0x61, 0x69, 0x6C, 0x61, 0x62, 0x6C, 0x65]
      && uni.fold(t) != [0x6E, 0x2F, 0x61]
  {
    assert T("unknown") == [0x75, 0x6E, 0x6B, 0x6E, 0x6F, 0x77, 0x6E];
    assert T("unavailable") == [0x75, 0x6E, 0x61, 0x76, 0x61, 0x69, 0x6C, 0x61, 0x62, 0x6C, 0x65];
    assert T("n/a") == [0x6E, 0x2F, 0x61];
  }

  // ---------------------------------------------------------------------------
  // The layout
  // ---------------------------------------------------------------------------

  /** Field `f` holds one text. */
  ghost predicate HoldsText(f: string) { T(f) in Layout() && Layout()[T(f)] == StrSpec }

  /** Field `f` holds two texts, under these names and no others. */
  ghost predicate HoldsPair(f: string, a: string, b: string) {
    T(f) in Layout() && Layout()[T(f)] == ObjSpec(map[T(a) := StrSpec, T(b) := StrSpec])
  }

  /** Length and first letter tell the sixteen names apart. */
  function Mark(name: string): int { if name == "" then 0 else 1000 * |name| + name[0] as int }

  const MARKS: seq<int> := [26097, 24099, 19105, 17114, 17097, 12113, 12114, 7097, 22119, 15115, 18115, 9116, 25099,
                            20116, 20115, 30113]

  lemma Marks0()
    ensures forall i :: 0 <= i < 4 ==> Mark(FIELDS[i].name) == MARKS[i]
  {
    assert FIELDS[0].name == "attestation_schema_version" && |"attestation_schema_version"| == 26;
    assert FIELDS[1].name == "canonicalization_profile" && |"canonicalization_profile"| == 24;
    assert FIELDS[2].name == "invocation_model_id" && |"invocation_model_id"| == 19;
    assert FIELDS[3].name == "resolved_model_id" && |"resolved_model_id"| == 17;
  }

  lemma Marks1()
    ensures forall i :: 4 <= i < 8 ==> Mark(FIELDS[i].name) == MARKS[i]
  {
    assert FIELDS[4].name == "artifact_identity" && |"artifact_identity"| == 17;
    assert FIELDS[5].name == "quantization" && |"quantization"| == 12;
    assert FIELDS[6].name == "runtime_kind" && |"runtime_kind"| == 12;
    assert FIELDS[7].name == "adapter" && |"adapter"| == 7;
  }

  lemma Marks2()
    ensures forall i :: 8 <= i < 12 ==> Mark(FIELDS[i].name) == MARKS[i]
  {
    assert FIELDS[8].name == "whooshd_build_identity" && |"whooshd_build_identity"| == 22;
    assert FIELDS[9].name == "serving_runtime" && |"serving_runtime"| == 15;
    assert FIELDS[10].name == "structured_decoder" && |"structured_decoder"| == 18;
    assert FIELDS[11].name == "tokenizer" && |"tokenizer"| == 9;
  }

  lemma Marks3()
    ensures forall i :: 12 <= i < 16 ==> Mark(FIELDS[i].name) == MARKS[i]
  {
    assert FIELDS[12].name == "chat_template_fingerprint" && |"chat_template_fingerprint"| == 25;
    assert FIELDS[13].name == "tool_template_parser" && |"tool_template_parser"| == 20;
    assert FIELDS[14].name == "structured_transport" && |"structured_transport"| == 20;
    assert FIELDS[15].name == "qualification_protocol_version" && |"qualification_protocol_version"| == 30;
  }

  lemma MarksDiffer(i: int, j: int)
    requires 0 <= i < j < 16
    ensures MARKS[i] != MARKS[j]
  {}

  lemma NamesDiffer(i: int, j: int)
    requires 0 <= i < j < |FIELDS|
    ensures FIELDS[i].name != FIELDS[j].name
  {
    Marks0();
    Marks1();
    Marks2();
    Marks3();
    MarksDiffer(i, j);
    hide Mark, FIELDS, MARKS;
  }

  /** A field is laid out as its last mention says. */
  lemma {:induction false} LaidOut(fs: seq<Field>, i: nat)
    requires i < |fs| && forall j :: i < j < |fs| ==> fs[j].name != fs[i].name
    ensures T(fs[i].name) in SpecOf(fs) && SpecOf(fs)[T(fs[i].name)] == FieldSpec(fs[i])
  {
    var n := |fs| - 1;
    if i < n {
      LaidOut(fs[..n], i);
      TextOf(fs[i].name, fs[n].name);
    }
    hide T;
  }

  lemma FieldLaidOut(i: nat)
    requires i < |FIELDS|
    ensures T(FIELDS[i].name) in Layout() && Layout()[T(FIELDS[i].name)] == FieldSpec(FIELDS[i])
  {
    forall j | i < j < |FIELDS| ensures FIELDS[j].name != FIELDS[i].name { NamesDiffer(i, j); }
    hide FIELDS, T, SpecOf, FieldSpec;
    LaidOut(FIELDS, i);
  }

  lemma {:induction false} OnlyMentioned(fs: seq<Field>, k: Text)
    requires k in SpecOf(fs)
    ensures exists i :: 0 <= i < |fs| && k == T(fs[i].name)
  {
    var n := |fs| - 1;
    if k != T(fs[n].name) {
      OnlyMentioned(fs[..n], k);
      var i :| 0 <= i < n && k == T(fs[..n][i].name);
      assert k == T(fs[i].name);
    }
    hide T;
  }

  lemma PlainAt(i: nat, f: string)
    requires i < |FIELDS| && FIELDS[i] == Plain(f)
    ensures HoldsText(f)
  {
    hide FIELDS, T, Layout;
    FieldLaidOut(i);
  }

  lemma BothAt(i: nat, f: string, a: string, b: string)
    requires i < |FIELDS| && FIELDS[i] == Both(f, a, b)
    ensures HoldsPair(f, a, b)
  {
    hide FIELDS, T, Layout;
    FieldLaidOut(i);
  }

  /** The nine fields of a v1 document that hold one text. */
  lemma LayoutTexts()
    ensures HoldsText("attestation_schema_version") && HoldsText("canonicalization_profile")
    ensures HoldsText("invocation_model_id")
    ensures HoldsText("resolved_model_id") && HoldsText("quantization") && HoldsText("runtime_kind")
    ensures HoldsText("whooshd_build_identity") && HoldsText("chat_template_fingerprint")
    ensures HoldsText("qualification_protocol_version")
  {
    hide HoldsText, T, Layout;
    PlainAt(0, "attestation_schema_version");
    PlainAt(1, "canonicalization_profile");
    PlainAt(2, "invocation_model_id");
    PlainAt(3, "resolved_model_id");
    PlainAt(5, "quantization");
    PlainAt(6, "runtime_kind");
    PlainAt(8, "whooshd_build_identity");
    PlainAt(12, "chat_template_fingerprint");
    PlainAt(15, "qualification_protocol_version");
  }

  /** The seven fields that hold a pair. */
  lemma LayoutPairs()
    ensures HoldsPair("artifact_identity", "kind", "value")
    ensures HoldsPair("adapter", "name", "semantic_build")
    ensures HoldsPair("serving_runtime", "package", "version")
    ensures HoldsPair("structured_decoder", "package", "version")
    ensures HoldsPair("tokenizer", "implementation", "identity_fingerprint")
    ensures HoldsPair("tool_template_parser", "relationship", "identity_fingerprint")
    ensures HoldsPair("structured_transport", "mode", "protocol_version")
  {
    hide HoldsPair, T, Layout;
    BothAt(4, "artifact_identity", "kind", "value");
    BothAt(7, "adapter", "name", "semantic_build");
    BothAt(9, "serving_runtime", "package", "version");
    BothAt(10, "structured_decoder", "package", "version");
    BothAt(11, "tokenizer", "implementation", "identity_fingerprint");
    BothAt(13, "tool_template_parser", "relationship", "identity_fingerprint");
    BothAt(14, "structured_transport", "mode", "protocol_version");
  }

  /** There are no other fields. */
  lemma OnlyTheseFields(k: Text)
    requires k in Layout()
    ensures
      || k == T("attestation_schema_version") || k == T("canonicalization_profile")
      || k == T("invocation_model_id") || k == T("resolved_model_id")
      || k == T("artifact_identity") || k == T("quantization")
      || k == T("runtime_kind") || k == T("adapter")
      || k == T("whooshd_build_identity") || k == T("serving_runtime")
      || k == T("structured_decoder") || k == T("tokenizer")
      || k == T("chat_template_fingerprint") || k == T("tool_template_parser")
      || k == T("structured_transport") || k == T("qualification_protocol_version")
  {
    OnlyMentioned(FIELDS, k);
    hide T;
  }

  // ---------------------------------------------------------------------------
  // Encodable documents
  // ---------------------------------------------------------------------------

  ghost predicate NoSurrogate(t: Text) { forall i :: 0 <= i < |t| ==> !Surrogate(t[i]) }

  /** No text of the document, key or value, holds a lone surrogate. */
  ghost predicate Encodable(d: Doc)
    decreases d
  {
    match d
    case Str(s) => NoSurrogate(s)
    case Dict(items) => forall i :: 0 <= i < |items| ==> NoSurrogate(items[i].key) && Encodable(items[i].value)
  }

  lemma NoSurrogateConcat(a: Text, b: Text)
    ensures NoSurrogate(a + b) <==> NoSurrogate(a) && NoSurrogate(b)
  {
    var c := a + b;
    assert forall i :: 0 <= i < |a| ==> c[i] == a[i];
    assert forall i :: 0 <= i < |b| ==> c[|a| + i] == b[i];
    if NoSurrogate(c) {
      forall i | 0 <= i < |b| ensures !Surrogate(b[i]) { assert c[|a| + i] == b[i]; }
    }
  }

  lemma {:induction false} EscapeSurrogates(s: Text)
    ensures NoSurrogate(Escape(s)) <==> NoSurrogate(s)
  {
    if s != [] {
      EscapeSurrogates(s[1..]);
      NoSurrogateConcat(EscapeChar(s[0]), Escape(s[1..]));
      NoSurrogateConcat([s[0]], s[1..]);
      assert s == [s[0]] + s[1..];
      CharSurrogate(s[0]);
      hide EscapeChar, NoSurrogate;
    }
  }

  lemma CharSurrogate(c: CodePoint)
    ensures NoSurrogate(EscapeChar(c)) <==> NoSurrogate([c])
  {
    if NoSurrogate(EscapeChar(c)) && EscapeChar(c) == [c] {
      assert !Surrogate([c][0]);
    }
    if NoSurrogate([c]) {
      assert !Surrogate([c][0]);
    }
  }

  lemma QuoteSurrogates(s: Text)
    ensures NoSurrogate(Quote(s)) <==> NoSurrogate(s)
  {
    EscapeSurrogates(s);
    NoSurrogateConcat([QUOTE] + Escape(s), [QUOTE]);
    NoSurrogateConcat([QUOTE], Escape(s));
    assert NoSurrogate([QUOTE]);
    hide Escape, NoSurrogate;
  }

  lemma {:induction false} BodySurrogates(ms: seq<Member>)
    ensures NoSurrogate(Body(ms)) <==> forall j :: 0 <= j < |ms| ==> NoSurrogate(ms[j].key) && NoSurrogate(ms[j].shown)
  {
    if ms != [] {
      BodySurrogates(ms[1..]);
      MemberSurrogates(ms[0]);
      assert NoSurrogate([COMMA]) && NoSurrogate([]);
      var tail := if |ms| == 1 then [] else [COMMA] + Body(ms[1..]);
      NoSurrogateConcat(ShowMember(ms[0]), tail);
      NoSurrogateConcat([COMMA], Body(ms[1..]));
      assert Body(ms) == ShowMember(ms[0]) + tail;
      hide NoSurrogate, Body, ShowMember;
      assert forall j :: 1 <= j < |ms| ==> ms[j] == ms[1..][j-1];
      if NoSurrogate(Body(ms)) {
        forall j | 0 <= j < |ms| ensures NoSurrogate(ms[j].key) && NoSurrogate(ms[j].shown) {
          if j > 0 { assert ms[j] == ms[1..][j-1]; }
        }
      }
      if forall j :: 0 <= j < |ms| ==> NoSurrogate(ms[j].key) && NoSurrogate(ms[j].shown) {
        assert ms[0] == ms[0];
        forall j | 0 <= j < |ms[1..]| ensures NoSurrogate(ms[1..][j].key) && NoSurrogate(ms[1..][j].shown) {
          assert ms[1..][j] == ms[j+1];
        }
      }
    }
  }

  lemma MemberSurrogates(m: Member)
    ensures NoSurrogate(ShowMember(m)) <==> NoSurrogate(m.key) && NoSurrogate(m.shown)
  {
    QuoteSurrogates(m.key);
    NoSurrogateConcat(Quote(m.key) + [COLON], m.shown);
    NoSurrogateConcat(Quote(m.key), [COLON]);
    assert NoSurrogate([COLON]);
    hide Quote, NoSurrogate;
  }

  lemma {:induction false} PrintSurrogates(d: Doc)
    ensures NoSurrogate(Print(d)) <==> Encodable(d)
    decreases d
  {
    if d.Str? {
      QuoteSurrogates(d.text);
    } else {
      var ms := Sort(Shown(d));
      forall i | 0 <= i < |d.items| ensures NoSurrogate(Print(d.items[i].value)) <==> Encodable(d.items[i].value) {
        PrintSurrogates(d.items[i].value);
      }
      BodySurrogates(ms);
      assert Print(d) == [OPEN] + Body(ms) + [CLOSE];
      NoSurrogateConcat([OPEN] + Body(ms), [CLOSE]);
      NoSurrogateConcat([OPEN], Body(ms));
      assert NoSurrogate([OPEN]) && NoSurrogate([CLOSE]);
      MembersSurrogates(d, ms);
      hide NoSurrogate, Body, Sort, Shown, Print;
    }
  }

  lemma MembersSurrogates(d: Doc, ms: seq<Member>)
    requires d.Dict? && ms == Sort(Shown(d))
    ensures (forall j :: 0 <= j < |ms| ==> NoSurrogate(ms[j].key) && NoSurrogate(ms[j].shown)) <==>
      (forall i :: 0 <= i < |d.items| ==> NoSurrogate(d.items[i].key) && NoSurrogate(Print(d.items[i].value)))
  {
    hide NoSurrogate, Sort, Print;
    if forall j :: 0 <= j < |ms| ==> NoSurrogate(ms[j].key) && NoSurrogate(ms[j].shown) {
      forall i | 0 <= i < |d.items| ensures NoSurrogate(d.items[i].key) && NoSurrogate(Print(d.items[i].value)) {
        ShownMember(d, i);
        var m := Member(d.items[i].key, Print(d.items[i].value));
        SortElements(Shown(d), m);
        assert m in ms;
        var j :| 0 <= j < |ms| && ms[j] == m;
      }
    }
    if forall i :: 0 <= i < |d.items| ==> NoSurrogate(d.items[i].key) && NoSurrogate(Print(d.items[i].value)) {
      forall j | 0 <= j < |ms| ensures NoSurrogate(ms[j].key) && NoSurrogate(ms[j].shown) {
        SortElements(Shown(d), ms[j]);
        var i :| 0 <= i < |d.items| && Shown(d)[i] == ms[j];
      }
    }
  }

  // ---------------------------------------------------------------------------
  // Which documents have canonical bytes
  // ---------------------------------------------------------------------------

  /** Some item with this key, up to NFC, holds this text, up to NFC. */
  ghost predicate Says(uni: Unicode, raw: Raw, key: string, text: string) {
    raw.RawObject? && exists i :: 0 <= i < |raw.items| && SaysAt(uni, raw.items[i], key, text)
  }

  ghost predicate SaysAt(uni: Unicode, x: RawItem, key: string, text: string) {
    && x.key.Name? && uni.nfc(x.key.text) == T(key) && x.value.RawText? && uni.nfc(x.value.text) == T(text)
  }

  lemma LookupSays(uni: Unicode, raw: Raw, key: string, text: string)
    requires Normalize(uni, raw, ObjSpec(Layout())).Ok? && HoldsText(key)
    ensures var d := Normalize(uni, raw, ObjSpec(Layout())).value;
      d.Dict? && (Lookup(d.items, T(key)) == Some(Str(T(text))) <==> Says(uni, raw, key, text))
  {
    var fields := Layout();
    hide Layout, T;
    DocShape(uni, raw, fields);
    var items := Normalize(uni, raw, ObjSpec(fields)).value.items;
    LookupIs(items, T(key));
    if Lookup(items, T(key)) == Some(Str(T(text))) {
      var i :| 0 <= i < |items| && items[i] == Item(T(key), Str(T(text)));
      assert ItemFollows(uni, raw.items[i], fields, items[i]);
      assert SaysAt(uni, raw.items[i], key, text);
    }
    if Says(uni, raw, key, text) {
      var i :| 0 <= i < |raw.items| && SaysAt(uni, raw.items[i], key, text);
      assert ItemFollows(uni, raw.items[i], fields, items[i]);
      assert items[i] == Item(T(key), Str(T(text)));
      assert T(key) in KeysOf(items);
      var j :| 0 <= j < |items| && items[j] == Item(T(key), Lookup(items, T(key)).value);
      assert i == j;
    }
  }

  /**
  A document has canonical bytes exactly when it fits the layout, names the v1 schema and the canonical profile, and
  holds no lone surrogate once normalized.
  */
  lemma CanonicalizeExactly(uni: Unicode, raw: Raw)
    ensures Canonicalize(uni, raw).Ok? <==>
      && Conforms(uni, raw, ObjSpec(Layout()))
      && Says(uni, raw, "attestation_schema_version", "whooshd.qualification-attestation.v1")
      && Says(uni, raw, "canonicalization_profile", "whooshd.qualification-attestation.canonical-json.v1")
      && var n := Normalize(uni, raw, ObjSpec(Layout())); n.Ok? && Encodable(n.value)
  {
    var spec := ObjSpec(Layout());
    AcceptedExactly(uni, raw, spec);
    if Conforms(uni, raw, spec) {
      LayoutTexts();
      hide Layout, Conforms, HoldsText, Normalize, Says, T, Print, Encodable, Utf8;
      LookupSays(uni, raw, "attestation_schema_version", "whooshd.qualification-attestation.v1");
      LookupSays(uni, raw, "canonicalization_profile", "whooshd.qualification-attestation.canonical-json.v1");
      PrintSurrogates(Normalize(uni, raw, spec).value);
    }
    hide Layout, Conforms, Normalize, Encode;
  }
}
