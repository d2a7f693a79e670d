/**
Canonical bytes of a qualification identity document: normalization against the fixed document layout, JSON with
sorted keys, and UTF-8.

Unicode normalization (NFC) and case folding are parameters; nothing is assumed about them.
*/
module Canonical {
  import opened Core

  type CodePoint = c: int | 0 <= c < 0x110000
  type Byte = b: int | 0 <= b < 256
  type Text = seq<CodePoint>

  datatype Unicode = Unicode(nfc: Text -> Text, fold: Text -> Text)

  datatype Key = Name(text: Text) | NotText

  datatype RawItem = RawItem(key: Key, value: Raw)

  /** A caller's document: text, a mapping in its iteration order, or any other value. */
  datatype Raw = RawText(text: Text) | RawObject(items: seq<RawItem>) | Other

  datatype Spec = StrSpec | ObjSpec(fields: map<Text, Spec>)

  datatype Item = Item(key: Text, value: Doc)

  /** A normalized document; a dictionary keeps its insertion order. */
  datatype Doc = Str(text: Text) | Dict(items: seq<Item>)

  datatype Error =
    | InvalidEvidence | InvalidObject | NonStringKey | DuplicateKey | UnknownField | Incomplete
    | WrongSchema | WrongProfile | NotEncodable

  datatype Result<+T> = Ok(value: T) | Err(error: Error)

  function T(s: string): Text { seq(|s|, i requires 0 <= i < |s| => s[i] as int) }

  // ---------------------------------------------------------------------------
  // Normalization
  // ---------------------------------------------------------------------------

  predicate ValidEvidence(uni: Unicode, t: Text) {
    t != [] && uni.fold(t) != T("unknown") && uni.fold(t) != T("unavailable") && uni.fold(t) != T("n/a")
  }

  function KeysOf(items: seq<Item>): set<Text> { set i | 0 <= i < |items| :: items[i].key }

  function Normalize(uni: Unicode, raw: Raw, spec: Spec): Result<Doc>
    decreases raw, 1, 0
  {
    match spec
    case StrSpec =>
      if raw.RawText? && ValidEvidence(uni, raw.text) then Ok(Str(uni.nfc(raw.text))) else Err(InvalidEvidence)
    case ObjSpec(fields) =>
      if !raw.RawObject? then Err(InvalidObject)
      else
        var r := NormalizeItems(uni, raw, fields, |raw.items|);
        if r.Err? then Err(r.error)
        else if KeysOf(r.value) != fields.Keys then Err(Incomplete)
        else Ok(Dict(r.value))
  }

  /** The first `n` items, or the first error among them. */
  function NormalizeItems(uni: Unicode, raw: Raw, fields: map<Text, Spec>, n: nat): Result<seq<Item>>
    requires raw.RawObject? && n <= |raw.items|
    decreases raw, 0, n
  {
    if n == 0 then Ok([])
    else
      var done := NormalizeItems(uni, raw, fields, n - 1);
      if done.Err? then done else NormalizeItem(uni, raw, fields, n - 1, done.value)
  }

  function NormalizeItem(uni: Unicode, raw: Raw, fields: map<Text, Spec>, i: nat, done: seq<Item>): Result<seq<Item>>
    requires raw.RawObject? && i < |raw.items|
    decreases raw, 0, i
  {
    var item := raw.items[i];
    if item.key.NotText? then Err(NonStringKey)
    else
      var key := uni.nfc(item.key.text);
      if key in KeysOf(done) then Err(DuplicateKey)
      else if key !in fields then Err(UnknownField)
      else
        var v := Normalize(uni, item.value, fields[key]);
        if v.Err? then Err(v.error) else Ok(done + [Item(key, v.value)])
  }

  /** `_normalize_object`: the loop over a mapping's items, stopping at the first error. */
  method NormalizeObject(uni: Unicode, raw: Raw, spec: Spec) returns (r: Result<Doc>)
    ensures r == Normalize(uni, raw, spec)
    decreases raw
  {
    if spec.StrSpec? {
      if raw.RawText? && ValidEvidence(uni, raw.text) {
        return Ok(Str(uni.nfc(raw.text)));
      }
      return Err(InvalidEvidence);
    }
    if !raw.RawObject? {
      return Err(InvalidObject);
    }
    var normalized: seq<Item> := [];
    var keys: set<Text> := {};
    var i := 0;
    while i < |raw.items|
      invariant 0 <= i <= |raw.items|
      invariant keys == KeysOf(normalized)
      invariant NormalizeItems(uni, raw, spec.fields, i) == Ok(normalized)
    {
      var item := raw.items[i];
      if item.key.NotText? {
        ErrorStays(uni, raw, spec.fields, i + 1, |raw.items|);
        return Err(NonStringKey);
      }
      var key := uni.nfc(item.key.text);
      if key in keys {
        ErrorStays(uni, raw, spec.fields, i + 1, |raw.items|);
        return Err(DuplicateKey);
      }
      keys := keys + {key};
      if key !in spec.fields {
        ErrorStays(uni, raw, spec.fields, i + 1, |raw.items|);
        return Err(UnknownField);
      }
      var v := NormalizeObject(uni, item.value, spec.fields[key]);
      if v.Err? {
        ErrorStays(uni, raw, spec.fields, i + 1, |raw.items|);
        return v;
      }
      KeysOfAppend(normalized, Item(key, v.value));
      normalized := normalized + [Item(key, v.value)];
      i := i + 1;
    }
    if keys != spec.fields.Keys {
      return Err(Incomplete);
    }
    return Ok(Dict(normalized));
  }

  lemma KeysOfAppend(items: seq<Item>, x: Item)
    ensures KeysOf(items + [x]) == KeysOf(items) + {x.key}
  {
    var all := items + [x];
    forall k | k in KeysOf(items) ensures k in KeysOf(all) {
      var i :| 0 <= i < |items| && items[i].key == k;
      assert all[i].key == k;
    }
    assert all[|items|] == x;
  }

  lemma {:induction false} ErrorStays(uni: Unicode, raw: Raw, fields: map<Text, Spec>, m: nat, n: nat)
    requires raw.RawObject? && m <= n <= |raw.items| && NormalizeItems(uni, raw, fields, m).Err?
    ensures NormalizeItems(uni, raw, fields, n) == NormalizeItems(uni, raw, fields, m)
    decreases n
  {
    if m < n {
      ErrorStays(uni, raw, fields, m, n - 1);
    }
  }

  // ---------------------------------------------------------------------------
  // Which documents are accepted
  // ---------------------------------------------------------------------------

  /** A document that fits the layout, said without reference to the order of its items. */
  ghost predicate Conforms(uni: Unicode, raw: Raw, spec: Spec)
    decreases raw
  {
    match spec
    case StrSpec => raw.RawText? && ValidEvidence(uni, raw.text)
    case ObjSpec(fields) =>
      && raw.RawObject?
      && (forall i :: 0 <= i < |raw.items| ==> FieldConforms(uni, raw.items[i], fields))
      && (forall i, j :: 0 <= i < j < |raw.items| ==> KeyOf(uni, raw.items[i]) != KeyOf(uni, raw.items[j]))
      && (forall k :: k in fields ==> exists i :: 0 <= i < |raw.items| && KeyOf(uni, raw.items[i]) == Some(k))
  }

  ghost predicate FieldConforms(uni: Unicode, item: RawItem, fields: map<Text, Spec>)
    decreases item
  {
    item.key.Name? && uni.nfc(item.key.text) in fields && Conforms(uni, item.value, fields[uni.nfc(item.key.text)])
  }

  /** An item's normalized key, if it has one. */
  function KeyOf(uni: Unicode, item: RawItem): Option<Text> {
    if item.key.Name? then Some(uni.nfc(item.key.text)) else None
  }

  ghost predicate ItemsFollow(uni: Unicode, raw: Raw, fields: map<Text, Spec>, items: seq<Item>)
    requires raw.RawObject?
  {
    && |items| <= |raw.items|
    && (forall i :: 0 <= i < |items| ==> ItemFollows(uni, raw.items[i], fields, items[i]))
    && (forall i, j :: 0 <= i < j < |items| ==> items[i].key != items[j].key)
  }

  ghost predicate ItemFollows(uni: Unicode, r: RawItem, fields: map<Text, Spec>, x: Item) {
    && r.key.Name? && x.key == uni.nfc(r.key.text) && x.key in fields
    && Normalize(uni, r.value, fields[x.key]) == Ok(x.value)
  }

  /** Item by item, the outcome is the normalized key with the normalized value. */
  lemma {:induction false} ItemsShape(uni: Unicode, raw: Raw, fields: map<Text, Spec>, n: nat)
    requires raw.RawObject? && n <= |raw.items| && NormalizeItems(uni, raw, fields, n).Ok?
    ensures var items := NormalizeItems(uni, raw, fields, n).value; |items| == n && ItemsFollow(uni, raw, fields, items)
    decreases n
  {
    if n > 0 {
      ItemsShape(uni, raw, fields, n - 1);
      var done := NormalizeItems(uni, raw, fields, n - 1).value;
      var items := NormalizeItems(uni, raw, fields, n).value;
      assert items[..n-1] == done;
      forall i | 0 <= i < n - 1 ensures items[i] == done[i] && done[i].key in KeysOf(done) { }
    }
  }

  lemma DocShape(uni: Unicode, raw: Raw, fields: map<Text, Spec>)
    requires Normalize(uni, raw, ObjSpec(fields)).Ok?
    ensures raw.RawObject?
    ensures var d := Normalize(uni, raw, ObjSpec(fields)).value;
      d.Dict? && |d.items| == |raw.items| && ItemsFollow(uni, raw, fields, d.items) && KeysOf(d.items) == fields.Keys
  {
    ItemsShape(uni, raw, fields, |raw.items|);
  }

  /** If every item conforms and the keys are distinct, no item fails. */
  lemma {:induction false} ItemsSucceed(uni: Unicode, raw: Raw, fields: map<Text, Spec>, n: nat)
    requires raw.RawObject? && n <= |raw.items|
    requires forall i :: 0 <= i < n ==>
      && FieldConforms(uni, raw.items[i], fields)
      && Normalize(uni, raw.items[i].value, fields[KeyOf(uni, raw.items[i]).value]).Ok?
    requires forall i, j :: 0 <= i < j < n ==> KeyOf(uni, raw.items[i]) != KeyOf(uni, raw.items[j])
    ensures NormalizeItems(uni, raw, fields, n).Ok?
    decreases n
  {
    if n > 0 {
      ItemsSucceed(uni, raw, fields, n - 1);
      ItemsShape(uni, raw, fields, n - 1);
      var done := NormalizeItems(uni, raw, fields, n - 1).value;
      forall i | 0 <= i < n - 1 ensures Some(done[i].key) == KeyOf(uni, raw.items[i]) {
        assert ItemFollows(uni, raw.items[i], fields, done[i]);
      }
    }
  }

  lemma {:induction false} AcceptedIfConforms(uni: Unicode, raw: Raw, spec: Spec)
    requires Conforms(uni, raw, spec)
    ensures Normalize(uni, raw, spec).Ok?
    decreases raw
  {
    if spec.ObjSpec? {
      forall i | 0 <= i < |raw.items|
        ensures Normalize(uni, raw.items[i].value, spec.fields[KeyOf(uni, raw.items[i]).value]).Ok?
      {
        assert FieldConforms(uni, raw.items[i], spec.fields);
        AcceptedIfConforms(uni, raw.items[i].value, spec.fields[KeyOf(uni, raw.items[i]).value]);
      }
      hide FieldConforms, ItemsFollow;
      ItemsSucceed(uni, raw, spec.fields, |raw.items|);
      ItemsShape(uni, raw, spec.fields, |raw.items|);
      ItemsComplete(uni, raw, spec.fields, NormalizeItems(uni, raw, spec.fields, |raw.items|).value);
    }
  }

  lemma ItemsComplete(uni: Unicode, raw: Raw, fields: map<Text, Spec>, items: seq<Item>)
    requires raw.RawObject? && ItemsFollow(uni, raw, fields, items) && |items| == |raw.items|
    requires forall k :: k in fields ==> exists i :: 0 <= i < |raw.items| && KeyOf(uni, raw.items[i]) == Some(k)
    ensures KeysOf(items) == fields.Keys
  {
    forall i | 0 <= i < |items| ensures Some(items[i].key) == KeyOf(uni, raw.items[i]) && items[i].key in fields {
      assert ItemFollows(uni, raw.items[i], fields, items[i]);
    }
    forall k | k in fields ensures k in KeysOf(items) {
      var i :| 0 <= i < |raw.items| && KeyOf(uni, raw.items[i]) == Some(k);
      assert items[i].key == k;
    }
  }

  lemma {:induction false} ConformsIfAccepted(uni: Unicode, raw: Raw, spec: Spec)
    requires Normalize(uni, raw, spec).Ok?
    ensures Conforms(uni, raw, spec)
    decreases raw
  {
    if spec.ObjSpec? {
      var fields := spec.fields;
      DocShape(uni, raw, fields);
      var items := Normalize(uni, raw, spec).value.items;
      forall i | 0 <= i < |raw.items|
        ensures FieldConforms(uni, raw.items[i], fields) && Some(items[i].key) == KeyOf(uni, raw.items[i])
      {
        assert ItemFollows(uni, raw.items[i], fields, items[i]);
        ConformsIfAccepted(uni, raw.items[i].value, fields[items[i].key]);
      }
      forall k | k in fields ensures exists i :: 0 <= i < |raw.items| && KeyOf(uni, raw.items[i]) == Some(k) {
        assert k in KeysOf(items);
        var i :| 0 <= i < |items| && items[i].key == k;
        assert KeyOf(uni, raw.items[i]) == Some(k);
      }
    }
  }

  /** Normalization succeeds exactly on the documents that fit the layout, whatever the order of their items. */
  lemma AcceptedExactly(uni: Unicode, raw: Raw, spec: Spec)
    ensures Normalize(uni, raw, spec).Ok? <==> Conforms(uni, raw, spec)
  {
    if Conforms(uni, raw, spec) {
      AcceptedIfConforms(uni, raw, spec);
    } else if Normalize(uni, raw, spec).Ok? {
      ConformsIfAccepted(uni, raw, spec);
    }
  }

  /** No dictionary at any depth has a key twice. */
  ghost predicate DistinctKeys(d: Doc)
    decreases d
  {
    match d
    case Str(_) => true
    case Dict(items) =>
      && (forall i, j :: 0 <= i < j < |items| ==> items[i].key != items[j].key)
      && (forall i :: 0 <= i < |items| ==> DistinctKeys(items[i].value))
  }

  lemma {:induction false} NormalizedKeysDistinct(uni: Unicode, raw: Raw, spec: Spec)
    requires Normalize(uni, raw, spec).Ok?
    ensures DistinctKeys(Normalize(uni, raw, spec).value)
    decreases raw
  {
    if spec.ObjSpec? {
      DocShape(uni, raw, spec.fields);
      var items := Normalize(uni, raw, spec).value.items;
      forall i | 0 <= i < |items| ensures DistinctKeys(items[i].value) {
        assert ItemFollows(uni, raw.items[i], spec.fields, items[i]);
        NormalizedKeysDistinct(uni, raw.items[i].value, spec.fields[items[i].key]);
      }
    }
  }

  // ---------------------------------------------------------------------------
  // Equality of documents
  // ---------------------------------------------------------------------------

  /**
  Equality of normalized documents: dictionaries are equal when they have the same keys and equal values under each.
  */
  ghost predicate SameDoc(a: Doc, b: Doc)
    decreases a
  {
    match a
    case Str(s) => b == Str(s)
    case Dict(xs) =>
      && b.Dict? && KeysOf(xs) == KeysOf(b.items)
      && (forall i, j :: 0 <= i < |xs| && 0 <= j < |b.items| && xs[i].key == b.items[j].key ==>
            SameDoc(xs[i].value, b.items[j].value))
  }

  ghost function RawKeys(uni: Unicode, items: seq<RawItem>): set<Option<Text>> {
    set i | 0 <= i < |items| :: KeyOf(uni, items[i])
  }

  /** Callers' documents that differ only in the order of items and in texts with the same NFC form. */
  ghost predicate Alike(uni: Unicode, a: Raw, b: Raw)
    decreases a
  {
    match a
    case RawText(s) => b.RawText? && uni.nfc(s) == uni.nfc(b.text)
    case Other => b.Other?
    case RawObject(xs) =>
      && b.RawObject? && RawKeys(uni, xs) == RawKeys(uni, b.items)
      && (forall i, j :: 0 <= i < |xs| && 0 <= j < |b.items| && KeyOf(uni, xs[i]) == KeyOf(uni, b.items[j]) ==>
            Alike(uni, xs[i].value, b.items[j].value))
  }

  lemma RawKeysAre(uni: Unicode, raw: Raw, fields: map<Text, Spec>, items: seq<Item>)
    requires raw.RawObject? && ItemsFollow(uni, raw, fields, items) && |items| == |raw.items|
    ensures RawKeys(uni, raw.items) == set k | k in KeysOf(items) :: Some(k)
  {
    forall i | 0 <= i < |items|
      ensures KeyOf(uni, raw.items[i]) == Some(items[i].key) && items[i].key in KeysOf(items)
    {
      assert ItemFollows(uni, raw.items[i], fields, items[i]);
    }
    forall k | k in KeysOf(items) ensures Some(k) in RawKeys(uni, raw.items) {
      var i :| 0 <= i < |items| && items[i].key == k;
      assert KeyOf(uni, raw.items[i]) == Some(k);
    }
  }

  /** Accepted documents normalize to equal documents exactly when they differ only in item order and NFC-equal text. */
  lemma {:induction false} NormalizedSameExactly(uni: Unicode, a: Raw, b: Raw, spec: Spec)
    requires Normalize(uni, a, spec).Ok? && Normalize(uni, b, spec).Ok?
    ensures SameDoc(Normalize(uni, a, spec).value, Normalize(uni, b, spec).value) <==> Alike(uni, a, b)
    decreases a
  {
    if spec.ObjSpec? {
      var fields := spec.fields;
      DocShape(uni, a, fields);
      DocShape(uni, b, fields);
      var xs, ys := Normalize(uni, a, spec).value.items, Normalize(uni, b, spec).value.items;
      RawKeysAre(uni, a, fields, xs);
      RawKeysAre(uni, b, fields, ys);
      forall i, j | 0 <= i < |xs| && 0 <= j < |ys|
        ensures xs[i].key == ys[j].key <==> KeyOf(uni, a.items[i]) == KeyOf(uni, b.items[j])
        ensures xs[i].key == ys[j].key ==>
          (SameDoc(xs[i].value, ys[j].value) <==> Alike(uni, a.items[i].value, b.items[j].value))
      {
        assert ItemFollows(uni, a.items[i], fields, xs[i]) && ItemFollows(uni, b.items[j], fields, ys[j]);
        if xs[i].key == ys[j].key {
          NormalizedSameExactly(uni, a.items[i].value, b.items[j].value, fields[xs[i].key]);
        }
      }
      MatchingTransfers(uni, a, b, xs, ys);
    }
  }

  lemma MatchingTransfers(uni: Unicode, a: Raw, b: Raw, xs: seq<Item>, ys: seq<Item>)
    requires a.RawObject? && b.RawObject? && |xs| == |a.items| && |ys| == |b.items|
    requires KeysOf(xs) == KeysOf(ys) && RawKeys(uni, a.items) == RawKeys(uni, b.items)
    requires forall i, j :: 0 <= i < |xs| && 0 <= j < |ys| ==>
      && (xs[i].key == ys[j].key <==> KeyOf(uni, a.items[i]) == KeyOf(uni, b.items[j]))
      && (xs[i].key == ys[j].key ==>
            (SameDoc(xs[i].value, ys[j].value) <==> Alike(uni, a.items[i].value, b.items[j].value)))
    ensures SameDoc(Dict(xs), Dict(ys)) <==> Alike(uni, a, b)
  {}
}
