/**
A reader for canonical documents, written from section 7 of RFC 8259 and section 3 of RFC 3629: strings with their
escapes, objects without white space, and UTF-8 in its shortest form.  Reading a canonical document gives it back.
*/
module CanonicalReader {
  import opened Core
  import opened Canonical
  import opened CanonicalJson

  // ---------------------------------------------------------------------------
  // Strings, section 7 of RFC 8259
  // ---------------------------------------------------------------------------

  function HexValue(c: CodePoint): (r: Option<int>)
    ensures r.Some? ==> 0 <= r.value < 16
  {
    if 0x30 <= c <= 0x39 then Some(c - 0x30)
    else if 0x41 <= c <= 0x46 then Some(c - 0x41 + 10)
    else if 0x61 <= c <= 0x66 then Some(c - 0x61 + 10)
    else None
  }

  /** The character a two-character escape stands for, by its letter. */
  function Unescape(letter: CodePoint): Option<CodePoint> {
    match letter
    case 0x22 => Some(0x22)
    case 0x5C => Some(0x5C)
    case 0x2F => Some(0x2F)
    case 0x62 => Some(0x08)
    case 0x66 => Some(0x0C)
    case 0x6E => Some(0x0A)
    case 0x72 => Some(0x0D)
    case 0x74 => Some(0x09)
    case _ => None
  }

  function FourHex(t: Text): Option<CodePoint>
    requires |t| >= 4
  {
    var a, b, c, d := HexValue(t[0]), HexValue(t[1]), HexValue(t[2]), HexValue(t[3]);
    if a.Some? && b.Some? && c.Some? && d.Some?
    then Some(((a.value * 16 + b.value) * 16 + c.value) * 16 + d.value) else None
  }

  /** One character of a string, with the rest of the text. */
  function ReadChar(t: Text): (r: Option<(CodePoint, Text)>)
    requires t != []
    ensures r.Some? ==> |r.value.1| < |t|
  {
    if t[0] == 0x5C then
      if |t| >= 2 && t[1] != 0x75 then
        var u := Unescape(t[1]);
        if u.Some? then Some((u.value, t[2..])) else None
      else if |t| >= 6 then
        var u := FourHex(t[2..]);
        if u.Some? then Some((u.value, t[6..])) else None
      else None
    else if t[0] < 0x20 || t[0] == 0x22 then None
    else Some((t[0], t[1..]))
  }

  /** The characters up to the closing quote, with the text after it. */
  function ReadChars(t: Text): (r: Option<(Text, Text)>)
    ensures r.Some? ==> |r.value.1| < |t|
    decreases |t|
  {
    if t == [] then None
    else if t[0] == 0x22 then Some(([], t[1..]))
    else
      var c := ReadChar(t);
      if c.None? then None
      else
        var rest := ReadChars(c.value.1);
        if rest.None? then None else Some(([c.value.0] + rest.value.0, rest.value.1))
  }

  function ReadString(t: Text): (r: Option<(Text, Text)>)
    ensures r.Some? ==> |r.value.1| < |t|
  {
    if t == [] || t[0] != 0x22 then None else ReadChars(t[1..])
  }

  // ---------------------------------------------------------------------------
  // Objects
  // ---------------------------------------------------------------------------

  /** A string, or an object of such values, with no white space anywhere. */
  function ReadValue(t: Text): (r: Option<(Doc, Text)>)
    ensures r.Some? ==> |r.value.1| < |t|
    decreases |t|, 0
  {
    if t == [] then None
    else if t[0] == 0x22 then
      var s := ReadString(t);
      if s.None? then None else Some((Str(s.value.0), s.value.1))
    else if t[0] == 0x7B then
      if |t| >= 2 && t[1] == 0x7D then Some((Dict([]), t[2..]))
      else
        var ms := ReadMembers(t[1..]);
        if ms.None? then None else Some((Dict(ms.value.0), ms.value.1))
    else None
  }

  /** One or more members and the closing brace. */
  function ReadMembers(t: Text): (r: Option<(seq<Item>, Text)>)
    ensures r.Some? ==> |r.value.1| < |t|
    decreases |t|, 1
  {
    var k := ReadString(t);
    if k.None? || k.value.1 == [] || k.value.1[0] != 0x3A then None
    else
      var v := ReadValue(k.value.1[1..]);
      if v.None? || v.value.1 == [] then None
      else
        var item, rest := Item(k.value.0, v.value.0), v.value.1;
        if rest[0] == 0x7D then Some(([item], rest[1..]))
        else if rest[0] == 0x2C then
          var more := ReadMembers(rest[1..]);
          if more.None? then None else Some(([item] + more.value.0, more.value.1))
        else None
  }

  // ---------------------------------------------------------------------------
  // Strings read back
  // ---------------------------------------------------------------------------

  lemma HexReads(d: int)
    requires 0 <= d < 16
    ensures HexValue(HexDigit(d)) == Some(d)
  {}

  lemma FourHexReads(c: CodePoint, t: Text)
    requires c < 0x20
    ensures FourHex([0x30, 0x30, HexDigit(c / 16), HexDigit(c % 16)] + t) == Some(c)
  {
    HexReads(c / 16);
    HexReads(c % 16);
    assert HexValue(0x30) == Some(0);
    var u := [0x30, 0x30, HexDigit(c / 16), HexDigit(c % 16)] + t;
    assert u[0] == 0x30 && u[1] == 0x30 && u[2] == HexDigit(c / 16) && u[3] == HexDigit(c % 16);
  }

  /** Each character is written so that it is read back. */
  lemma CharReads(c: CodePoint, t: Text)
    ensures var e := EscapeChar(c) + t; e != [] && e[0] != 0x22 && ReadChar(e) == Some((c, t))
  {
    var x := EscapeChar(c);
    var e := x + t;
    assert e[|x|..] == t;
    if ShortEscape(c).Some? {
      assert x == [BACKSLASH, ShortEscape(c).value];
      assert e[0] == BACKSLASH && e[1] == ShortEscape(c).value && e[2..] == t;
    } else if c < 0x20 {
      assert e[0] == BACKSLASH && e[1] == 0x75 && e[6..] == t;
      assert e[2..] == [0x30, 0x30, HexDigit(c / 16), HexDigit(c % 16)] + t;
      FourHexReads(c, t);
      hide FourHex;
    } else {
      assert e[0] == c && e[1..] == t;
    }
  }

  lemma {:induction false} CharsRead(s: Text, t: Text)
    ensures ReadChars(Escape(s) + ([QUOTE] + t)) == Some((s, t))
  {
    if s == [] {
      assert Escape(s) + ([QUOTE] + t) == [QUOTE] + t;
      assert ([QUOTE] + t)[1..] == t;
    } else {
      var rest := Escape(s[1..]) + ([QUOTE] + t);
      EscapeUnfolds(s, [QUOTE] + t);
      CharReads(s[0], rest);
      CharsRead(s[1..], t);
      hide ReadChar, EscapeChar, Escape;
      assert s == [s[0]] + s[1..];
    }
  }

  /** Reading a quoted text gives the text, and the rest is left. */
  lemma QuoteReads(s: Text, t: Text)
    ensures ReadString(Quote(s) + t) == Some((s, t))
  {
    assert (Quote(s) + t)[0] == QUOTE;
    assert (Quote(s) + t)[1..] == Escape(s) + ([QUOTE] + t);
    hide ReadChars, Escape;
    CharsRead(s, t);
  }

  // ---------------------------------------------------------------------------
  // Documents read back
  // ---------------------------------------------------------------------------

  /** `a` comes before `b` in code-point order: it is a proper beginning of it, or smaller where they first differ. */
  ghost predicate ComesBefore(a: Text, b: Text) {
    exists k :: 0 <= k <= |a| && k <= |b| && a[..k] == b[..k] && BreaksAt(a, b, k)
  }

  ghost predicate BreaksAt(a: Text, b: Text, k: nat)
    requires k <= |a| && k <= |b|
  {
    k < |b| && (k < |a| ==> a[k] < b[k])
  }

  lemma {:induction false} LessComesBefore(a: Text, b: Text)
    requires Less(a, b)
    ensures ComesBefore(a, b)
  {
    if a == [] || a[0] < b[0] {
      assert a[..0] == b[..0] && BreaksAt(a, b, 0);
    } else {
      LessComesBefore(a[1..], b[1..]);
      var x, y := a[1..], b[1..];
      var k :| 0 <= k <= |x| && k <= |y| && x[..k] == y[..k] && BreaksAt(x, y, k);
      assert a[..k+1] == [a[0]] + x[..k] && b[..k+1] == [b[0]] + y[..k];
      assert BreaksAt(a, b, k + 1);
    }
  }

  /** The keys of every object are in strictly ascending order. */
  ghost predicate KeysAscend(d: Doc)
    decreases d
  {
    match d
    case Str(_) => true
    case Dict(items) =>
      && (forall i, j :: 0 <= i < j < |items| ==> ComesBefore(items[i].key, items[j].key))
      && (forall i :: 0 <= i < |items| ==> KeysAscend(items[i].value))
  }

  /** Whatever follows it, `shown` is read as a document equal to `d` with ascending keys. */
  ghost predicate Readable(shown: Text, d: Doc) { forall u :: ReadsAs(shown, d, u) }

  ghost predicate ReadsAs(shown: Text, d: Doc, u: Text) {
    var r := ReadValue(shown + u);
    r.Some? && r.value.1 == u && SameDoc(d, r.value.0) && KeysAscend(r.value.0)
  }

  /** The member of one entry, then the rest. */
  lemma MemberReads(m: Member, v: Doc, w: Text)
    requires Readable(m.shown, v) && w != []
    ensures var k := ReadString(Quote(m.key) + ([COLON] + (m.shown + w)));
      && k == Some((m.key, [COLON] + (m.shown + w))) && k.value.1[1..] == m.shown + w
      && var r := ReadValue(m.shown + w);
      && r.Some? && r.value.1 == w && SameDoc(v, r.value.0) && KeysAscend(r.value.0)
  {
    QuoteReads(m.key, [COLON] + (m.shown + w));
    hide ReadString, ReadValue, Quote, SameDoc, KeysAscend;
    assert ReadsAs(m.shown, v, w);
  }

  /** The items read are those written, in the same order, each with an equal value. */
  ghost predicate ItemsRead(ms: seq<Member>, vs: seq<Doc>, items: seq<Item>) {
    && |items| == |ms| == |vs|
    && forall j :: 0 <= j < |ms| ==>
         items[j].key == ms[j].key && SameDoc(vs[j], items[j].value) && KeysAscend(items[j].value)
  }

  /** The reader's view of one member and what follows it. */
  lemma ReadMembersIs(t: Text, key: Text, x: Text, r: Doc, w: Text)
    requires ReadString(t) == Some((key, [COLON] + x)) && ReadValue(x) == Some((r, w)) && w != []
    ensures w[0] == CLOSE ==> ReadMembers(t) == Some(([Item(key, r)], w[1..]))
    ensures w[0] == COMMA ==> var more := ReadMembers(w[1..]);
      ReadMembers(t) == if more.None? then None else Some(([Item(key, r)] + more.value.0, more.value.1))
  {
    assert ([COLON] + x)[0] == COLON && ([COLON] + x)[1..] == x;
    hide ReadString, ReadValue;
  }

  lemma {:induction false} MembersRead(ms: seq<Member>, vs: seq<Doc>, u: Text)
    requires ms != [] && |vs| == |ms| && forall j :: 0 <= j < |ms| ==> Readable(ms[j].shown, vs[j])
    ensures var r := ReadMembers(Body(ms) + ([CLOSE] + u)); r.Some? && r.value.1 == u && ItemsRead(ms, vs, r.value.0)
    decreases |ms|
  {
    hide Body, Quote, ReadString, ReadValue, ReadMembers, After, SameDoc, KeysAscend, Readable, ItemsRead;
    var w, m := After(ms, u), ms[0];
    BodySplits(ms, u);
    AfterSplits(ms, u);
    MemberReads(m, vs[0], w);
    var r := ReadValue(m.shown + w).value.0;
    ReadMembersIs(Body(ms) + ([CLOSE] + u), m.key, m.shown + w, r, w);
    if |ms| == 1 {
      assert ([CLOSE] + u)[1..] == u;
      NoneRead(ms[1..], vs[1..]);
      assert [Item(m.key, r)] + [] == [Item(m.key, r)];
      OneMoreRead(ms, vs, Item(m.key, r), []);
    } else {
      var rest := Body(ms[1..]) + ([CLOSE] + u);
      assert ([COMMA] + rest)[1..] == rest;
      MembersRead(ms[1..], vs[1..], u);
      OneMoreRead(ms, vs, Item(m.key, r), ReadMembers(rest).value.0);
    }
  }

  lemma NoneRead(ms: seq<Member>, vs: seq<Doc>)
    requires ms == [] && vs == []
    ensures ItemsRead(ms, vs, [])
  {}

  lemma OneMoreRead(ms: seq<Member>, vs: seq<Doc>, x: Item, items: seq<Item>)
    requires ms != [] && |vs| == |ms| && ItemsRead(ms[1..], vs[1..], items)
    requires x.key == ms[0].key && SameDoc(vs[0], x.value) && KeysAscend(x.value)
    ensures ItemsRead(ms, vs, [x] + items)
  {
    hide SameDoc, KeysAscend;
    forall j | 1 <= j < |ms|
      ensures ([x] + items)[j] == items[j-1] && ms[j] == ms[1..][j-1] && vs[j] == vs[1..][j-1]
    {
    }
  }

  /** The value a member was printed from. */
  ghost function SourceOf(d: Doc, m: Member): Doc
    requires d.Dict? && m in Shown(d)
  {
    var i :| 0 <= i < |d.items| && Shown(d)[i] == m;
    d.items[i].value
  }

  /** It is the value under that key, and the member shows it. */
  lemma SourceIs(d: Doc, m: Member, i: nat)
    requires d.Dict? && DistinctKeys(d) && m in Shown(d) && i < |d.items|
    ensures m.shown == Print(SourceOf(d, m))
    ensures exists k :: 0 <= k < |d.items| && d.items[k] == Item(m.key, SourceOf(d, m))
    ensures d.items[i].key == m.key ==> d.items[i].value == SourceOf(d, m)
  {
    var k :| 0 <= k < |d.items| && Shown(d)[k] == m && d.items[k].value == SourceOf(d, m);
    assert d.items[k] == Item(m.key, SourceOf(d, m));
    if d.items[i].key == m.key {
      assert i == k;
    }
  }

  /** Reading the sorted members of a dictionary gives an equal dictionary. */
  lemma SortedReadsSame(d: Doc, ms: seq<Member>, vs: seq<Doc>, items: seq<Item>)
    requires d.Dict? && DistinctKeys(d) && ms == Sort(Shown(d)) && ItemsRead(ms, vs, items)
    requires forall j :: 0 <= j < |ms| ==> ms[j] in Shown(d) && vs[j] == SourceOf(d, ms[j])
    ensures SameDoc(d, Dict(items)) && KeysAscend(Dict(items))
  {
    SortedKeys(d, ms, items);
    forall i, j | 0 <= i < |d.items| && 0 <= j < |items| && d.items[i].key == items[j].key
      ensures SameDoc(d.items[i].value, items[j].value)
    {
      SourceIs(d, ms[j], i);
    }
    ShownDistinct(d);
    SortAscends(Shown(d));
    forall i, j | 0 <= i < j < |items| ensures ComesBefore(items[i].key, items[j].key) {
      LessComesBefore(ms[i].key, ms[j].key);
    }
    hide ComesBefore, Shown, Sort, SourceOf;
  }

  lemma SortedKeys(d: Doc, ms: seq<Member>, items: seq<Item>)
    requires d.Dict? && ms == Sort(Shown(d)) && |items| == |ms|
    requires forall j :: 0 <= j < |ms| ==> items[j].key == ms[j].key
    ensures KeysOf(items) == KeysOf(d.items)
  {
    hide Sort;
    forall k | k in KeysOf(items) ensures k in KeysOf(d.items) {
      var j :| 0 <= j < |items| && items[j].key == k;
      SortElements(Shown(d), ms[j]);
      var i :| 0 <= i < |d.items| && Shown(d)[i] == ms[j];
      assert d.items[i].key == k;
    }
    forall k | k in KeysOf(d.items) ensures k in KeysOf(items) {
      var i :| 0 <= i < |d.items| && d.items[i].key == k;
      ShownMember(d, i);
      var m := Member(k, Print(d.items[i].value));
      SortElements(Shown(d), m);
      assert m in ms;
      var j :| 0 <= j < |ms| && ms[j] == m;
      assert items[j].key == k;
    }
  }

  /** An object with members is read by its members. */
  lemma ObjectReads(t: Text, body: Text)
    requires t == [OPEN] + body && body != [] && body[0] != CLOSE
    ensures var ms := ReadMembers(body);
      ReadValue(t) == if ms.None? then None else Some((Dict(ms.value.0), ms.value.1))
  {
    assert t[0] == OPEN && t[1..] == body && t[1] == body[0];
    hide ReadMembers;
  }

  lemma EmptyReads(u: Text)
    ensures ReadValue([OPEN] + ([CLOSE] + u)) == Some((Dict([]), u))
  {
    var t := [OPEN] + ([CLOSE] + u);
    assert t[0] == OPEN && t[1] == CLOSE && t[2..] == u;
  }

  lemma SourcesReadable(d: Doc, ms: seq<Member>, vs: seq<Doc>)
    requires d.Dict? && DistinctKeys(d)
    requires forall i :: 0 <= i < |d.items| ==> Readable(Print(d.items[i].value), d.items[i].value)
    requires |vs| == |ms| && forall j :: 0 <= j < |ms| ==> ms[j] in Shown(d) && vs[j] == SourceOf(d, ms[j])
    ensures forall j :: 0 <= j < |ms| ==> Readable(ms[j].shown, vs[j])
  {
    hide Readable, Shown, SourceOf, Print;
    forall j | 0 <= j < |ms| ensures Readable(ms[j].shown, vs[j]) {
      if d.items == [] { ShownEmpty(d); }
      SourceIs(d, ms[j], 0);
      var k :| 0 <= k < |d.items| && d.items[k] == Item(ms[j].key, vs[j]);
    }
  }

  lemma ShownEmpty(d: Doc)
    requires d.Dict? && d.items == []
    ensures forall m :: m !in Shown(d)
  {}

  lemma DictReads(d: Doc, u: Text)
    requires d.Dict? && DistinctKeys(d)
    requires forall i :: 0 <= i < |d.items| ==> Readable(Print(d.items[i].value), d.items[i].value)
    ensures ReadsAs(Print(d), d, u)
  {
    assert QUOTE != CLOSE;
    hide *;
    var ms := Sort(Shown(d));
    var body := Body(ms) + ([CLOSE] + u);
    PrintDict(d, u);
    BodyStart(ms, u);
    if ms == [] {
      EmptyBody(u);
      EmptyDict(d);
      EmptyReads(u);
      EmptyReadsAs(d, u);
    } else {
      forall j | 0 <= j < |ms| ensures ms[j] in Shown(d) { SortElements(Shown(d), ms[j]); }
      var vs := seq(|ms|, j requires 0 <= j < |ms| => SourceOf(d, ms[j]));
      SourcesReadable(d, ms, vs);
      MembersRead(ms, vs, u);
      ObjectReads([OPEN] + body, body);
      SortedReadsSame(d, ms, vs, ReadMembers(body).value.0);
      ReadsAsIs(d, u, Dict(ReadMembers(body).value.0));
    }
  }

  lemma EmptyBody(u: Text)
    ensures Body([]) + ([CLOSE] + u) == [CLOSE] + u
  {}

  lemma EmptyReadsAs(d: Doc, u: Text)
    requires d == Dict([]) && ReadValue(Print(d) + u) == Some((Dict([]), u))
    ensures ReadsAs(Print(d), d, u)
  {}

  lemma ReadsAsIs(d: Doc, u: Text, r: Doc)
    requires ReadValue(Print(d) + u) == Some((r, u)) && SameDoc(d, r) && KeysAscend(r)
    ensures ReadsAs(Print(d), d, u)
  {
    hide ReadValue, SameDoc, KeysAscend, Print;
  }

  lemma EmptyDict(d: Doc)
    requires d.Dict? && Sort(Shown(d)) == []
    ensures d == Dict([])
  {
    if d.items != [] {
      ShownMember(d, 0);
      SortElements(Shown(d), Member(d.items[0].key, Print(d.items[0].value)));
    }
  }

  /** A printed document is read back, whatever follows it. */
  lemma {:induction false} PrintedReads(d: Doc)
    requires DistinctKeys(d)
    ensures Readable(Print(d), d)
    decreases d
  {
    if d.Dict? {
      forall i | 0 <= i < |d.items| ensures Readable(Print(d.items[i].value), d.items[i].value) {
        PrintedReads(d.items[i].value);
      }
      forall u ensures ReadsAs(Print(d), d, u) { DictReads(d, u); }
    } else {
      forall u ensures ReadsAs(Print(d), d, u) {
        QuoteReads(d.text, u);
        assert (Print(d) + u)[0] == QUOTE;
        hide ReadString, Quote;
      }
    }
  }

  // ---------------------------------------------------------------------------
  // How strings are written
  // ---------------------------------------------------------------------------

  /** The characters section 7 requires to be escaped: the quote, the backslash and the controls. */
  predicate MustEscape(c: CodePoint) { c == 0x22 || c == 0x5C || c <= 0x1F }

  /** Every form of every character: an escape only where one is required, the short one where there is one. */
  lemma EscapeForms(c: CodePoint)
    ensures !MustEscape(c) ==> EscapeChar(c) == [c]
    ensures c == 0x22 ==> EscapeChar(c) == [0x5C, 0x22]
    ensures c == 0x5C ==> EscapeChar(c) == [0x5C, 0x5C]
    ensures c == 0x08 ==> EscapeChar(c) == [0x5C, 0x62]
    ensures c == 0x0C ==> EscapeChar(c) == [0x5C, 0x66]
    ensures c == 0x0A ==> EscapeChar(c) == [0x5C, 0x6E]
    ensures c == 0x0D ==> EscapeChar(c) == [0x5C, 0x72]
    ensures c == 0x09 ==> EscapeChar(c) == [0x5C, 0x74]
    ensures c <= 0x1F && c !in {0x08, 0x09, 0x0A, 0x0C, 0x0D} ==>
      && |EscapeChar(c)| == 6 && EscapeChar(c)[..4] == [0x5C, 0x75, 0x30, 0x30] && EscapeChar(c)[4] == 0x30 + c / 16
      && EscapeChar(c)[5] == if c % 16 < 10 then 0x30 + c % 16 else 0x57 + c % 16
  {}

  /** Text that needs no escape is written as it is, between quotes. */
  lemma {:induction false} PlainTextIsPlain(s: Text)
    requires forall i :: 0 <= i < |s| ==> !MustEscape(s[i])
    ensures Quote(s) == [0x22] + s + [0x22]
  {
    if s != [] {
      PlainTextIsPlain(s[1..]);
      assert Quote(s[1..]) == [0x22] + s[1..] + [0x22];
      assert Escape(s[1..]) == Quote(s[1..])[1..|Quote(s[1..])|-1] == s[1..];
      EscapeForms(s[0]);
      assert Escape(s) == [s[0]] + s[1..] == s;
    } else {
      assert Escape(s) == s;
    }
  }

  // ---------------------------------------------------------------------------
  // UTF-8, section 3 of RFC 3629
  // ---------------------------------------------------------------------------

  predicate Tail(b: int) { 0x80 <= b <= 0xBF }

  /** One code point in its shortest form, with the rest of the bytes; surrogates and overlong forms are refused. */
  function DecodeOne(bs: seq<Byte>): (r: Option<(CodePoint, seq<Byte>)>)
    requires bs != []
    ensures r.Some? ==> |r.value.1| < |bs|
  {
    var n: nat := |bs|;
    var a: int, b: int := bs[0], if n >= 2 then bs[1] else 0;
    var c: int, d: int := if n >= 3 then bs[2] else 0, if n >= 4 then bs[3] else 0;
    if a <= 0x7F then Some((a, bs[1..]))
    else if 0xC2 <= a <= 0xDF && Tail(b) then Some(((a - 0xC0) * 0x40 + (b - 0x80), bs[2..]))
    else if 0xE0 <= a <= 0xEF && Tail(b) && Tail(c) then
      var point := (a - 0xE0) * 0x1000 + (b - 0x80) * 0x40 + (c - 0x80);
      if point < 0x800 || 0xD800 <= point <= 0xDFFF then None else Some((point, bs[3..]))
    else if 0xF0 <= a <= 0xF4 && Tail(b) && Tail(c) && Tail(d) then
      var point := (a - 0xF0) * 0x40000 + (b - 0x80) * 0x1000 + (c - 0x80) * 0x40 + (d - 0x80);
      if 0x10000 <= point <= 0x10FFFF then Some((point, bs[4..])) else None
    else None
  }

  function Decode(bs: seq<Byte>): Option<Text>
    decreases |bs|
  {
    if bs == [] then Some([])
    else
      var c := DecodeOne(bs);
      if c.None? then None
      else
        var rest := Decode(c.value.1);
        if rest.None? then None else Some([c.value.0] + rest.value)
  }

  lemma CodePointDecodes(c: CodePoint, bs: seq<Byte>)
    requires !Surrogate(c)
    ensures var e := Utf8Char(c) + bs; e != [] && DecodeOne(e) == Some((c, bs))
  {
    var x := Utf8Char(c);
    var e := x + bs;
    assert e[|x|..] == bs;
    CodePointParts(c);
    assert e[0] == x[0];
    assert |x| > 1 ==> e[1] == x[1];
    assert |x| > 2 ==> e[2] == x[2];
    assert |x| > 3 ==> e[3] == x[3];
  }

  /** Decoding encoded text gives the text. */
  lemma {:induction false} TextDecodes(t: Text)
    requires forall i :: 0 <= i < |t| ==> !Surrogate(t[i])
    ensures Decode(Utf8(t)) == Some(t)
  {
    if t != [] {
      CodePointDecodes(t[0], Utf8(t[1..]));
      TextDecodes(t[1..]);
      hide Utf8Char, DecodeOne;
      assert t == [t[0]] + t[1..];
    }
  }

  // ---------------------------------------------------------------------------
  // Whole documents
  // ---------------------------------------------------------------------------

  /** Bytes to document: UTF-8, then one value and nothing after it. */
  function ReadDocument(bs: seq<Byte>): Option<Doc> {
    var t := Decode(bs);
    if t.None? then None
    else
      var r := ReadValue(t.value);
      if r.Some? && r.value.1 == [] then Some(r.value.0) else None
  }

  lemma EncodedReads(d: Doc)
    requires DistinctKeys(d) && Encode(d).Ok?
    ensures var r := ReadDocument(Encode(d).value); r.Some? && SameDoc(d, r.value) && KeysAscend(r.value)
  {
    assert Encode(d) == Ok(Utf8(Print(d))) && forall i :: 0 <= i < |Print(d)| ==> !Surrogate(Print(d)[i]) by {
      hide Print, Lookup, T, Utf8;
    }
    hide *;
    TextDecodes(Print(d));
    PrintedReads(d);
    ReadsAlone(d);
  }

  lemma ReadsAlone(d: Doc)
    requires Readable(Print(d), d) && Decode(Utf8(Print(d))) == Some(Print(d))
    ensures var r := ReadDocument(Utf8(Print(d))); r.Some? && SameDoc(d, r.value) && KeysAscend(r.value)
  {
    assert ReadsAs(Print(d), d, []);
    assert Print(d) + [] == Print(d);
    hide Print, ReadValue, SameDoc, KeysAscend, Decode, Utf8;
  }

  /**
  The bytes of an accepted document are a JSON text, with no white space, for a document equal to the normalized one,
  whose keys ascend in code-point order at every level.
  */
  lemma AcceptedReads(uni: Unicode, raw: Raw)
    requires Canonicalize(uni, raw).Ok?
    ensures var n, r := Normalize(uni, raw, ObjSpec(Layout())).value, ReadDocument(Canonicalize(uni, raw).value);
      r.Some? && SameDoc(n, r.value) && KeysAscend(r.value)
  {
    var spec := ObjSpec(Layout());
    NormalizedKeysDistinct(uni, raw, spec);
    hide Layout, Normalize, Encode, ReadDocument, SameDoc, KeysAscend, DistinctKeys;
    EncodedReads(Normalize(uni, raw, spec).value);
  }
}
