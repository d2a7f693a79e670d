/**
The canonical printer: JSON with sorted keys, no spaces and no escapes beyond those section 7 of RFC 8259 requires,
then UTF-8.  Two accepted documents print the same bytes exactly when they differ only in item order and NFC-equal text.
*/
module CanonicalJson {
  import opened Core
  import opened Canonical

  // ---------------------------------------------------------------------------
  // Strings
  // ---------------------------------------------------------------------------

  const QUOTE: CodePoint := 0x22
  const BACKSLASH: CodePoint := 0x5C
  const COMMA: CodePoint := 0x2C
  const COLON: CodePoint := 0x3A
  const OPEN: CodePoint := 0x7B
  const CLOSE: CodePoint := 0x7D

  function HexDigit(d: int): CodePoint
    requires 0 <= d < 16
  {
    if d < 10 then 0x30 + d else 0x61 + d - 10
  }

  /** The letter of a two-character escape. */
  function ShortEscape(c: CodePoint): Option<CodePoint> {
    if c == QUOTE then Some(QUOTE)
    else if c == BACKSLASH then Some(BACKSLASH)
    else if c == 0x08 then Some(0x62)
    else if c == 0x0C then Some(0x66)
    else if c == 0x0A then Some(0x6E)
    else if c == 0x0D then Some(0x72)
    else if c == 0x09 then Some(0x74)
    else None
  }

  function EscapeChar(c: CodePoint): Text {
    if ShortEscape(c).Some? then [BACKSLASH, ShortEscape(c).value]
    else if c < 0x20 then [BACKSLASH, 0x75, 0x30, 0x30, HexDigit(c / 16), HexDigit(c % 16)]
    else [c]
  }

  function Escape(s: Text): Text {
    if s == [] then [] else EscapeChar(s[0]) + Escape(s[1..])
  }

  function Quote(s: Text): Text { [QUOTE] + Escape(s) + [QUOTE] }

  /** Escapes form a prefix code. */
  lemma EscapeCharUnique(c: CodePoint, d: CodePoint, t: Text, u: Text)
    requires EscapeChar(c) + t == EscapeChar(d) + u
    ensures c == d && t == u
  {
    var x, y := EscapeChar(c), EscapeChar(d);
    assert forall i :: 0 <= i < |x| ==> (x + t)[i] == x[i];
    assert forall i :: 0 <= i < |y| ==> (x + t)[i] == y[i];
    assert x[0] == y[0];
    if |x| > 1 {
      assert x[1] == y[1];
      if |x| > 2 {
        assert x[4] == y[4] && x[5] == y[5];
      }
    }
    assert c == d;
    assert t == (x + t)[|x|..] == (y + u)[|y|..] == u;
  }

  lemma Regroup(a: Text, b: Text, c: Text)
    ensures (a + b) + c == a + (b + c)
  {}

  lemma EscapeStart(s: Text, t: Text)
    ensures (Escape(s) + ([QUOTE] + t))[0] == QUOTE <==> s == []
  {
    if s != [] {
      var x := EscapeChar(s[0]);
      assert |x| >= 1 && x[0] != QUOTE;
      assert Escape(s)[0] == x[0];
    }
  }

  lemma EscapeUnfolds(s: Text, t: Text)
    requires s != []
    ensures Escape(s) + t == EscapeChar(s[0]) + (Escape(s[1..]) + t)
  {
    Regroup(EscapeChar(s[0]), Escape(s[1..]), t);
  }

  /** The closing quote is found without looking ahead. */
  lemma {:induction false} EscapeUnique(s: Text, r: Text, t: Text, u: Text)
    requires Escape(s) + ([QUOTE] + t) == Escape(r) + ([QUOTE] + u)
    ensures s == r && t == u
  {
    EscapeStart(s, t);
    EscapeStart(r, u);
    if s == [] {
      assert Escape(s) + ([QUOTE] + t) == [QUOTE] + t && Escape(r) + ([QUOTE] + u) == [QUOTE] + u;
      HeadUnique(QUOTE, QUOTE, t, u);
    } else {
      hide Escape, EscapeChar;
      EscapeUnfolds(s, [QUOTE] + t);
      EscapeUnfolds(r, [QUOTE] + u);
      EscapeCharUnique(s[0], r[0], Escape(s[1..]) + ([QUOTE] + t), Escape(r[1..]) + ([QUOTE] + u));
      EscapeUnique(s[1..], r[1..], t, u);
      assert s == [s[0]] + s[1..] && r == [r[0]] + r[1..];
    }
  }

  lemma QuoteUnique(s: Text, r: Text, t: Text, u: Text)
    requires Quote(s) + t == Quote(r) + u
    ensures s == r && t == u
  {
    assert (Quote(s) + t)[1..] == Escape(s) + ([QUOTE] + t);
    assert (Quote(r) + u)[1..] == Escape(r) + ([QUOTE] + u);
    EscapeUnique(s, r, t, u);
  }

  // ---------------------------------------------------------------------------
  // Sorted members
  // ---------------------------------------------------------------------------

  /** A key with the printed form of its value. */
  datatype Member = Member(key: Text, shown: Text)

  /** Lexicographic order by code point. */
  predicate Less(a: Text, b: Text) {
    if b == [] then false
    else if a == [] then true
    else a[0] < b[0] || (a[0] == b[0] && Less(a[1..], b[1..]))
  }

  lemma {:induction false} LessOrder(a: Text, b: Text)
    ensures Less(a, b) || Less(b, a) || a == b
    ensures !(Less(a, b) && Less(b, a)) && !Less(a, a)
  {
    if a != [] {
      LessOrder(a[1..], if b == [] then [] else b[1..]);
    }
    if a != [] && b != [] && a[0] == b[0] {
      assert a[1..] == b[1..] ==> a == [a[0]] + a[1..] == b;
    }
  }

  lemma {:induction false} LessTransitive(a: Text, b: Text, c: Text)
    requires Less(a, b) && Less(b, c)
    ensures Less(a, c)
  {
    if a != [] && a[0] == b[0] == c[0] {
      LessTransitive(a[1..], b[1..], c[1..]);
    }
  }

  function Insert(m: Member, sorted: seq<Member>): seq<Member> {
    if sorted == [] || Less(m.key, sorted[0].key) then [m] + sorted
    else [sorted[0]] + Insert(m, sorted[1..])
  }

  function Sort(ms: seq<Member>): seq<Member> {
    if ms == [] then [] else Insert(ms[|ms|-1], Sort(ms[..|ms|-1]))
  }

  ghost predicate Ascending(ms: seq<Member>) {
    forall i, j :: 0 <= i < j < |ms| ==> Less(ms[i].key, ms[j].key)
  }

  lemma {:induction false} InsertElements(m: Member, sorted: seq<Member>, x: Member)
    ensures x in Insert(m, sorted) <==> x == m || x in sorted
  {
    if sorted != [] && !Less(m.key, sorted[0].key) {
      InsertElements(m, sorted[1..], x);
      assert x in sorted <==> x == sorted[0] || x in sorted[1..];
    }
  }

  lemma {:induction false} InsertAscending(m: Member, sorted: seq<Member>)
    requires Ascending(sorted) && forall i :: 0 <= i < |sorted| ==> sorted[i].key != m.key
    ensures Ascending(Insert(m, sorted))
  {
    if sorted != [] {
      if Less(m.key, sorted[0].key) {
        forall j | 0 <= j < |sorted| ensures Less(m.key, sorted[j].key) {
          if j > 0 { LessTransitive(m.key, sorted[0].key, sorted[j].key); }
        }
      } else {
        LessOrder(m.key, sorted[0].key);
        InsertAscending(m, sorted[1..]);
        var rest := Insert(m, sorted[1..]);
        forall j | 0 <= j < |rest| ensures Less(sorted[0].key, rest[j].key) {
          InsertElements(m, sorted[1..], rest[j]);
        }
      }
    }
  }

  ghost predicate DistinctMembers(ms: seq<Member>) {
    forall i, j :: 0 <= i < j < |ms| ==> ms[i].key != ms[j].key
  }

  lemma {:induction false} SortElements(ms: seq<Member>, x: Member)
    ensures x in Sort(ms) <==> x in ms
  {
    if ms != [] {
      var front := ms[..|ms|-1];
      SortElements(front, x);
      InsertElements(ms[|ms|-1], Sort(front), x);
      assert x in ms <==> x in front || x == ms[|ms|-1];
    }
  }

  lemma {:induction false} SortAscends(ms: seq<Member>)
    requires DistinctMembers(ms)
    ensures Ascending(Sort(ms))
  {
    if ms != [] {
      var front, m := ms[..|ms|-1], ms[|ms|-1];
      SortAscends(front);
      forall i | 0 <= i < |Sort(front)| ensures Sort(front)[i].key != m.key {
        SortElements(front, Sort(front)[i]);
      }
      InsertAscending(m, Sort(front));
    }
  }

  /** Members in ascending order are determined by which members there are. */
  lemma {:induction false} AscendingUnique(a: seq<Member>, b: seq<Member>)
    requires Ascending(a) && Ascending(b) && forall x :: x in a <==> x in b
    ensures a == b
  {
    if b != [] {
      assert b[0] in a;
    }
    if a != [] {
      assert a[0] in b;
      var i :| 0 <= i < |b| && b[i] == a[0];
      var j :| 0 <= j < |a| && a[j] == b[0];
      LessOrder(a[0].key, b[0].key);
      assert a[0] == b[0];
      forall x ensures x in a[1..] <==> x in b[1..] {
        TailElements(a, x);
        TailElements(b, x);
      }
      AscendingUnique(a[1..], b[1..]);
      assert a == [a[0]] + a[1..] == [b[0]] + b[1..] == b;
    }
  }

  lemma TailElements(a: seq<Member>, x: Member)
    requires a != [] && Ascending(a)
    ensures x in a[1..] <==> x in a && x != a[0]
  {
    LessOrder(a[0].key, a[0].key);
    if x in a && x != a[0] {
      var i :| 0 <= i < |a| && a[i] == x;
      assert a[1..][i-1] == x;
    }
  }

  /** Sorting forgets the order and nothing else. */
  lemma SortExactly(a: seq<Member>, b: seq<Member>)
    requires DistinctMembers(a) && DistinctMembers(b)
    ensures Sort(a) == Sort(b) <==> forall x :: x in a <==> x in b
  {
    SortAscends(a);
    SortAscends(b);
    forall x ensures (x in Sort(a) <==> x in a) && (x in Sort(b) <==> x in b) {
      SortElements(a, x);
      SortElements(b, x);
    }
    if forall x :: x in a <==> x in b {
      AscendingUnique(Sort(a), Sort(b));
    }
  }

  // ---------------------------------------------------------------------------
  // Documents
  // ---------------------------------------------------------------------------

  function ShowMember(m: Member): Text { Quote(m.key) + [COLON] + m.shown }

  function Body(ms: seq<Member>): Text {
    if ms == [] then []
    else ShowMember(ms[0]) + (if |ms| == 1 then [] else [COMMA] + Body(ms[1..]))
  }

  function Print(d: Doc): (r: Text)
    decreases d
  {
    match d
    case Str(s) => Quote(s)
    case Dict(items) => [OPEN] + Body(Sort(Shown(d))) + [CLOSE]
  }

  function Shown(d: Doc): (r: seq<Member>)
    requires d.Dict?
    ensures |r| == |d.items| && forall i :: 0 <= i < |r| ==> r[i].key == d.items[i].key
    decreases d, 0
  {
    seq(|d.items|, i requires 0 <= i < |d.items| => Member(d.items[i].key, Print(d.items[i].value)))
  }

  /** Neither text is a proper prefix of the other. */
  ghost predicate PrefixFree(x: Text, y: Text) { x <= y || y <= x ==> x == y }

  lemma PrefixFreeUnique(x: Text, y: Text, t: Text, u: Text)
    requires PrefixFree(x, y) && x + t == y + u
    ensures x == y && t == u
  {
    var z := x + t;
    assert x == z[..|x|] && y == z[..|y|];
    assert |x| <= |y| ==> x == y[..|x|];
    assert |y| <= |x| ==> y == x[..|y|];
    assert t == z[|x|..] == u;
  }

  ghost predicate AllPrefixFree(a: seq<Member>, b: seq<Member>) {
    forall x, y :: x in a && y in b ==> PrefixFree(x.shown, y.shown)
  }

  /** What follows a member: the rest of the members and the closing brace. */
  function After(ms: seq<Member>, t: Text): Text {
    (if |ms| <= 1 then [] else [COMMA] + Body(ms[1..])) + ([CLOSE] + t)
  }

  lemma BodySplits(ms: seq<Member>, t: Text)
    requires ms != []
    ensures Body(ms) + ([CLOSE] + t) == Quote(ms[0].key) + ([COLON] + (ms[0].shown + After(ms, t)))
  {}

  lemma AfterSplits(ms: seq<Member>, t: Text)
    requires ms != []
    ensures |ms| == 1 ==> After(ms, t) == [CLOSE] + t
    ensures |ms| > 1 ==> After(ms, t) == [COMMA] + (Body(ms[1..]) + ([CLOSE] + t))
  {}

  lemma HeadUnique(c: CodePoint, d: CodePoint, t: Text, u: Text)
    requires [c] + t == [d] + u
    ensures c == d && t == u
  {
    assert ([c] + t)[0] == c && ([d] + u)[0] == d;
    assert t == ([c] + t)[1..] == ([d] + u)[1..] == u;
  }

  lemma BodyStart(ms: seq<Member>, t: Text)
    ensures (Body(ms) + ([CLOSE] + t))[0] == if ms == [] then CLOSE else QUOTE
  {
    if ms != [] {
      BodySplits(ms, t);
    }
  }

  /** Members are read back without looking ahead, if their values can be. */
  lemma {:induction false} BodyUnique(a: seq<Member>, b: seq<Member>, t: Text, u: Text)
    requires Body(a) + ([CLOSE] + t) == Body(b) + ([CLOSE] + u) && AllPrefixFree(a, b)
    ensures a == b && t == u
  {
    BodyStart(a, t);
    BodyStart(b, u);
    if a == [] {
      assert Body(a) + ([CLOSE] + t) == [CLOSE] + t && Body(b) + ([CLOSE] + u) == [CLOSE] + u;
      HeadUnique(CLOSE, CLOSE, t, u);
    } else {
      var x, y := a[0], b[0];
      FirstMemberUnique(a, b, t, u);
      AfterSplits(a, t);
      AfterSplits(b, u);
      if |a| == 1 {
        HeadUnique(CLOSE, if |b| == 1 then CLOSE else COMMA, t, if |b| == 1 then u else Body(b[1..]) + ([CLOSE] + u));
      } else {
        HeadUnique(COMMA, if |b| == 1 then CLOSE else COMMA, Body(a[1..]) + ([CLOSE] + t),
                   if |b| == 1 then u else Body(b[1..]) + ([CLOSE] + u));
        BodyUnique(a[1..], b[1..], t, u);
      }
      assert a == [x] + a[1..] && b == [y] + b[1..];
    }
  }

  lemma FirstMemberUnique(a: seq<Member>, b: seq<Member>, t: Text, u: Text)
    requires a != [] && b != [] && Body(a) + ([CLOSE] + t) == Body(b) + ([CLOSE] + u) && AllPrefixFree(a, b)
    ensures a[0] == b[0] && After(a, t) == After(b, u)
  {
    var x, y := a[0], b[0];
    BodySplits(a, t);
    BodySplits(b, u);
    hide Body, Quote, After;
    QuoteUnique(x.key, y.key, [COLON] + (x.shown + After(a, t)), [COLON] + (y.shown + After(b, u)));
    HeadUnique(COLON, COLON, x.shown + After(a, t), y.shown + After(b, u));
    PrefixFreeUnique(x.shown, y.shown, After(a, t), After(b, u));
  }

  lemma PrintDict(d: Doc, t: Text)
    requires d.Dict?
    ensures Print(d) + t == [OPEN] + (Body(Sort(Shown(d))) + ([CLOSE] + t))
  {}

  lemma PrintStart(d: Doc, t: Text)
    ensures (Print(d) + t)[0] == if d.Dict? then OPEN else QUOTE
  {}

  lemma {:induction false} ShownPrefixFree(a: Doc, b: Doc)
    requires a.Dict? && b.Dict?
    ensures AllPrefixFree(Sort(Shown(a)), Sort(Shown(b)))
    decreases a, 0
  {
    forall x, y | x in Sort(Shown(a)) && y in Sort(Shown(b)) ensures PrefixFree(x.shown, y.shown) {
      SortElements(Shown(a), x);
      SortElements(Shown(b), y);
      var i :| 0 <= i < |a.items| && Shown(a)[i] == x;
      var j :| 0 <= j < |b.items| && Shown(b)[j] == y;
      PrintPrefixFree(a.items[i].value, b.items[j].value);
    }
  }

  /** No printed document is a proper prefix of another. */
  lemma {:induction false} PrintPrefixFree(a: Doc, b: Doc)
    ensures PrefixFree(Print(a), Print(b))
    decreases a, 2
  {
    if Print(a) <= Print(b) || Print(b) <= Print(a) {
      var t := if Print(a) <= Print(b) then Print(b)[|Print(a)|..] else [];
      var u := if Print(a) <= Print(b) then [] else Print(a)[|Print(b)|..];
      assert Print(a) + t == Print(b) + u;
      PrintUnique(a, b, t, u);
    }
  }

  lemma {:induction false} PrintUnique(a: Doc, b: Doc, t: Text, u: Text)
    requires Print(a) + t == Print(b) + u
    ensures Print(a) == Print(b) && a.Dict? == b.Dict?
    ensures a.Dict? ==> Sort(Shown(a)) == Sort(Shown(b))
    ensures a.Str? ==> a == b
    decreases a, 1
  {
    PrintStart(a, t);
    PrintStart(b, u);
    if a.Str? {
      QuoteUnique(a.text, b.text, t, u);
    } else {
      PrintDict(a, t);
      PrintDict(b, u);
      ShownPrefixFree(a, b);
      var x, y := Sort(Shown(a)), Sort(Shown(b));
      HeadUnique(OPEN, OPEN, Body(x) + ([CLOSE] + t), Body(y) + ([CLOSE] + u));
      BodyUnique(x, y, t, u);
    }
  }

  lemma ShownMember(d: Doc, i: nat)
    requires d.Dict? && i < |d.items|
    ensures Member(d.items[i].key, Print(d.items[i].value)) in Shown(d)
  {
    assert Shown(d)[i] == Member(d.items[i].key, Print(d.items[i].value));
  }

  lemma SameShownKeys(a: Doc, b: Doc)
    requires a.Dict? && b.Dict? && forall x :: x in Shown(a) ==> x in Shown(b)
    ensures KeysOf(a.items) <= KeysOf(b.items)
  {
    forall k | k in KeysOf(a.items) ensures k in KeysOf(b.items) {
      var i :| 0 <= i < |a.items| && a.items[i].key == k;
      ShownMember(a, i);
      var m := Member(k, Print(a.items[i].value));
      assert m in Shown(b);
      var j :| 0 <= j < |b.items| && Shown(b)[j] == m;
      assert b.items[j].key == k;
    }
  }

  /** The member printed under a key. */
  lemma SameShownValue(a: Doc, b: Doc, i: nat, j: nat)
    requires a.Dict? && b.Dict? && i < |a.items| && j < |b.items| && a.items[i].key == b.items[j].key
    requires DistinctKeys(b) && forall x :: x in Shown(a) ==> x in Shown(b)
    ensures Print(a.items[i].value) == Print(b.items[j].value)
  {
    ShownMember(a, i);
    var m := Member(a.items[i].key, Print(a.items[i].value));
    assert m in Shown(b);
    var l :| 0 <= l < |b.items| && Shown(b)[l] == m;
    assert b.items[l].key == b.items[j].key;
    assert l == j;
  }

  lemma ShownDistinct(d: Doc)
    requires d.Dict? && DistinctKeys(d)
    ensures DistinctMembers(Shown(d))
  {}

  /** The printer is injective: equal output means equal documents. */
  lemma {:induction false} PrintInjective(a: Doc, b: Doc)
    requires DistinctKeys(a) && DistinctKeys(b) && Print(a) == Print(b)
    ensures SameDoc(a, b)
    decreases a
  {
    assert Print(a) + [] == Print(b) + [];
    PrintUnique(a, b, [], []);
    if a.Dict? {
      ShownDistinct(a);
      ShownDistinct(b);
      SortExactly(Shown(a), Shown(b));
      SameShownKeys(a, b);
      SameShownKeys(b, a);
      forall i, j | 0 <= i < |a.items| && 0 <= j < |b.items| && a.items[i].key == b.items[j].key
        ensures SameDoc(a.items[i].value, b.items[j].value)
      {
        SameShownValue(a, b, i, j);
        PrintInjective(a.items[i].value, b.items[j].value);
      }
    }
  }

  /** Every member of one document is a member of an equal one, if equal values print alike. */
  lemma ShownWithin(a: Doc, b: Doc, x: Member)
    requires a.Dict? && b.Dict? && KeysOf(a.items) <= KeysOf(b.items) && x in Shown(a)
    requires forall i, j :: 0 <= i < |a.items| && 0 <= j < |b.items| && a.items[i].key == b.items[j].key ==>
      Print(a.items[i].value) == Print(b.items[j].value)
    ensures x in Shown(b)
  {
    var i :| 0 <= i < |a.items| && Shown(a)[i] == x;
    assert a.items[i].key in KeysOf(a.items);
    assert a.items[i].key in KeysOf(b.items);
    var j :| 0 <= j < |b.items| && b.items[j].key == a.items[i].key;
    ShownMember(b, j);
  }

  /** Equal documents print the same, whatever the order of their items. */
  lemma {:induction false} PrintOrderFree(a: Doc, b: Doc)
    requires DistinctKeys(a) && DistinctKeys(b) && SameDoc(a, b)
    ensures Print(a) == Print(b)
    decreases a
  {
    if a.Dict? {
      forall i, j | 0 <= i < |a.items| && 0 <= j < |b.items| && a.items[i].key == b.items[j].key
        ensures Print(a.items[i].value) == Print(b.items[j].value)
      {
        PrintOrderFree(a.items[i].value, b.items[j].value);
      }
      assert KeysOf(a.items) == KeysOf(b.items);
      ShownDistinct(a);
      ShownDistinct(b);
      hide SameDoc, DistinctKeys, KeysOf, Shown;
      forall x ensures x in Shown(a) <==> x in Shown(b) {
        if x in Shown(a) { ShownWithin(a, b, x); }
        if x in Shown(b) { ShownWithin(b, a, x); }
      }
      SortExactly(Shown(a), Shown(b));
    }
  }

  // ---------------------------------------------------------------------------
  // UTF-8
  // ---------------------------------------------------------------------------

  predicate Surrogate(c: CodePoint) { 0xD800 <= c < 0xE000 }

  function Utf8Char(c: CodePoint): seq<Byte> {
    if c < 0x80 then [c]
    else if c < 0x800 then [0xC0 + c / 64, 0x80 + c % 64]
    else if c < 0x10000 then [0xE0 + c / 4096, 0x80 + c / 64 % 64, 0x80 + c % 64]
    else [0xF0 + c / 262144, 0x80 + c / 4096 % 64, 0x80 + c / 64 % 64, 0x80 + c % 64]
  }

  function Utf8(s: Text): seq<Byte> {
    if s == [] then [] else Utf8Char(s[0]) + Utf8(s[1..])
  }

  lemma CodePointParts(c: CodePoint)
    ensures c == c / 64 * 64 + c % 64
    ensures c / 64 == c / 4096 * 64 + c / 64 % 64
    ensures c / 4096 == c / 262144 * 64 + c / 4096 % 64
  {}

  lemma Utf8CharUnique(c: CodePoint, d: CodePoint, t: seq<Byte>, u: seq<Byte>)
    requires Utf8Char(c) + t == Utf8Char(d) + u
    ensures c == d && t == u
  {
    var x, y := Utf8Char(c), Utf8Char(d);
    assert forall i :: 0 <= i < |x| ==> (x + t)[i] == x[i];
    assert forall i :: 0 <= i < |y| ==> (x + t)[i] == y[i];
    assert x[0] == y[0];
    assert |x| == |y|;
    CodePointParts(c);
    CodePointParts(d);
    assert |x| > 1 ==> x[1] == y[1];
    assert |x| > 2 ==> x[2] == y[2];
    assert |x| > 3 ==> x[3] == y[3];
    assert c == d;
    assert t == (x + t)[|x|..] == (y + u)[|y|..] == u;
  }

  lemma {:induction false} Utf8Unique(s: Text, r: Text)
    requires Utf8(s) == Utf8(r)
    ensures s == r
  {
    if s != [] && r != [] {
      Utf8CharUnique(s[0], r[0], Utf8(s[1..]), Utf8(r[1..]));
      Utf8Unique(s[1..], r[1..]);
      assert s == [s[0]] + s[1..] && r == [r[0]] + r[1..];
    }
  }

  // ---------------------------------------------------------------------------
  // The whole canonical form
  // ---------------------------------------------------------------------------

  const SCHEMA_FIELD: string := "attestation_schema_version"
  const PROFILE_FIELD: string := "canonicalization_profile"
  const SCHEMA: string := "whooshd.qualification-attestation.v1"
  const PROFILE: string := "whooshd.qualification-attestation.canonical-json.v1"

  /** A field of the identity document: one text, or an object of two. */
  datatype Field = Plain(name: string) | Both(name: string, first: string, second: string)

  /** The v1 identity document. */
  const FIELDS: seq<Field> := [
    Plain("attestation_schema_version"),
    Plain("canonicalization_profile"),
    Plain("invocation_model_id"),
    Plain("resolved_model_id"),
    Both("artifact_identity", "kind", "value"),
    Plain("quantization"),
    Plain("runtime_kind"),
    Both("adapter", "name", "semantic_build"),
    Plain("whooshd_build_identity"),
    Both("serving_runtime", "package", "version"),
    Both("structured_decoder", "package", "version"),
    Both("tokenizer", "implementation", "identity_fingerprint"),
    Plain("chat_template_fingerprint"),
    Both("tool_template_parser", "relationship", "identity_fingerprint"),
    Both("structured_transport", "mode", "protocol_version"),
    Plain("qualification_protocol_version")]

  function FieldSpec(f: Field): Spec {
    if f.Plain? then StrSpec else ObjSpec(map[T(f.first) := StrSpec, T(f.second) := StrSpec])
  }

  function SpecOf(fs: seq<Field>): map<Text, Spec> {
    if fs == [] then map[] else SpecOf(fs[..|fs|-1])[T(fs[|fs|-1].name) := FieldSpec(fs[|fs|-1])]
  }

  function Layout(): map<Text, Spec> { SpecOf(FIELDS) }

  /** The value under a key. */
  function Lookup(items: seq<Item>, key: Text): Option<Doc> {
    if items == [] then None
    else if items[0].key == key then Some(items[0].value)
    else Lookup(items[1..], key)
  }

  /** `canonicalize_identity_document`; a lone surrogate cannot be encoded and raises. */
  function Canonicalize(uni: Unicode, raw: Raw): Result<seq<Byte>> {
    var n := Normalize(uni, raw, ObjSpec(Layout()));
    if n.Err? then Err(n.error)
    else Encode(n.value)
  }

  /** The checks on the normalized document, and its bytes. */
  function Encode(d: Doc): Result<seq<Byte>> {
    if d.Dict? && Lookup(d.items, T(SCHEMA_FIELD)) != Some(Str(T(SCHEMA))) then Err(WrongSchema)
    else if d.Dict? && Lookup(d.items, T(PROFILE_FIELD)) != Some(Str(T(PROFILE))) then Err(WrongProfile)
    else if exists i :: 0 <= i < |Print(d)| && Surrogate(Print(d)[i]) then Err(NotEncodable)
    else Ok(Utf8(Print(d)))
  }

  /**
  The canonical bytes of two accepted documents are equal exactly when the documents differ only in the order of their
  items and in texts with the same NFC form; equivalently, exactly when their normalized documents are equal.
  */
  lemma SameBytesExactly(uni: Unicode, a: Raw, b: Raw)
    requires Canonicalize(uni, a).Ok? && Canonicalize(uni, b).Ok?
    ensures Canonicalize(uni, a) == Canonicalize(uni, b) <==> Alike(uni, a, b)
    ensures Canonicalize(uni, a) == Canonicalize(uni, b) <==>
      SameDoc(Normalize(uni, a, ObjSpec(Layout())).value, Normalize(uni, b, ObjSpec(Layout())).value)
  {
    var spec := ObjSpec(Layout());
    hide Layout, Normalize, Alike, SameDoc, Encode, DistinctKeys;
    NormalizedSameExactly(uni, a, b, spec);
    NormalizedKeysDistinct(uni, a, spec);
    NormalizedKeysDistinct(uni, b, spec);
    EncodeExactly(Normalize(uni, a, spec).value, Normalize(uni, b, spec).value);
  }

  lemma EncodeExactly(x: Doc, y: Doc)
    requires DistinctKeys(x) && DistinctKeys(y) && Encode(x).Ok? && Encode(y).Ok?
    ensures Encode(x) == Encode(y) <==> SameDoc(x, y)
  {
    assert Encode(x) == Ok(Utf8(Print(x))) && Encode(y) == Ok(Utf8(Print(y)));
    hide *;
    if Encode(x) == Encode(y) {
      Utf8Unique(Print(x), Print(y));
      PrintInjective(x, y);
    }
    if SameDoc(x, y) {
      PrintOrderFree(x, y);
    }
  }

  lemma {:induction false} LookupIs(items: seq<Item>, key: Text)
    ensures Lookup(items, key).Some? ==> exists i :: 0 <= i < |items| && items[i] == Item(key, Lookup(items, key).value)
    ensures Lookup(items, key).None? ==> key !in KeysOf(items)
  {
    if items != [] && items[0].key != key {
      LookupIs(items[1..], key);
      if Lookup(items, key).Some? {
        var i :| 0 <= i < |items[1..]| && items[1..][i] == Item(key, Lookup(items, key).value);
        assert items[i+1] == Item(key, Lookup(items, key).value);
      } else {
        forall i | 0 <= i < |items| ensures items[i].key != key {
          if i > 0 { assert items[1..][i-1].key in KeysOf(items[1..]); }
        }
      }
    } else if items != [] {
      assert items[0] == Item(key, items[0].value);
    }
  }

  lemma SameLookup(a: Doc, b: Doc, key: Text, s: Text)
    requires a.Dict? && b.Dict? && SameDoc(a, b) && Lookup(a.items, key) == Some(Str(s))
    ensures Lookup(b.items, key) == Some(Str(s))
  {
    LookupIs(a.items, key);
    LookupIs(b.items, key);
    var i :| 0 <= i < |a.items| && a.items[i] == Item(key, Str(s));
    assert key in KeysOf(a.items);
    assert key in KeysOf(b.items);
    var j :| 0 <= j < |b.items| && b.items[j] == Item(key, Lookup(b.items, key).value);
    assert SameDoc(a.items[i].value, b.items[j].value);
  }

  /** A document that fits the layout and differs from an accepted one only in order and NFC form has its bytes. */
  lemma AlikeIsAccepted(uni: Unicode, a: Raw, b: Raw)
    requires Canonicalize(uni, a).Ok? && Conforms(uni, b, ObjSpec(Layout())) && Alike(uni, a, b)
    ensures Canonicalize(uni, b) == Canonicalize(uni, a)
  {
    var spec := ObjSpec(Layout());
    AcceptedExactly(uni, b, spec);
    NormalizedSameExactly(uni, a, b, spec);
    NormalizedKeysDistinct(uni, a, spec);
    NormalizedKeysDistinct(uni, b, spec);
    DocShape(uni, a, Layout());
    DocShape(uni, b, Layout());
    hide Layout, Normalize, Alike, SameDoc, Conforms, DistinctKeys, ItemsFollow, KeysOf, Encode;
    EncodeSame(Normalize(uni, a, spec).value, Normalize(uni, b, spec).value);
  }

  lemma EncodeSame(x: Doc, y: Doc)
    requires x.Dict? && y.Dict? && DistinctKeys(x) && DistinctKeys(y) && SameDoc(x, y) && Encode(x).Ok?
    ensures Encode(y) == Encode(x)
  {
    hide Print, SameDoc, DistinctKeys, Lookup, T, Utf8;
    PrintOrderFree(x, y);
    SameLookup(x, y, T(SCHEMA_FIELD), T(SCHEMA));
    SameLookup(x, y, T(PROFILE_FIELD), T(PROFILE));
  }
}
