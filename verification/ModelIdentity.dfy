/**
Model identities: repository ids, snapshot paths and cache directories that name the same weights.

Lower-casing is a parameter, because it is the only part that depends on Unicode tables; `CaseMap` says what is used.
*/
module ModelIdentity {
  import opened Core

  // ---------------------------------------------------------------------------
  // String operations
  // ---------------------------------------------------------------------------

  /** White space as `str.strip` sees it. */
  predicate Space(c: char) {
    var n := c as int;
    || 0x09 <= n <= 0x0D || 0x1C <= n <= 0x20 || n == 0x85 || n == 0xA0 || n == 0x1680 || 0x2000 <= n <= 0x200A
    || n == 0x2028 || n == 0x2029 || n == 0x202F || n == 0x205F || n == 0x3000
  }

  function StripLeft(s: string): string { if s != "" && Space(s[0]) then StripLeft(s[1..]) else s }

  function StripRight(s: string): string { if s != "" && Space(s[|s|-1]) then StripRight(s[..|s|-1]) else s }

  function StripSlashes(s: string): string { if s != "" && s[|s|-1] == '/' then StripSlashes(s[..|s|-1]) else s }

  predicate Occurs(t: string, p: string, i: int) { 0 <= i && i + |p| <= |t| && t[i..i+|p|] == p }

  /** The last place below `n` where a pattern occurs. */
  function LastBelow(t: string, p: string, n: nat): (r: Option<nat>)
    ensures r.Some? ==> r.value < n && Occurs(t, p, r.value) && forall j :: r.value < j < n ==> !Occurs(t, p, j)
    ensures r.None? ==> forall j :: 0 <= j < n ==> !Occurs(t, p, j)
  {
    if n == 0 then None else if Occurs(t, p, n - 1) then Some(n - 1) else LastBelow(t, p, n - 1)
  }

  function LastIndex(t: string, p: string): (r: Option<nat>)
    ensures r.Some? ==> Occurs(t, p, r.value) && forall j :: r.value < j ==> !Occurs(t, p, j)
    ensures r.None? ==> forall j :: !Occurs(t, p, j)
  {
    LastBelow(t, p, |t| + 1)
  }

  /** The first place from `i` on where a pattern occurs. */
  function FirstFrom(t: string, p: string, i: nat): (r: Option<nat>)
    ensures r.Some? ==> i <= r.value && Occurs(t, p, r.value) && forall j :: i <= j < r.value ==> !Occurs(t, p, j)
    ensures r.None? ==> forall j :: i <= j ==> !Occurs(t, p, j)
    decreases |t| - i
  {
    if i > |t| then None else if Occurs(t, p, i) then Some(i) else FirstFrom(t, p, i + 1)
  }

  /** The part after the last slash. */
  function LastSegment(t: string): string {
    var i := LastIndex(t, "/");
    if i.Some? then t[i.value + 1..] else t
  }

  /** Drop a trailing `/snapshots/<revision>`. */
  function StripRevision(t: string): string {
    var i := LastIndex(t, "/");
    if i.Some? && i.value + 1 < |t| && i.value >= 10 && t[i.value - 10..i.value] == "/snapshots"
    then t[..i.value - 10] else t
  }

  // ---------------------------------------------------------------------------
  // Identities
  // ---------------------------------------------------------------------------

  datatype Identity = Identity(repo: Option<string>, name: string)

  function CacheIdentity(lower: string -> string, head: string): Identity {
    var sep := FirstFrom(head, "--", 0);
    if sep.Some? && sep.value > 0 && sep.value + 2 < |head| then
      var org, name := head[..sep.value], head[sep.value + 2..];
      Identity(Some(lower(org) + "/" + lower(name)), lower(name))
    else Identity(None, lower(head))
  }

  predicate Prefixed(t: string) {
    "/" <= t || "./" <= t || "../" <= t || "~" <= t
  }

  /** `_canonical_model_identity` */
  function Canonical(lower: string -> string, value: string): Identity {
    var trimmed := StripSlashes(StripRight(StripLeft(value)));
    if trimmed == "" then Identity(None, "")
    else
      var text := StripRevision(trimmed);
      var cache := LastIndex(text, "models--");
      if cache.Some? then
        var tail := text[cache.value + 8..];
        var slash := FirstFrom(tail, "/", 0);
        CacheIdentity(lower, if slash.Some? then tail[..slash.value] else tail)
      else if Prefixed(text) then Identity(None, lower(LastSegment(text)))
      else if LastIndex(text, "/").Some? then Identity(Some(lower(text)), lower(LastSegment(text)))
      else Identity(None, lower(text))
  }

  predicate HasRepo(x: Identity) { x.repo.Some? && x.repo.value != "" }

  predicate SameIdentity(x: Identity, y: Identity) {
    if x.name == "" || y.name == "" then false
    else if HasRepo(x) && HasRepo(y) then x.repo == y.repo
    else if HasRepo(x) || HasRepo(y) then false
    else x.name == y.name
  }

  /** `model_identity_matches` */
  predicate Matches(lower: string -> string, a: string, b: string) {
    SameIdentity(Canonical(lower, a), Canonical(lower, b))
  }

  /** Matching is symmetric and transitive, and reflexive on exactly the values that have a name. */
  lemma MatchingIsPartialEquivalence(lower: string -> string, a: string, b: string, c: string)
    ensures Matches(lower, a, b) <==> Matches(lower, b, a)
    ensures Matches(lower, a, b) && Matches(lower, b, c) ==> Matches(lower, a, c)
    ensures Matches(lower, a, a) <==> Canonical(lower, a).name != ""
  {
    hide Canonical;
  }

  // ---------------------------------------------------------------------------
  // The three spellings of a repository
  // ---------------------------------------------------------------------------

  /** What lower-casing does with path separators. */
  ghost predicate CaseMap(lower: string -> string) {
    && (forall a, b :: lower(a + "/" + b) == lower(a) + "/" + lower(b))
    && (forall s :: '/' !in s ==> '/' !in lower(s))
    && (forall s :: s != "" ==> lower(s) != "")
  }

  function LowerChar(c: char): char { if 'A' <= c <= 'Z' then c + ' ' else c }

  function LowerAscii(s: string): string { seq(|s|, i requires 0 <= i < |s| => LowerChar(s[i])) }

  /** Lower-casing of ASCII text is such a map. */
  lemma AsciiIsCaseMap()
    ensures CaseMap(LowerAscii)
  {
    forall a, b ensures LowerAscii(a + "/" + b) == LowerAscii(a) + "/" + LowerAscii(b) {
      assert LowerAscii("/") == "/";
      assert forall i :: 0 <= i < |a| ==> LowerAscii(a + "/" + b)[i] == LowerAscii(a)[i];
    }
    forall s: string | '/' !in s ensures '/' !in LowerAscii(s) {
      forall i | 0 <= i < |s| ensures LowerAscii(s)[i] != '/' {
        assert s[i] in s;
      }
    }
    forall s: string | s != "" ensures LowerAscii(s) != "" {
      assert |LowerAscii(s)| == |s|;
    }
  }

  /** A path segment that survives trimming. */
  predicate Segment(s: string) { s != "" && '/' !in s && !Space(s[0]) && !Space(s[|s|-1]) }

  ghost predicate Without(t: string, p: string) { forall i :: !Occurs(t, p, i) }

  /** An owner and a repository name that the three spellings can carry. */
  ghost predicate WellFormed(org: string, name: string) {
    && Segment(org) && Segment(name)
    && org[0] != '~' && org != "." && org != ".."
    && Without(org, "--") && org[|org|-1] != '-'
    && Without(org + "--" + name, "models--") && Without(org + "/" + name, "models--")
  }

  function RepositoryId(org: string, name: string): string { org + "/" + name }

  function SnapshotOf(text: string, rev: string): string { text + "/snapshots/" + rev }

  function CachePath(parent: string, org: string, name: string): string { parent + ("models--" + (org + "--" + name)) }

  lemma StripLeftKeeps(s: string)
    requires s != "" && !Space(s[0])
    ensures StripLeft(s) == s
  {}

  /** Trimming the front of a path leaves an end of its parent directory. */
  lemma {:induction false} StripLeftParent(p: string, s: string) returns (q: string)
    requires s != "" && !Space(s[0])
    ensures StripLeft(p + s) == q + s
    decreases |p|
  {
    if p == "" || !Space(p[0]) {
      assert p == "" ==> p + s == s;
      q := p;
    } else {
      assert (p + s)[1..] == p[1..] + s;
      q := StripLeftParent(p[1..], s);
    }
  }

  /** An end that is neither white space nor a slash stops trimming. */
  lemma TrimRight(s: string)
    requires s != "" && !Space(s[|s|-1]) && s[|s|-1] != '/'
    ensures StripSlashes(StripRight(s)) == s
  {}

  lemma LastIndexIs(t: string, p: string, i: nat)
    requires Occurs(t, p, i) && forall j :: i < j ==> !Occurs(t, p, j)
    ensures LastIndex(t, p) == Some(i)
  {}

  lemma OccursChars(t: string, p: string, i: int, k: nat)
    requires k < |p|
    ensures Occurs(t, p, i) ==> i + k < |t| && t[i + k] == p[k]
  {
    if Occurs(t, p, i) {
      assert t[i + k] == t[i..i + |p|][k];
    }
  }

  lemma FirstIndexIs(t: string, p: string, i: nat)
    requires Occurs(t, p, i) && forall j :: 0 <= j < i ==> !Occurs(t, p, j)
    ensures FirstFrom(t, p, 0) == Some(i)
  {}

  /** The last slash of `a/b`, if `b` has none. */
  lemma LastSlash(a: string, b: string)
    requires '/' !in b
    ensures LastIndex(a + "/" + b, "/") == Some(|a|)
  {
    var t := a + "/" + b;
    forall j | |a| < j ensures !Occurs(t, "/", j) {
      OccursChars(t, "/", j, 0);
      assert j < |t| ==> t[j] == b[j - |a| - 1];
    }
    assert t[|a|..|a|+1] == "/";
    LastIndexIs(t, "/", |a|);
  }

  /** A snapshot path loses its revision. */
  lemma RevisionStripped(text: string, rev: string)
    requires rev != "" && '/' !in rev
    ensures StripRevision(SnapshotOf(text, rev)) == text
  {
    var t := SnapshotOf(text, rev);
    var a := text + "/snapshots";
    assert t == a + "/" + rev;
    LastSlash(a, rev);
    assert t[|a| - 10..|a|] == "/snapshots";
    assert t[..|text|] == text;
  }

  /** A repository id is not a snapshot path. */
  lemma NoRevision(org: string, name: string)
    requires '/' !in org && '/' !in name
    ensures StripRevision(org + "/" + name) == org + "/" + name
  {
    LastSlash(org, name);
    var t := org + "/" + name;
    assert |org| >= 10 ==> org[|org| - 10] == t[|org| - 10..|org|][0];
  }

  lemma NotPrefixed(org: string, name: string)
    requires WellFormed(org, name)
    ensures !Prefixed(org + "/" + name)
  {
    var t := org + "/" + name;
    assert t[0] == org[0] && t[|org|] == '/' && (|org| > 1 ==> t[1] == org[1]) && (|org| > 2 ==> t[2] == org[2]);
    assert |org| == 1 ==> org == [org[0]];
    assert |org| == 2 ==> org == [org[0], org[1]];
  }

  ghost function Named(lower: string -> string, org: string, name: string): Identity {
    Identity(Some(lower(org) + "/" + lower(name)), lower(name))
  }

  lemma IdOfText(lower: string -> string, org: string, name: string, value: string)
    requires CaseMap(lower) && WellFormed(org, name)
    requires StripSlashes(StripRight(StripLeft(value))) != ""
    requires StripRevision(StripSlashes(StripRight(StripLeft(value)))) == org + "/" + name
    ensures Canonical(lower, value) == Named(lower, org, name)
  {
    var t := org + "/" + name;
    assert LastIndex(t, "models--").None?;
    NotPrefixed(org, name);
    LastSlash(org, name);
    assert t[|org| + 1..] == name;
  }

  lemma RepositoryIdentity(lower: string -> string, org: string, name: string)
    requires CaseMap(lower) && WellFormed(org, name)
    ensures Canonical(lower, RepositoryId(org, name)) == Named(lower, org, name)
  {
    var t := org + "/" + name;
    assert t[0] == org[0] && t[|t|-1] == name[|name|-1];
    StripLeftKeeps(t);
    TrimRight(t);
    NoRevision(org, name);
    IdOfText(lower, org, name, t);
  }

  lemma SnapshotIdentity(lower: string -> string, org: string, name: string, rev: string)
    requires CaseMap(lower) && WellFormed(org, name) && Segment(rev)
    ensures Canonical(lower, SnapshotOf(RepositoryId(org, name), rev)) == Named(lower, org, name)
  {
    var t := SnapshotOf(RepositoryId(org, name), rev);
    assert t[0] == org[0] && t[|t|-1] == rev[|rev|-1];
    StripLeftKeeps(t);
    TrimRight(t);
    RevisionStripped(RepositoryId(org, name), rev);
    IdOfText(lower, org, name, t);
  }

  /** The cache marker is found where it is put: it does not overlap itself. */
  lemma LastMarker(q: string, rest: string)
    requires Without(rest, "models--")
    ensures LastIndex(q + ("models--" + rest), "models--") == Some(|q|)
  {
    var t := q + ("models--" + rest);
    assert t[|q|..|q| + 8] == "models--";
    forall j | |q| < j ensures !Occurs(t, "models--", j) {
      MarkerInside(q, rest, j);
    }
    LastIndexIs(t, "models--", |q|);
  }

  lemma MarkerInside(q: string, rest: string, j: nat)
    requires |q| < j
    ensures Occurs(q + ("models--" + rest), "models--", j) ==> Occurs(rest, "models--", j - |q| - 8)
  {
    var t := q + ("models--" + rest);
    OccursChars(t, "models--", j, 0);
    var m := "models--";
    assert m[1] != 'm' && m[2] != 'm' && m[3] != 'm' && m[4] != 'm' && m[5] != 'm' && m[6] != 'm' && m[7] != 'm';
    assert j < |q| + 8 ==> t[j] == m[j - |q|] != 'm';
    if Occurs(t, "models--", j) {
      assert j >= |q| + 8;
      var i := j - |q| - 8;
      assert t[j..j+8] == rest[i..i+8];
    }
  }

  lemma CacheHead(lower: string -> string, org: string, name: string)
    requires WellFormed(org, name)
    ensures CacheIdentity(lower, org + "--" + name) == Named(lower, org, name)
  {
    var head := org + "--" + name;
    assert head[|org|..|org| + 2] == "--";
    forall j | 0 <= j < |org| ensures !Occurs(head, "--", j) {
      OccursChars(head, "--", j, 0);
      assert j + 1 < |org| ==> org[j..j+2] == head[j..j+2];
      assert !Occurs(org, "--", j);
    }
    FirstIndexIs(head, "--", |org|);
    assert head[..|org|] == org && head[|org| + 2..] == name;
  }

  lemma CacheText(lower: string -> string, parent: string, org: string, name: string, value: string)
    requires WellFormed(org, name)
    requires StripSlashes(StripRight(StripLeft(value))) != ""
    requires StripRevision(StripSlashes(StripRight(StripLeft(value)))) == CachePath(parent, org, name)
    ensures Canonical(lower, value) == Named(lower, org, name)
  {
    var text := CachePath(parent, org, name);
    var head := org + "--" + name;
    LastMarker(parent, head);
    assert text[|parent| + 8..] == head;
    forall j ensures !Occurs(head, "/", j) {
      OccursChars(head, "/", j, 0);
    }
    CacheHead(lower, org, name);
  }

  /** Whatever directory the cache is in, a snapshot in it names its repository. */
  lemma CacheSnapshotIdentity(lower: string -> string, parent: string, org: string, name: string, rev: string)
    requires WellFormed(org, name) && Segment(rev)
    ensures Canonical(lower, SnapshotOf(CachePath(parent, org, name), rev)) == Named(lower, org, name)
  {
    var tail := SnapshotOf("models--" + (org + "--" + name), rev);
    var value := SnapshotOf(CachePath(parent, org, name), rev);
    assert value == parent + tail;
    var q := StripLeftParent(parent, tail);
    var t := q + tail;
    assert t == SnapshotOf(CachePath(q, org, name), rev);
    assert t[|t|-1] == rev[|rev|-1];
    TrimRight(t);
    RevisionStripped(CachePath(q, org, name), rev);
    CacheText(lower, q, org, name, value);
  }

  /** A text naming the repository in one of its three spellings. */
  ghost predicate Spells(text: string, org: string, name: string) {
    || text == RepositoryId(org, name)
    || (exists rev :: Segment(rev) && text == SnapshotOf(RepositoryId(org, name), rev))
    || (exists parent, rev :: Segment(rev) && text == SnapshotOf(CachePath(parent, org, name), rev))
  }

  lemma SpellingIdentity(lower: string -> string, text: string, org: string, name: string)
    requires CaseMap(lower) && WellFormed(org, name) && Spells(text, org, name)
    ensures Canonical(lower, text) == Named(lower, org, name)
  {
    if text == RepositoryId(org, name) {
      RepositoryIdentity(lower, org, name);
    } else if rev :| Segment(rev) && text == SnapshotOf(RepositoryId(org, name), rev) {
      SnapshotIdentity(lower, org, name, rev);
    } else {
      var parent, rev :| Segment(rev) && text == SnapshotOf(CachePath(parent, org, name), rev);
      CacheSnapshotIdentity(lower, parent, org, name, rev);
    }
  }

  lemma SplitAtSlash(a: string, b: string, c: string, d: string)
    requires '/' !in b && '/' !in d && a + "/" + b == c + "/" + d
    ensures a == c && b == d
  {
    LastSlash(a, b);
    LastSlash(c, d);
    assert a == (a + "/" + b)[..|a|] && c == (c + "/" + d)[..|c|];
    assert b == (a + "/" + b)[|a|+1..] && d == (c + "/" + d)[|c|+1..];
  }

  /**
  Any spelling of one repository matches any spelling of another exactly when they are the same repository up to case:
  the three spellings of a repository are equated, and two different repositories never are, even with the same name.
  */
  lemma SpellingsMatchExactly(lower: string -> string, s: string, t: string, org: string, name: string, org': string,
                              name': string)
    requires CaseMap(lower) && WellFormed(org, name) && WellFormed(org', name')
    requires Spells(s, org, name) && Spells(t, org', name')
    ensures Matches(lower, s, t) <==> lower(org) == lower(org') && lower(name) == lower(name')
  {
    SpellingIdentity(lower, s, org, name);
    SpellingIdentity(lower, t, org', name');
    hide Canonical, Spells;
    if Matches(lower, s, t) {
      SplitAtSlash(lower(org), lower(name), lower(org'), lower(name'));
    }
  }
}
