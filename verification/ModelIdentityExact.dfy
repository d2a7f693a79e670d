/** The identity of every kind of model name: bare names, repositories, filesystem paths and cache directories. */
module ModelIdentityExact {
  import opened Core
  import opened ModelIdentity

  /** A text that trimming leaves alone. */
  predicate Trim(t: string) { t != "" && !Space(t[0]) && !Space(t[|t|-1]) && t[|t|-1] != '/' }

  predicate AllSpaces(s: string) { forall i :: 0 <= i < |s| ==> Space(s[i]) }

  predicate AllSlashes(s: string) { forall i :: 0 <= i < |s| ==> s[i] == '/' }

  /** The text does not end in `/snapshots/<revision>`. */
  ghost predicate NoSnapshot(t: string) {
    forall i :: Occurs(t, "/snapshots/", i) && i + 11 < |t| ==> '/' in t[i + 11..]
  }

  lemma {:induction false} LeftTrimmed(a: string, s: string)
    requires AllSpaces(a) && s != "" && !Space(s[0])
    ensures StripLeft(a + s) == s
    decreases |a|
  {
    if a == "" {
      assert a + s == s;
    } else {
      assert (a + s)[1..] == a[1..] + s;
      LeftTrimmed(a[1..], s);
    }
  }

  lemma {:induction false} RightTrimmed(s: string, b: string)
    requires AllSpaces(b) && s != "" && !Space(s[|s|-1])
    ensures StripRight(s + b) == s
    decreases |b|
  {
    if b == "" {
      assert s + b == s;
    } else {
      assert (s + b)[..|s + b|-1] == s + b[..|b|-1];
      RightTrimmed(s, b[..|b|-1]);
    }
  }

  lemma {:induction false} SlashesTrimmed(s: string, c: string)
    requires AllSlashes(c) && s != "" && s[|s|-1] != '/'
    ensures StripSlashes(s + c) == s
    decreases |c|
  {
    if c == "" {
      assert s + c == s;
    } else {
      assert (s + c)[..|s + c|-1] == s + c[..|c|-1];
      SlashesTrimmed(s, c[..|c|-1]);
    }
  }

  /** White space around a name and slashes after it do not matter. */
  lemma TrimIgnored(lower: string -> string, a: string, t: string, c: string, b: string)
    requires Trim(t) && AllSpaces(a) && AllSlashes(c) && AllSpaces(b)
    ensures Canonical(lower, a + (t + c + b)) == Canonical(lower, t)
  {
    assert (t + c + b)[0] == t[0];
    LeftTrimmed(a, t + c + b);
    assert c != "" ==> !Space(c[|c|-1]);
    assert (t + c)[|t + c|-1] == if c == "" then t[|t|-1] else c[|c|-1];
    RightTrimmed(t + c, b);
    SlashesTrimmed(t, c);
    TrimRight(t);
    StripLeftKeeps(t);
    hide StripLeft, StripRight, StripSlashes;
  }

  lemma RevisionKept(t: string)
    requires NoSnapshot(t)
    ensures StripRevision(t) == t
  {
    var i := LastIndex(t, "/");
    if i.Some? && i.value + 1 < |t| && i.value >= 10 && t[i.value - 10..i.value] == "/snapshots" {
      var k := i.value - 10;
      assert t[i.value] == '/' by { OccursChars(t, "/", i.value, 0); }
      assert t[k..k + 11] == "/snapshots" + [t[i.value]] == "/snapshots/";
      assert Occurs(t, "/snapshots/", k);
      assert '/' in t[i.value + 1..];
      var j :| i.value + 1 <= j < |t| && t[j] == '/';
      assert t[j..j + 1] == "/";
      assert Occurs(t, "/", j);
    }
  }

  /** What is left of a trimmed text that is no snapshot path: the text itself. */
  lemma TextKept(t: string)
    requires Trim(t) && NoSnapshot(t)
    ensures StripRevision(StripSlashes(StripRight(StripLeft(t)))) == t && StripSlashes(StripRight(StripLeft(t))) == t
  {
    StripLeftKeeps(t);
    TrimRight(t);
    RevisionKept(t);
  }

  /** It begins at the root, at home, in this directory or in the one above. */
  predicate LooksLikePath(t: string) {
    || (|t| >= 1 && (t[0] == '/' || t[0] == '~'))
    || (|t| >= 2 && t[0] == '.' && t[1] == '/')
    || (|t| >= 3 && t[0] == '.' && t[1] == '.' && t[2] == '/')
  }

  /** `seg` is what follows the last slash of `t`, or all of it. */
  predicate EndsIn(t: string, seg: string) {
    '/' !in seg && (t == seg || (|t| > |seg| && t[|t| - |seg|..] == seg && t[|t| - |seg| - 1] == '/'))
  }

  lemma SegmentIs(t: string, seg: string)
    requires EndsIn(t, seg)
    ensures LastSegment(t) == seg && (LastIndex(t, "/").Some? <==> t != seg)
  {
    if t == seg {
      forall j ensures !Occurs(t, "/", j) { OccursChars(t, "/", j, 0); }
    } else {
      var dir := t[..|t| - |seg| - 1];
      assert t == dir + "/" + seg;
      LastSlash(dir, seg);
      assert t[|dir| + 1..] == seg;
    }
  }

  lemma PathPrefix(t: string)
    ensures LooksLikePath(t) <==> Prefixed(t)
  {}

  /** A filesystem path has no repository: its parent is a place, not a namespace. */
  lemma PathIdentity(lower: string -> string, t: string, seg: string)
    requires Trim(t) && NoSnapshot(t) && Without(t, "models--") && LooksLikePath(t) && EndsIn(t, seg)
    ensures Canonical(lower, t) == Identity(None, lower(seg))
  {
    TextKept(t);
    SegmentIs(t, seg);
    PathPrefix(t);
    assert LastIndex(t, "models--").None?;
    hide StripLeft, StripRight, StripSlashes, StripRevision, Prefixed, LooksLikePath;
  }

  /** Any other text with a slash is a repository, named by its last segment. */
  lemma SlashedIdentity(lower: string -> string, t: string, seg: string)
    requires Trim(t) && NoSnapshot(t) && Without(t, "models--") && !LooksLikePath(t) && EndsIn(t, seg) && t != seg
    ensures Canonical(lower, t) == Identity(Some(lower(t)), lower(seg))
  {
    TextKept(t);
    SegmentIs(t, seg);
    PathPrefix(t);
    assert LastIndex(t, "models--").None?;
    hide StripLeft, StripRight, StripSlashes, StripRevision, Prefixed, LooksLikePath;
  }

  /** A bare name is itself, without a repository. */
  lemma BareIdentity(lower: string -> string, t: string)
    requires Trim(t) && '/' !in t && t[0] != '~' && Without(t, "models--")
    ensures Canonical(lower, t) == Identity(None, lower(t))
  {
    assert NoSnapshot(t) by {
      forall i ensures !Occurs(t, "/snapshots/", i) { OccursChars(t, "/snapshots/", i, 0); }
    }
    TextKept(t);
    SegmentIs(t, t);
    assert LastIndex(t, "models--").None?;
    assert !LooksLikePath(t);
    PathPrefix(t);
    hide StripLeft, StripRight, StripSlashes, StripRevision, Prefixed;
  }

  /** A cache directory names its repository if it has an owner and a name; what lies below it does not matter. */
  lemma CacheDirectoryIdentity(lower: string -> string, p: string, head: string, rest: string, t: string)
    requires t == p + ("models--" + (head + rest)) && Trim(t) && NoSnapshot(t)
    requires '/' !in head && (rest == "" || rest[0] == '/') && Without(head + rest, "models--")
    ensures forall org, name :: head == org + "--" + name && org != "" && name != "" && Without(org + "-", "--") ==>
      Canonical(lower, t) == Identity(Some(lower(org) + "/" + lower(name)), lower(name))
    ensures Without(head, "--") ==> Canonical(lower, t) == Identity(None, lower(head))
  {
    TextKept(t);
    LastMarker(p, head + rest);
    assert t[|p| + 8..] == head + rest;
    HeadOf(head, rest);
    assert Canonical(lower, t) == CacheIdentity(lower, head) by {
      hide StripLeft, StripRight, StripSlashes, StripRevision, CacheIdentity;
    }
    hide Canonical;
    forall org, name | head == org + "--" + name && org != "" && name != "" && Without(org + "-", "--")
      ensures CacheIdentity(lower, head) == Identity(Some(lower(org) + "/" + lower(name)), lower(name))
    {
      OwnerAndName(lower, org, name);
    }
  }

  /** The directory name is what comes before the first slash. */
  lemma HeadOf(head: string, rest: string)
    requires '/' !in head && (rest == "" || rest[0] == '/')
    ensures var tail := head + rest;
      var slash := FirstFrom(tail, "/", 0);
      (if slash.Some? then tail[..slash.value] else tail) == head
  {
    var tail := head + rest;
    forall j | 0 <= j < |head| ensures !Occurs(tail, "/", j) {
      OccursChars(tail, "/", j, 0);
      assert tail[j] == head[j];
    }
    if rest == "" {
      assert tail == head;
      forall j ensures !Occurs(tail, "/", j) { OccursChars(tail, "/", j, 0); }
    } else {
      assert tail[|head|..|head| + 1] == "/";
      FirstIndexIs(tail, "/", |head|);
      assert tail[..|head|] == head;
    }
  }

  lemma OwnerAndName(lower: string -> string, org: string, name: string)
    requires org != "" && name != "" && Without(org + "-", "--")
    ensures CacheIdentity(lower, org + "--" + name) == Identity(Some(lower(org) + "/" + lower(name)), lower(name))
  {
    var head := org + "--" + name;
    assert head[|org|..|org| + 2] == "--";
    forall j | 0 <= j < |org| ensures !Occurs(head, "--", j) {
      var o := org + "-";
      assert o[j..j+2] == head[j..j+2];
      assert !Occurs(o, "--", j);
    }
    FirstIndexIs(head, "--", |org|);
    assert head[..|org|] == org && head[|org| + 2..] == name;
  }
}
