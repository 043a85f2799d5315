/** Topic names and topic filters: splitting, validation, shared-subscription
    syntax, and the linear filter matcher that the subscription trie speeds up. */
module Topics {
  import opened Bytes

  /** A topic or filter cut at its slashes. */
  type Path = seq<Text>

  const HASH: Text := [HASH_SIGN]
  const PLUS: Text := [PLUS_SIGN]

  // ----- splitting and joining ---------------------------------------------

  /** The segments between slashes: at least one, none with a slash. */
  function Split(f: Text): (segs: Path)
    ensures segs != [] && SlashFree(segs)
    decreases |f|
  {
    var i := IndexOf(f, SLASH);
    if i == -1 then [f] else [f[..i]] + Split(f[i + 1..])
  }

  function Join(segs: Path): Text
  {
    if segs == [] then []
    else if |segs| == 1 then segs[0]
    else segs[0] + [SLASH] + Join(segs[1..])
  }

  ghost predicate SlashFree(segs: Path)
  {
    forall i :: 0 <= i < |segs| ==> SLASH !in segs[i]
  }

  lemma {:induction false} JoinSplit(f: Text)
    ensures Join(Split(f)) == f
    decreases |f|
  {
    var i := IndexOf(f, SLASH);
    if i != -1 {
      hide IndexOf, SlashFree;
      JoinSplit(f[i + 1..]);
      JoinCons(f[..i], Split(f[i + 1..]));
      CutAround(f, i);
    }
  }

  lemma CutAround(f: Text, i: nat)
    requires i < |f|
    ensures f == f[..i] + [f[i]] + f[i + 1..]
  {
  }

  lemma JoinCons(s: Text, segs: Path)
    requires segs != []
    ensures Join([s] + segs) == s + [SLASH] + Join(segs)
  {
    assert ([s] + segs)[1..] == segs;
  }

  /** Splitting undoes joining, so distinct stored paths are distinct filters. */
  lemma {:induction false} SplitJoin(segs: Path)
    requires segs != [] && SlashFree(segs)
    ensures Split(Join(segs)) == segs
  {
    if |segs| > 1 {
      SplitJoin(segs[1..]);
      SplitAt(segs[0], Join(segs[1..]));
      assert segs == [segs[0]] + segs[1..];
    }
  }

  predicate BeginsWithSlash(f: Text)
  {
    f != [] && f[0] == SLASH
  }

  /** Only a leading slash makes the first of several segments empty. */
  lemma LeadingSlash(f: Text)
    ensures BeginsWithSlash(f) <==> |Split(f)| > 1 && Split(f)[0] == []
  {
    var i := IndexOf(f, SLASH);
    if i > 0 { assert f[0] in f[..i]; }
  }

  /** The text up to the first slash is the first segment. */
  lemma SplitAt(s: Text, rest: Text)
    requires SLASH !in s
    ensures Split(s + [SLASH] + rest) == [s] + Split(rest)
  {
    var f := s + [SLASH] + rest;
    assert f[..|s|] == s && f[|s| + 1..] == rest;
    IndexOfUnique(f, SLASH, |s|);
  }

  /** The segments still to be emitted when a cursor at `i` has an open segment from `start`. */
  function SplitFrom(f: Text, start: nat, i: nat): Path
    requires start <= i <= |f|
    decreases |f| - i
  {
    if i == |f| then [f[start..]]
    else if f[i] == SLASH then [f[start..i]] + SplitFrom(f, i + 1, i + 1)
    else SplitFrom(f, start, i + 1)
  }

  lemma {:induction false} SplitFromIsSplit(f: Text, start: nat, i: nat)
    requires start <= i <= |f| && SLASH !in f[start..i]
    ensures SplitFrom(f, start, i) == Split(f[start..])
    decreases |f| - i
  {
    if i == |f| {
      assert f[start..i] == f[start..];
    } else if f[i] == SLASH {
      SplitFromIsSplit(f, i + 1, i + 1);
      SplitStep(f, start, i);
    } else {
      NoSlashNext(f, start, i);
      SplitFromIsSplit(f, start, i + 1);
    }
  }

  lemma SplitStep(f: Text, start: nat, i: nat)
    requires start <= i < |f| && f[i] == SLASH && SLASH !in f[start..i]
    ensures Split(f[start..]) == [f[start..i]] + Split(f[i + 1..])
  {
    var s, rest := f[start..i], f[i + 1..];
    assert f[start..] == s + [SLASH] + rest;
    SplitAt(s, rest);
  }

  lemma NoSlashNext(f: Text, start: nat, i: nat)
    requires start <= i < |f| && f[i] != SLASH && SLASH !in f[start..i]
    ensures SLASH !in f[start..i + 1]
  {
    assert f[start..i + 1] == f[start..i] + [f[i]];
  }

  /** The two-cursor loop of `splitFilter`. */
  method SplitFilter(f: Text) returns (segs: Path)
    ensures segs == Split(f)
  {
    segs := [];
    var start := 0;
    for i := 0 to |f|
      invariant 0 <= start <= i
      invariant segs + SplitFrom(f, start, i) == SplitFrom(f, 0, 0)
    {
      if f[i] == SLASH {
        segs := segs + [f[start..i]];
        start := i + 1;
      }
    }
    segs := segs + [f[start..]];
    SplitFromIsSplit(f, 0, 0);
    assert f[0..] == f;
  }

  // ----- validation ---------------------------------------------------------

  const MAX_TOPIC_LEN := 65535

  predicate ValidTopicName(t: Text)
  {
    0 < |t| <= MAX_TOPIC_LEN && PLUS_SIGN !in t && HASH_SIGN !in t && 0 !in t
  }

  /** A filter segment is a wildcard or plain text. */
  predicate ValidSegment(s: Text)
  {
    s == PLUS || (PLUS_SIGN !in s && HASH_SIGN !in s && 0 !in s)
  }

  predicate ValidSegments(segs: Path)
  {
    forall i :: 0 <= i < |segs| ==>
      if segs[i] == HASH then i == |segs| - 1 else ValidSegment(segs[i])
  }

  const SHARE_PREFIX: Text := [36, 115, 104, 97, 114, 101, 47]   // "$share/"

  predicate HasPrefix(s: Text, p: Text)
  {
    |p| <= |s| && s[..|p|] == p
  }

  datatype Shared = Shared(name: Text, filter: Text)

  /** "$share/{name}/{filter}", or None when the text is not a shared filter. */
  function ParseShared(f: Text): Option<Shared>
  {
    if |f| <= |SHARE_PREFIX| + 1 || !HasPrefix(f, SHARE_PREFIX) then None
    else
      var rest := f[|SHARE_PREFIX|..];
      var i := IndexOf(rest, SLASH);
      if i <= 0 || i >= |rest| - 1 then None
      else
        var name := rest[..i];
        var filter := rest[i + 1..];
        if PLUS_SIGN in name || HASH_SIGN in name || SLASH in name || 0 in name then None
        else if HasPrefix(filter, SHARE_PREFIX) then None
        else Some(Shared(name, filter))
  }

  predicate ValidShareName(name: Text)
  {
    name != [] && PLUS_SIGN !in name && HASH_SIGN !in name && SLASH !in name && 0 !in name
  }

  function SharedText(s: Shared): Text
  {
    SHARE_PREFIX + s.name + [SLASH] + s.filter
  }

  predicate ValidShared(s: Shared)
  {
    ValidShareName(s.name) && s.filter != [] && !HasPrefix(s.filter, SHARE_PREFIX)
  }

  lemma ParseSharedSound(f: Text)
    requires ParseShared(f).Some?
    ensures ValidShared(ParseShared(f).value) && SharedText(ParseShared(f).value) == f
  {
    hide IndexOf, Split;
    var s := ParseShared(f).value;
    var rest := f[|SHARE_PREFIX|..];
    assert f == SHARE_PREFIX + rest && rest == s.name + [SLASH] + s.filter;
  }

  /** Parsing accepts exactly the printed forms of well-formed pairs. */
  lemma ParseSharedInverse(s: Shared)
    requires ValidShared(s)
    ensures ParseShared(SharedText(s)) == Some(s)
  {
    var f := SharedText(s);
    var rest := f[|SHARE_PREFIX|..];
    assert rest == s.name + [SLASH] + s.filter;
    assert f[..|SHARE_PREFIX|] == SHARE_PREFIX;
    assert rest[..|s.name|] == s.name && rest[|s.name| + 1..] == s.filter;
    IndexOfUnique(rest, SLASH, |s.name|);
  }

  predicate ValidTopicFilter(f: Text)
  {
    0 < |f| <= MAX_TOPIC_LEN &&
    if HasPrefix(f, SHARE_PREFIX) then
      var p := ParseShared(f);
      p.Some? && ValidSegments(Split(p.value.filter))
    else ValidSegments(Split(f))
  }

  // ----- the linear matcher -------------------------------------------------

  /** What `matchSegs` decides about a topic suffix and a filter suffix. */
  predicate FilterMatches(t: Path, f: Path)
  {
    if f == [] then t == []
    else if f[0] == HASH then true
    else t != [] && (f[0] == PLUS || f[0] == t[0]) && FilterMatches(t[1..], f[1..])
  }

  /** The two-index loop of `matchSegs`. */
  method MatchSegs(t: Path, f: Path, ti0: nat, fi0: nat) returns (b: bool)
    requires ti0 <= |t| && fi0 <= |f|
    ensures b == FilterMatches(t[ti0..], f[fi0..])
  {
    var ti, fi := ti0, fi0;
    while fi < |f|
      invariant 0 <= ti <= |t| && 0 <= fi <= |f|
      invariant FilterMatches(t[ti0..], f[fi0..]) == FilterMatches(t[ti..], f[fi..])
    {
      var seg := f[fi];
      if seg == HASH { return true; }
      if ti >= |t| { return false; }
      if seg != PLUS && seg != t[ti] { return false; }
      assert t[ti..][1..] == t[ti + 1..] && f[fi..][1..] == f[fi + 1..];
      ti, fi := ti + 1, fi + 1;
    }
    return ti == |t|;
  }

  method TopicMatchesFilter(topic: Text, filter: Text) returns (b: bool)
    ensures b == FilterMatches(Split(topic), Split(filter))
  {
    var t := SplitFilter(topic);
    var f := SplitFilter(filter);
    b := MatchSegs(t, f, 0, 0);
    assert t[0..] == t && f[0..] == f;
  }

  /** '#' occurs only as the last segment: the shape `ValidTopicFilter` enforces. */
  predicate HashOnlyLast(f: Path)
  {
    forall i :: 0 <= i < |f| - 1 ==> f[i] != HASH
  }

  predicate SegAccepts(f: Text, t: Text)
  {
    f == PLUS || f == t
  }

  /** Sections 4.7.1.2 and 4.7.1.3 of MQTT 5.0 stated by position: a final '#' stands
      for its parent level and any number of levels below it, '+' for exactly one. */
  predicate WildcardRule(t: Path, f: Path)
  {
    if f != [] && f[|f| - 1] == HASH then
      |f| - 1 <= |t| && forall i :: 0 <= i < |f| - 1 ==> SegAccepts(f[i], t[i])
    else
      |f| == |t| && forall i :: 0 <= i < |f| ==> SegAccepts(f[i], t[i])
  }

  lemma {:induction false} MatcherIsWildcardRule(t: Path, f: Path)
    requires HashOnlyLast(f)
    ensures FilterMatches(t, f) == WildcardRule(t, f)
  {
    if f != [] && f[0] != HASH && t != [] {
      MatcherIsWildcardRule(t[1..], f[1..]);
      WildcardRuleStep(t, f);
    }
  }

  lemma WildcardRuleStep(t: Path, f: Path)
    requires t != [] && f != [] && f[0] != HASH
    ensures WildcardRule(t, f) == (SegAccepts(f[0], t[0]) && WildcardRule(t[1..], f[1..]))
  {
    var n := if f[|f| - 1] == HASH then |f| - 1 else |f|;
    if n <= |t| && SegAccepts(f[0], t[0]) && WildcardRule(t[1..], f[1..]) {
      forall i | 0 <= i < n
        ensures SegAccepts(f[i], t[i])
      {
        if i > 0 { assert f[i] == f[1..][i - 1] && t[i] == t[1..][i - 1]; }
      }
    }
  }

  lemma ValidFilterHashOnlyLast(f: Text)
    requires ValidTopicFilter(f) && ParseShared(f).None?
    ensures HashOnlyLast(Split(f))
  {
  }
}
