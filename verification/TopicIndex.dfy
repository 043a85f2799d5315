/** The sharded subscription index: 256 tries, a filter living in the one its first
    segment hashes to. The hash is arbitrary; nothing below depends on it. */
module TopicIndex {
  import opened Bytes
  import opened Topics
  import opened TrieModel
  import opened TrieNodes

  const NUM_SHARDS := 256

  /** The subscriptions in force, by filter path and client. */
  type LiveSet = map<(Path, Text), Subscriber>

  /** What a shard of the given number should store. */
  ghost predicate Stores(t: Trie, i: nat, hash: Text -> nat, live: LiveSet)
  {
    forall p, c :: Lookup(t, p, c) ==
      if p != [] && hash(p[0]) % NUM_SHARDS == i && (p, c) in live then Some(live[(p, c)]) else None
  }

  /** Paths come from splitting a filter; a subscription is filed under its own client. */
  ghost predicate Proper(live: LiveSet)
  {
    forall k :: k in live ==> k.0 != [] && SlashFree(k.0) && live[k].clientId == k.1
  }

  /** The live subscriptions whose stored path the trie walk visits for a topic. */
  ghost function Matching(live: LiveSet, t: Path): set<Subscriber>
  {
    set k | k in live && TrieMatch(k.0, t) :: live[k]
  }

  /** The live subscriptions whose filter the linear matcher accepts for a topic. */
  ghost function Accepting(live: LiveSet, t: Path): set<Subscriber>
  {
    set k | k in live && FilterMatches(t, k.0) :: live[k]
  }

  /** A shard that is well linked and stores the trie `t`. The definition sits under
      `Open` so that it unfolds only in the two lemmas below. */
  ghost predicate Holds(s: Shard, t: Trie)
    reads s, s.nodes
  {
    forall k {:trigger Open(k)} :: Open(k) ==> s.Valid() && s.Model() == t
  }

  ghost predicate Open(k: int) { true }

  lemma Unfold(s: Shard, t: Trie)
    requires Holds(s, t)
    ensures s.Valid() && s.Model() == t
  {
    assert Open(0);
  }

  lemma Fold(s: Shard, t: Trie)
    requires s.Valid() && s.Model() == t
    ensures Holds(s, t)
  {
  }

  method SubscribeShard(s: Shard, ghost t: Trie, segs: Path, sub: Subscriber)
    requires Holds(s, t)
    modifies s, s.nodes
    ensures Holds(s, TrieModel.Subscribe(t, segs, sub)) && fresh(s.nodes - old(s.nodes))
  {
    Unfold(s, t);
    s.Subscribe(segs, sub);
    Fold(s, TrieModel.Subscribe(t, segs, sub));
  }

  method UnsubscribeShard(s: Shard, ghost t: Trie, segs: Path, c: Text)
    requires Holds(s, t)
    modifies s, s.nodes
    ensures Holds(s, TrieModel.Unsubscribe(t, segs, c)) && s.nodes == old(s.nodes)
  {
    Unfold(s, t);
    s.Unsubscribe(segs, c);
    Fold(s, TrieModel.Unsubscribe(t, segs, c));
  }

  method RemoveFromShard(s: Shard, ghost t: Trie, c: Text)
    requires Holds(s, t)
    modifies s.nodes
    ensures Holds(s, TrieModel.RemoveClient(t, c))
  {
    Unfold(s, t);
    s.RemoveClient(c);
    Fold(s, TrieModel.RemoveClient(t, c));
  }

  method MatchShard(s: Shard, ghost t: Trie, segs: Path, out: Subs, ghost cands: set<Subscriber>) returns (res: Subs)
    requires Holds(s, t) && IsBest(out, cands)
    ensures IsBest(res, cands + Found(t, [], segs))
  {
    Unfold(s, t);
    res := s.MatchNode(s.root, [], segs, 0, out, cands, s.Dir());
    assert segs[0..] == segs;
  }

  method CollectShard(s: Shard, ghost t: Trie, c: Text, out: seq<Text>) returns (res: seq<Text>, ghost paths: seq<Path>)
    requires Holds(s, t)
    ensures res == out + Names(paths) && Distinct(paths)
    ensures forall q :: q in paths <==> Lookup(t, q, c).Some?
  {
    Unfold(s, t);
    ghost var d := s.Dir();
    res, paths := s.CollectFilters(s.root, [], [], c, out, d);
    assert forall q :: q in Under(d, []) <==> q in t;
  }

  ghost predicate Separate(a: Shard, b: Shard)
    reads a, b
  {
    a != b && a.nodes !! b.nodes
  }

  /** Every shard stores its part of the live subscriptions. */
  ghost predicate AllStore(ts: seq<Trie>, hash: Text -> nat, live: LiveSet)
  {
    && |ts| == NUM_SHARDS
    && forall i :: 0 <= i < NUM_SHARDS ==> WellFormed(ts[i]) && Stores(ts[i], i, hash, live)
  }

  lemma SubscribeAll(ts: seq<Trie>, hash: Text -> nat, live: LiveSet, h: nat, segs: Path, sub: Subscriber)
    requires AllStore(ts, hash, live) && segs != [] && h == hash(segs[0]) % NUM_SHARDS
    ensures AllStore(ts[h := TrieModel.Subscribe(ts[h], segs, sub)], hash, live[(segs, sub.clientId) := sub])
  {
    SubscribeStores(ts[h], segs, sub);
  }

  lemma UnsubscribeStores(ts: seq<Trie>, hash: Text -> nat, live: LiveSet, h: nat, segs: Path, c: Text)
    requires AllStore(ts, hash, live) && segs != [] && h == hash(segs[0]) % NUM_SHARDS
    ensures AllStore(ts[h := TrieModel.Unsubscribe(ts[h], segs, c)], hash, live - {(segs, c)})
  {
    UnsubscribeRemoves(ts[h], segs, c);
  }

  ghost function Without(live: LiveSet, c: Text): LiveSet
  {
    map k | k in live && k.1 != c :: live[k]
  }

  lemma RemoveStores(ts: seq<Trie>, us: seq<Trie>, hash: Text -> nat, live: LiveSet, c: Text)
    requires AllStore(ts, hash, live) && |us| == |ts|
    requires forall i :: 0 <= i < |ts| ==> us[i] == TrieModel.RemoveClient(ts[i], c)
    ensures AllStore(us, hash, Without(live, c))
  {
    forall i | 0 <= i < |ts| ensures WellFormed(us[i]) && Stores(us[i], i, hash, Without(live, c)) {
      RemoveClientRemoves(ts[i], c);
    }
  }

  /** What visiting the first shards of a list finds. */
  ghost function FoundIn(ts: seq<Trie>, t: Path): set<Subscriber>
  {
    if ts == [] then {} else FoundIn(ts[..|ts| - 1], t) + Found(ts[|ts| - 1], [], t)
  }

  lemma {:induction false} FoundInMember(ts: seq<Trie>, t: Path, s: Subscriber)
    ensures s in FoundIn(ts, t) <==> exists i :: 0 <= i < |ts| && s in Found(ts[i], [], t)
  {
    if ts != [] {
      var us := ts[..|ts| - 1];
      FoundInMember(us, t, s);
      if s in FoundIn(us, t) {
        var i :| 0 <= i < |us| && s in Found(us[i], [], t);
        assert ts[i] == us[i];
      }
      if i :| 0 <= i < |ts| && s in Found(ts[i], [], t) {
        if i < |us| { assert us[i] == ts[i]; }
      }
    }
  }

  lemma FoundIsLive(ts: seq<Trie>, hash: Text -> nat, live: LiveSet, t: Path, s: Subscriber)
    requires AllStore(ts, hash, live) && s in FoundIn(ts, t)
    ensures s in Matching(live, t)
  {
    FoundInMember(ts, t, s);
    var i :| 0 <= i < |ts| && s in Found(ts[i], [], t);
    var q, c :| q in ts[i] && c in ts[i][q] && TrieMatch(q[0..], t) && ts[i][q][c] == s;
    assert q[0..] == q && Lookup(ts[i], q, c) == Some(s);
    assert live[(q, c)] == s;
  }

  lemma LiveIsFound(ts: seq<Trie>, hash: Text -> nat, live: LiveSet, t: Path, s: Subscriber)
    requires AllStore(ts, hash, live) && Proper(live) && s in Matching(live, t)
    ensures s in FoundIn(ts, t)
  {
    var k :| k in live && TrieMatch(k.0, t) && live[k] == s;
    var q, c := k.0, k.1;
    var i := hash(q[0]) % NUM_SHARDS;
    assert k == (q, c) && Lookup(ts[i], q, c) == Some(s);
    assert q[0..] == q;
    assert s in Found(ts[i], [], t);
    FoundInMember(ts, t, s);
  }

  /** Searching all the shards finds the matching live subscriptions, wherever they hash. */
  lemma FoundInAll(ts: seq<Trie>, hash: Text -> nat, live: LiveSet, t: Path)
    requires AllStore(ts, hash, live) && Proper(live)
    ensures FoundIn(ts, t) == Matching(live, t)
  {
    var l, r := FoundIn(ts, t), Matching(live, t);
    forall s | s in l ensures s in r { FoundIsLive(ts, hash, live, t, s); }
    forall s | s in r ensures s in l { LiveIsFound(ts, hash, live, t, s); }
  }

  /** Empty shards that share no memory. */
  ghost predicate EmptyShards(built: seq<Shard>, nodes: set<object>)
    reads built, set i, x | 0 <= i < |built| && x in built[i].nodes :: x
  {
    && (forall i :: 0 <= i < |built| ==> Holds(built[i], map[[] := map[]]))
    && (forall i :: 0 <= i < |built| ==> built[i] in nodes && built[i].nodes <= nodes)
    && (forall i, j :: 0 <= i < |built| && 0 <= j < |built| && i != j ==> Separate(built[i], built[j]))
  }

  method NewShards() returns (built: seq<Shard>, ghost nodes: set<object>)
    ensures |built| == NUM_SHARDS && EmptyShards(built, nodes) && fresh(nodes)
  {
    built, nodes := [], {};
    while |built| < NUM_SHARDS
      invariant |built| <= NUM_SHARDS && EmptyShards(built, nodes) && fresh(nodes)
    {
      built, nodes := AddShard(built, nodes);
    }
  }

  method AddShard(built: seq<Shard>, ghost nodes: set<object>) returns (more: seq<Shard>, ghost all: set<object>)
    requires EmptyShards(built, nodes)
    ensures |more| == |built| + 1 && EmptyShards(more, all) && fresh(all - nodes)
  {
    var s := new Shard();
    Fold(s, map[[] := map[]]);
    forall i | 0 <= i < |built| ensures Holds(built[i], map[[] := map[]]) && Separate(built[i], s) && Separate(s, built[i]) {
      assert Holds(built[i], map[[] := map[]]) == old(Holds(built[i], map[[] := map[]]));
    }
    more, all := built + [s], nodes + {s} + s.nodes;
  }

  class Index {
    const hash: Text -> nat
    const shards: seq<Shard>
    ghost var live: LiveSet
    ghost var tries: seq<Trie>
    ghost var repr: set<object>

    ghost predicate Valid()
      reads this, repr
    {
      && Apart()
      && HoldAll(tries)
      && AllStore(tries, hash, live)
      && Proper(live)
    }

    ghost predicate HoldAll(ts: seq<Trie>)
      requires Apart()
      reads `repr, repr
    {
      |ts| == NUM_SHARDS && forall i :: 0 <= i < NUM_SHARDS ==> Holds(shards[i], ts[i])
    }

    /** The shards share no memory. */
    ghost predicate Apart()
      reads `repr, repr
    {
      && this !in repr
      && |shards| == NUM_SHARDS
      && (forall i :: 0 <= i < NUM_SHARDS ==> shards[i] in repr && shards[i].nodes <= repr)
      && (forall i, j :: 0 <= i < NUM_SHARDS && 0 <= j < NUM_SHARDS && i != j ==> Separate(shards[i], shards[j]))
    }

    constructor (hash: Text -> nat)
      ensures Valid() && live == map[] && this.hash == hash && fresh(repr)
    {
      var built, nodes := NewShards();
      this.hash, shards := hash, built;
      live := map[];
      tries := seq(NUM_SHARDS, i => map[[] := map[]]);
      repr := nodes;
    }

    /** `shardFor`: the hash of the text before the first slash. */
    method ShardFor(filter: Text) returns (i: nat)
      ensures i == hash(Split(filter)[0]) % NUM_SHARDS
    {
      var slash := IndexOf(filter, SLASH);
      if slash == -1 {
        i := hash(filter) % NUM_SHARDS;
      } else {
        i := hash(filter[..slash]) % NUM_SHARDS;
      }
    }

    method Subscribe(filter: Text, sub: Subscriber)
      requires Valid()
      modifies this, repr
      ensures Valid() && live == old(live)[(Split(filter), sub.clientId) := sub]
      ensures fresh(repr - old(repr))
    {
      var segs := SplitFilter(filter);
      var i := ShardFor(filter);
      JoinSplit(filter);
      ghost var ts := tries[i := TrieModel.Subscribe(tries[i], segs, sub)];
      ghost var l := live[(segs, sub.clientId) := sub];
      SubscribeAll(tries, hash, live, i, segs, sub);
      SubscribeIn(i, segs, sub);
      Record(ts, l);
    }

    ghost method Record(ts: seq<Trie>, l: LiveSet)
      requires Apart() && HoldAll(ts) && AllStore(ts, hash, l) && Proper(l)
      modifies `tries, `live
      ensures Valid() && live == l
    {
      tries, live := ts, l;
      assert Apart() == old(Apart());
      assert HoldAll(ts) == old(HoldAll(ts));
    }

    method SubscribeIn(i: nat, segs: Path, sub: Subscriber)
      requires Apart() && HoldAll(tries) && i < NUM_SHARDS
      modifies this`repr, shards[i], shards[i].nodes
      ensures Apart() && HoldAll(tries[i := TrieModel.Subscribe(tries[i], segs, sub)])
      ensures fresh(repr - old(repr))
    {
      hide TrieModel.Subscribe, Holds;
      SubscribeShard(shards[i], tries[i], segs, sub);
      repr := repr + shards[i].nodes;
      forall j | 0 <= j < NUM_SHARDS && j != i ensures Holds(shards[j], tries[j]) {
        assert old(Separate(shards[j], shards[i]));
        assert Holds(shards[j], tries[j]) == old(Holds(shards[j], tries[j]));
      }
    }

    method Unsubscribe(filter: Text, c: Text)
      requires Valid()
      modifies this, repr
      ensures Valid() && live == old(live) - {(Split(filter), c)} && repr == old(repr)
    {
      var segs := SplitFilter(filter);
      var i := ShardFor(filter);
      ghost var ts := tries[i := TrieModel.Unsubscribe(tries[i], segs, c)];
      ghost var l := live - {(segs, c)};
      UnsubscribeStores(tries, hash, live, i, segs, c);
      UnsubscribeIn(i, segs, c);
      Record(ts, l);
    }

    method UnsubscribeIn(i: nat, segs: Path, c: Text)
      requires Apart() && HoldAll(tries) && i < NUM_SHARDS
      modifies shards[i], shards[i].nodes
      ensures Apart() && HoldAll(tries[i := TrieModel.Unsubscribe(tries[i], segs, c)])
    {
      UnsubscribeShard(shards[i], tries[i], segs, c);
      forall j | 0 <= j < NUM_SHARDS && j != i ensures Holds(shards[j], tries[j]) {
        assert old(Separate(shards[j], shards[i]));
        assert Holds(shards[j], tries[j]) == old(Holds(shards[j], tries[j]));
      }
    }

    /** Visits every shard, since the client's filters may hash anywhere. */
    method UnsubscribeAll(c: Text)
      requires Valid()
      modifies this, repr
      ensures Valid() && live == Without(old(live), c) && repr == old(repr)
    {
      ghost var us := tries;
      for i := 0 to NUM_SHARDS
        invariant Apart() && HoldAll(us) && repr == old(repr)
        invariant tries == old(tries) && live == old(live)
        invariant forall j :: 0 <= j < i ==> us[j] == TrieModel.RemoveClient(tries[j], c)
        invariant forall j :: i <= j < NUM_SHARDS ==> us[j] == tries[j]
      {
        RemoveIn(i, us, c);
        us := us[i := TrieModel.RemoveClient(us[i], c)];
      }
      RemoveStores(tries, us, hash, live, c);
      Record(us, Without(live, c));
    }

    method RemoveIn(i: nat, ghost us: seq<Trie>, c: Text)
      requires Apart() && HoldAll(us) && i < NUM_SHARDS
      modifies shards[i].nodes
      ensures Apart() && HoldAll(us[i := TrieModel.RemoveClient(us[i], c)])
    {
      RemoveFromShard(shards[i], us[i], c);
      forall j | 0 <= j < NUM_SHARDS && j != i ensures Holds(shards[j], us[j]) {
        assert old(Separate(shards[j], shards[i]));
        assert Holds(shards[j], us[j]) == old(Holds(shards[j], us[j]));
      }
    }

    /** The client's filters, each once; printed faithfully if and only if none begins with
        a slash. */
    method GetFilters(c: Text) returns (res: seq<Text>, ghost paths: seq<Path>)
      requires Valid()
      ensures res == Names(paths) && Listed(hash, live, NUM_SHARDS, c, paths)
      ensures ListsFilters(live, c, res) <==> NoLeadingSlash(live, c)
    {
      res, paths := [], [];
      for i := 0 to NUM_SHARDS
        invariant res == Names(paths) && Listed(hash, live, i, c, paths)
      {
        assert Apart() == old(Apart()) && HoldAll(tries) == old(HoldAll(tries));
        ghost var more;
        res, more := CollectShard(shards[i], tries[i], c, res);
        ListedNext(tries, hash, live, i, c, paths, more);
        NamesConcat([], paths, more);
        paths := paths + more;
      }
      ListingFaithfulIff(hash, live, c, paths);
    }

    /** Merges the matches of all shards, since different filters hash differently. */
    method MatchSubscribers(topic: Text) returns (res: Subs)
      requires Valid()
      ensures IsBest(res, Matching(live, Split(topic)))
      ensures (forall k :: k in live ==> HashOnlyLast(k.0)) ==> IsBest(res, Accepting(live, Split(topic)))
    {
      var segs := SplitFilter(topic);
      res := SearchShards(segs);
      FoundInAll(tries, hash, live, segs);
      MatchingIsAccepting(live, segs);
    }

    method SearchShards(segs: Path) returns (res: Subs)
      requires Apart() && HoldAll(tries)
      ensures IsBest(res, FoundIn(tries, segs))
    {
      res := map[];
      for i := 0 to NUM_SHARDS
        invariant IsBest(res, FoundIn(tries[..i], segs))
      {
        assert Apart() == old(Apart()) && HoldAll(tries) == old(HoldAll(tries));
        res := MatchShard(shards[i], tries[i], segs, res, FoundIn(tries[..i], segs));
        assert tries[..i + 1][..i] == tries[..i];
      }
      assert tries[..NUM_SHARDS] == tries;
    }
  }

  /** `paths` lists, each once, the client's filters kept in the first `n` shards. */
  ghost predicate Listed(hash: Text -> nat, live: LiveSet, n: nat, c: Text, paths: seq<Path>)
  {
    && Distinct(paths)
    && forall q :: q in paths <==> (q, c) in live && q != [] && hash(q[0]) % NUM_SHARDS < n
  }

  lemma ListedNext(ts: seq<Trie>, hash: Text -> nat, live: LiveSet, n: nat, c: Text, ps: seq<Path>, qs: seq<Path>)
    requires AllStore(ts, hash, live) && n < NUM_SHARDS && Listed(hash, live, n, c, ps)
    requires Distinct(qs) && forall q :: q in qs <==> Lookup(ts[n], q, c).Some?
    ensures Listed(hash, live, n + 1, c, ps + qs)
  {
    assert forall q :: q in qs <==> (q, c) in live && q != [] && hash(q[0]) % NUM_SHARDS == n;
    forall i, j | 0 <= i < j < |ps + qs| ensures (ps + qs)[i] != (ps + qs)[j] {
      if i < |ps| <= j { assert ps[i] in ps && qs[j - |ps|] in qs; }
    }
  }

  /** The listing as texts: each filter of the client exactly once. */
  ghost predicate ListsFilters(live: LiveSet, c: Text, res: seq<Text>)
  {
    && Distinct(res)
    && forall f :: f in res <==> (Split(f), c) in live
  }

  ghost predicate NoLeadingSlash(live: LiveSet, c: Text)
  {
    forall f :: (Split(f), c) in live ==> !BeginsWithSlash(f)
  }

  /** The listing is faithful exactly when no filter of the client begins with a slash. */
  lemma ListingFaithfulIff(hash: Text -> nat, live: LiveSet, c: Text, paths: seq<Path>)
    requires Proper(live) && Listed(hash, live, NUM_SHARDS, c, paths)
    ensures ListsFilters(live, c, Names(paths)) <==> NoLeadingSlash(live, c)
  {
    if NoLeadingSlash(live, c) {
      forall p | (p, c) in live ensures |p| == 1 || p[0] != [] {
        SplitJoin(p);
        LeadingSlash(Join(p));
      }
      NamesListFilters(hash, live, c, paths);
    } else {
      var f :| (Split(f), c) in live && BeginsWithSlash(f);
      forall i | 0 <= i < |paths| ensures Names(paths)[i] != f {
        assert paths[i] in paths;
        NameStartsPlain(paths[i]);
      }
      assert f !in Names(paths);
    }
  }

  lemma NamesListFilters(hash: Text -> nat, live: LiveSet, c: Text, paths: seq<Path>)
    requires Proper(live) && Listed(hash, live, NUM_SHARDS, c, paths)
    requires forall p :: (p, c) in live ==> |p| == 1 || p[0] != []
    ensures ListsFilters(live, c, Names(paths))
  {
    var res := Names(paths);
    forall i | 0 <= i < |paths| ensures res[i] == Join(paths[i]) && Split(res[i]) == paths[i] {
      assert paths[i] in paths;
      assert (paths[i], c) in live;
      NameFaithfulIff(paths[i]);
      SplitJoin(paths[i]);
    }
    forall f | (Split(f), c) in live ensures f in res {
      JoinSplit(f);
      assert Split(f) in paths;
      var i :| 0 <= i < |paths| && paths[i] == Split(f);
      assert res[i] == f;
    }
  }

  lemma MatchingIsAccepting(live: LiveSet, t: Path)
    ensures (forall k :: k in live ==> HashOnlyLast(k.0)) ==> Matching(live, t) == Accepting(live, t)
  {
    forall k | k in live && HashOnlyLast(k.0) ensures TrieMatch(k.0, t) == FilterMatches(t, k.0) {
      TrieMatchIsFilterMatches(k.0, t);
    }
  }
}
