/** Shared subscriptions ($share/name/filter): each group receives a message once,
    at the member its round-robin counter selects. */
module SharedGroups {
  import opened Bytes
  import opened Topics
  import opened TrieModel
  import opened Ordering
  import opened Counting

  const UINT64 := 0x1_0000_0000_0000_0000

  /** One call of a subscriber's delivery function. */
  datatype Delivery = Delivery(conn: nat, topic: Text, payload: seq<Byte>, qos: nat, retain: bool)

  function MinQos(a: nat, b: nat): nat
  {
    if b < a then b else a
  }

  // ----- store keys -----------------------------------------------------------

  function StoreKey(name: Text, filter: Text): Text
  {
    name + [0] + filter
  }

  function KeyToFilter(key: Text): Text
  {
    var i := IndexOf(key, 0);
    if i < 0 then [] else SharedText(Shared(key[..i], key[i + 1..]))
  }

  lemma KeyToFilterInverse(s: Shared)
    requires 0 !in s.name
    ensures KeyToFilter(StoreKey(s.name, s.filter)) == SharedText(s)
  {
    var key := StoreKey(s.name, s.filter);
    assert key[..|s.name|] == s.name && key[|s.name| + 1..] == s.filter;
    IndexOfUnique(key, 0, |s.name|);
  }

  lemma StoreKeyInjective(s: Shared, t: Shared)
    requires 0 !in s.name && 0 !in t.name && StoreKey(s.name, s.filter) == StoreKey(t.name, t.filter)
    ensures s == t
  {
    var key := StoreKey(s.name, s.filter);
    assert key[..|s.name|] == s.name && key[|s.name| + 1..] == s.filter;
    assert key[..|t.name|] == t.name && key[|t.name| + 1..] == t.filter;
    IndexOfUnique(key, 0, |s.name|);
    IndexOfUnique(key, 0, |t.name|);
  }

  /** Storing and listing a shared filter are inverse: parse . print . key = identity. */
  lemma SharedKeyRoundTrip(s: Shared)
    requires ValidShared(s)
    ensures ParseShared(KeyToFilter(StoreKey(s.name, s.filter))) == Some(s)
  {
    KeyToFilterInverse(s);
    ParseSharedInverse(s);
  }

  // ----- the groups as a value ------------------------------------------------

  datatype GroupView = GroupView(id: Shared, subs: Subs, rr: nat)

  type Store = map<Text, GroupView>

  /** Groups are filed under their own key and none is empty. */
  ghost predicate Sound(st: Store)
  {
    forall k :: k in st ==>
      && k == StoreKey(st[k].id.name, st[k].id.filter) && ValidShared(st[k].id)
      && st[k].subs != map[] && st[k].rr < UINT64
      && (forall c :: c in st[k].subs ==> st[k].subs[c].clientId == c)
  }

  /** The shared subscription of a client to a group, if any. */
  ghost function Member(st: Store, id: Shared, c: Text): Option<Subscriber>
  {
    var k := StoreKey(id.name, id.filter);
    if k in st && c in st[k].subs then Some(st[k].subs[c]) else None
  }

  ghost function JoinGroup(st: Store, id: Shared, sub: Subscriber): Store
  {
    var k := StoreKey(id.name, id.filter);
    var g := if k in st then st[k] else GroupView(id, map[], 0);
    st[k := g.(subs := g.subs[sub.clientId := sub])]
  }

  ghost function LeaveGroup(st: Store, id: Shared, c: Text): Store
  {
    var k := StoreKey(id.name, id.filter);
    if k !in st then st
    else if st[k].subs - {c} == map[] then st - {k}
    else st[k := st[k].(subs := st[k].subs - {c})]
  }

  /** The groups left when a client leaves those among `where`. */
  ghost function LeaveAll(st: Store, where: set<Text>, c: Text): Store
  {
    map k | k in st && (k in where ==> st[k].subs - {c} != map[]) ::
      if k in where then st[k].(subs := st[k].subs - {c}) else st[k]
  }

  ghost function GroupsOf(st: Store, where: set<Text>, c: Text): set<Text>
  {
    set k | k in where && k in st && c in st[k].subs
  }

  lemma GroupsOfNext(st: Store, done: set<Text>, k: Text, c: Text)
    requires k in st && k !in done
    ensures |GroupsOf(st, done + {k}, c)| == |GroupsOf(st, done, c)| + if c in st[k].subs then 1 else 0
  {
    assert GroupsOf(st, done + {k}, c) == GroupsOf(st, done, c) + if c in st[k].subs then {k} else {};
  }

  lemma JoinGroupSound(st: Store, id: Shared, sub: Subscriber)
    requires Sound(st) && ValidShared(id)
    ensures Sound(JoinGroup(st, id, sub))
    ensures forall id', c | ValidShared(id') ::
              Member(JoinGroup(st, id, sub), id', c) ==
              if id' == id && c == sub.clientId then Some(sub) else Member(st, id', c)
  {
    var k := StoreKey(id.name, id.filter);
    if k in st { StoreKeyInjective(id, st[k].id); }
    var u := JoinGroup(st, id, sub);
    assert sub.clientId in u[k].subs;
    forall id', c | ValidShared(id')
      ensures Member(u, id', c) == if id' == id && c == sub.clientId then Some(sub) else Member(st, id', c)
    {
      if StoreKey(id'.name, id'.filter) == k { StoreKeyInjective(id, id'); }
    }
  }

  lemma LeaveGroupSound(st: Store, id: Shared, c0: Text)
    requires Sound(st) && ValidShared(id)
    ensures Sound(LeaveGroup(st, id, c0))
    ensures forall id', c | ValidShared(id') ::
              Member(LeaveGroup(st, id, c0), id', c) ==
              if id' == id && c == c0 then None else Member(st, id', c)
  {
    var k := StoreKey(id.name, id.filter);
    var u := LeaveGroup(st, id, c0);
    forall id', c | ValidShared(id')
      ensures Member(u, id', c) == if id' == id && c == c0 then None else Member(st, id', c)
    {
      if StoreKey(id'.name, id'.filter) == k {
        StoreKeyInjective(id, id');
        if k in st && c != c0 && c in st[k].subs { assert c in st[k].subs - {c0}; }
      }
    }
  }

  lemma LeaveAllSound(st: Store, c0: Text)
    requires Sound(st)
    ensures Sound(LeaveAll(st, st.Keys, c0))
    ensures forall id, c :: Member(LeaveAll(st, st.Keys, c0), id, c) == if c == c0 then None else Member(st, id, c)
  {
    var u := LeaveAll(st, st.Keys, c0);
    forall id, c ensures Member(u, id, c) == if c == c0 then None else Member(st, id, c) {
      var k := StoreKey(id.name, id.filter);
      if k in st && c != c0 && c in st[k].subs { assert c in st[k].subs - {c0}; }
    }
  }

  // ----- round robin ----------------------------------------------------------

  /** The member the counter selects. */
  ghost function PickId(g: GroupView): (c: Text)
    requires g.subs != map[]
    ensures c in g.subs
  {
    Listing(g.subs.Keys)[g.rr % |g.subs.Keys|]
  }

  ghost function Advance(g: GroupView): GroupView
  {
    g.(rr := if g.rr + 1 == UINT64 then 0 else g.rr + 1)
  }

  /** Who is picked in `n` consecutive rounds with unchanged membership. */
  ghost function Rounds(g: GroupView, n: nat): seq<Text>
    requires g.subs != map[]
    decreases n
  {
    if n == 0 then [] else [PickId(g)] + Rounds(Advance(g), n - 1)
  }

  ghost function Times(s: seq<Text>, c: Text): nat
  {
    if s == [] then 0 else (if s[0] == c then 1 else 0) + Times(s[1..], c)
  }

  lemma {:induction false} CountModSplit(a: nat, n: nat, k: nat, j: nat)
    requires k > 0
    ensures CountMod(a, n + 1, k, j) == (if a % k == j then 1 else 0) + CountMod(a + 1, n, k, j)
  {
    if n > 0 { CountModSplit(a, n - 1, k, j); }
  }

  /** The round stays in step with the number `a`: no wrap ends it, or the wrap is harmless. */
  lemma {:induction false} TimesIsCount(g: GroupView, a: nat, n: nat, j: nat)
    requires g.subs != map[] && j < |g.subs.Keys| && g.rr < UINT64 && a % |g.subs.Keys| == g.rr % |g.subs.Keys|
    requires g.rr + n <= UINT64 || UINT64 % |g.subs.Keys| == 0
    ensures Times(Rounds(g, n), Listing(g.subs.Keys)[j]) == CountMod(a, n, |g.subs.Keys|, j)
    decreases n
  {
    hide PickId, Listing;
    var k := |g.subs.Keys|;
    if n > 0 {
      CountModSplit(a, n - 1, k, j);
      PickIs(g, j);
      assert Rounds(g, n)[1..] == Rounds(Advance(g), n - 1);
      if n > 1 {
        NextInStep(g, a, k);
        TimesIsCount(Advance(g), a + 1, n - 1, j);
      }
    }
  }

  lemma NextInStep(g: GroupView, a: nat, k: nat)
    requires k > 0 && g.rr < UINT64 && a % k == g.rr % k && (g.rr + 1 < UINT64 || UINT64 % k == 0)
    ensures (a + 1) % k == Advance(g).rr % k
  {
    NextDivMod(a, k);
    NextDivMod(g.rr, k);
  }

  lemma PickIs(g: GroupView, j: nat)
    requires g.subs != map[] && j < |g.subs.Keys|
    ensures PickId(g) == Listing(g.subs.Keys)[j] <==> g.rr % |g.subs.Keys| == j
  {
    ListingFacts(Listing(g.subs.Keys), g.subs.Keys);
  }

  /** The counter names the member by its rank in byte order. */
  lemma PickRank(g: GroupView)
    requires g.subs != map[]
    ensures |Before(g.subs.Keys, PickId(g))| == g.rr % |g.subs|
  {
    assert |g.subs.Keys| == |g.subs|;
    RankInListing(Listing(g.subs.Keys), g.subs.Keys, g.rr % |g.subs|);
  }

  /** Each of the k members is picked floor(n/k) or ceil(n/k) times in n consecutive rounds. */
  ghost predicate IsFair(g: GroupView, n: nat, c: Text)
    requires g.subs != map[]
  {
    var k := |g.subs|;
    n / k <= Times(Rounds(g, n), c) <= n / k + (if n % k == 0 then 0 else 1)
  }

  /** Rounds are fair before the 64-bit counter wraps, and across the wrap if the number of
      members divides 2^64. */
  lemma RoundRobinFair(g: GroupView, n: nat, c: Text)
    requires c in g.subs && g.rr < UINT64 && (g.rr + n <= UINT64 || UINT64 % |g.subs| == 0)
    ensures IsFair(g, n, c)
  {
    var ids := Listing(g.subs.Keys);
    ListingFacts(ids, g.subs.Keys);
    assert |g.subs.Keys| == |g.subs|;
    var j :| 0 <= j < |ids| && ids[j] == c;
    TimesIsCount(g, g.rr, n, j);
    CountIsBalanced(g.rr, n, |g.subs|, j);
  }

  /** Round n + 1 is the first after the wrap. */
  lemma {:induction false} PickAfterWrap(g: GroupView, n: nat)
    requires g.subs != map[] && n > 0 && g.rr + n == UINT64
    ensures |Rounds(g, n + 1)| == n + 1 && Rounds(g, n + 1)[n] == PickId(g.(rr := 0))
    decreases n
  {
    var h := Advance(g);
    assert Rounds(g, n + 1) == [PickId(g)] + Rounds(h, n);
    if n == 1 {
      assert Rounds(h, 1) == [PickId(h)] + Rounds(Advance(h), 0);
    } else {
      PickAfterWrap(h, n - 1);
    }
  }

  lemma {:induction false} TimesAtLeast(s: seq<Text>, i: nat)
    requires i < |s|
    ensures Times(s, s[i]) >= 1 && (i > 0 && s[0] == s[i] ==> Times(s, s[i]) >= 2)
  {
    if i > 0 { TimesAtLeast(s[1..], i - 1); }
  }

  /** If the size does not divide 2^64, the first member is picked on both sides of the wrap
      within one round of the group. */
  lemma UnfairAcrossWrap(id: Shared, subs: Subs) returns (rr: nat, n: nat, c: Text)
    requires subs != map[] && UINT64 % |subs| != 0
    ensures rr < UINT64 && c in subs && !IsFair(GroupView(id, subs, rr), n, c)
  {
    var k := |subs|;
    assert |subs.Keys| == k;
    var r := UINT64 % k;
    assert UINT64 == (UINT64 / k) * k + r;
    rr, n := UINT64 - r, r + 1;
    DivModUnique(rr, k, UINT64 / k, 0);
    var g := GroupView(id, subs, rr);
    c := PickId(g);
    assert PickId(g.(rr := 0)) == c;
    PickAfterWrap(g, r);
    TimesAtLeast(Rounds(g, n), r);
    AtMostOnce(n, k);
  }

  lemma AtMostOnce(n: nat, k: nat)
    requires 0 < n <= k
    ensures n / k + (if n % k == 0 then 0 else 1) == 1
  {
    if n == k { DivModUnique(n, k, 1, 0); } else { DivModUnique(n, k, 0, n); }
  }

  /** The exact condition: a group is fair at every counter value and over any number of rounds
      if and only if its size divides 2^64. */
  lemma RoundRobinFairIff(id: Shared, subs: Subs)
    requires subs != map[]
    ensures (forall rr: nat, n: nat, c :: rr < UINT64 && c in subs ==> IsFair(GroupView(id, subs, rr), n, c))
            <==> UINT64 % |subs| == 0
  {
    if UINT64 % |subs| == 0 {
      forall rr: nat, n: nat, c | rr < UINT64 && c in subs ensures IsFair(GroupView(id, subs, rr), n, c) {
        RoundRobinFair(GroupView(id, subs, rr), n, c);
      }
    } else {
      var rr, n, c := UnfairAcrossWrap(id, subs);
    }
  }

  lemma DoneNext(all: set<Text>, rest: set<Text>, k: Text)
    requires k in rest && rest <= all
    ensures all - (rest - {k}) == (all - rest) + {k}
  {
  }

  /** The groups after those among `where` have been offered a message on `t`. */
  ghost function Served(st: Store, where: set<Text>, t: Path): Store
  {
    map k | k in st :: if k in where && FilterMatches(t, Split(st[k].id.filter)) then Advance(st[k]) else st[k]
  }

  /** What one group does with a message: if its filter matches, one delivery to the
      selected member (none if that member has no delivery function). */
  ghost function Offered(g: GroupView, topic: Text, payload: seq<Byte>, qos: nat): Option<Delivery>
  {
    if g.subs == map[] || !FilterMatches(Split(topic), Split(g.id.filter)) then None
    else
      var sub := g.subs[PickId(g)];
      if sub.deliver.None? then None
      else Some(Delivery(sub.deliver.value, topic, payload, MinQos(qos, sub.qos), false))
  }

  ghost function Deliveries(st: Store, where: set<Text>, topic: Text, payload: seq<Byte>, qos: nat): map<Text, Delivery>
  {
    Made(map k | k in st :: Offered(st[k], topic, payload, qos), where)
  }

  ghost function Made(offers: map<Text, Option<Delivery>>, where: set<Text>): map<Text, Delivery>
  {
    map k | k in offers && k in where && offers[k].Some? :: offers[k].value
  }

  lemma MadeNext(offers: map<Text, Option<Delivery>>, done: set<Text>, k: Text)
    requires k in offers && k !in done
    ensures Made(offers, done + {k}) ==
            if offers[k].Some? then Made(offers, done)[k := offers[k].value] else Made(offers, done)
  {
  }

  lemma LeaveAllNext(st: Store, done: set<Text>, k: Text, c: Text)
    requires k in st && k !in done
    ensures LeaveAll(st, done + {k}, c) ==
            if st[k].subs - {c} == map[] then LeaveAll(st, done, c) - {k}
            else LeaveAll(st, done, c)[k := st[k].(subs := st[k].subs - {c})]
  {
  }

  lemma ServedNone(st: Store, t: Path)
    ensures Served(st, {}, t) == st
  {
  }

  lemma LeaveAllNone(st: Store, c: Text)
    requires Sound(st)
    ensures LeaveAll(st, {}, c) == st && GroupsOf(st, {}, c) == {}
  {
  }

  lemma ServedNext(st: Store, done: set<Text>, k: Text, t: Path)
    requires k in st && k !in done
    ensures Served(st, done + {k}, t) ==
            if FilterMatches(t, Split(st[k].id.filter)) then Served(st, done, t)[k := Advance(st[k])] else Served(st, done, t)
  {
  }

  lemma ServedSound(st: Store, t: Path)
    requires Sound(st)
    ensures Sound(Served(st, st.Keys, t))
  {
  }

  /** `res` lists, each once, the printed filters of the groups in `where` that hold `c`. */
  ghost predicate ListsShared(st: Store, where: set<Text>, c: Text, res: seq<Text>)
  {
    && Distinct(res)
    && (forall k :: k in where && k in st && c in st[k].subs ==> SharedText(st[k].id) in res)
    && (forall f :: f in res ==> exists k :: k in where && k in st && c in st[k].subs && f == SharedText(st[k].id))
  }

  /** Different groups print differently. */
  lemma PrintedOnce(st: Store, k: Text, key: Text)
    requires Sound(st) && k in st && key in st && SharedText(st[k].id) == SharedText(st[key].id)
    ensures k == key
  {
    ParseSharedInverse(st[k].id);
    ParseSharedInverse(st[key].id);
  }

  lemma NewlyListed(st: Store, done: set<Text>, key: Text, c: Text, res: seq<Text>)
    requires Sound(st) && key in st && key !in done && ListsShared(st, done, c, res)
    ensures SharedText(st[key].id) !in res
  {
    if SharedText(st[key].id) in res {
      var k :| k in done && k in st && c in st[k].subs && SharedText(st[key].id) == SharedText(st[k].id);
      PrintedOnce(st, k, key);
    }
  }

  lemma ListsSharedNext(st: Store, done: set<Text>, key: Text, c: Text, res: seq<Text>)
    requires Sound(st) && key in st && key !in done && ListsShared(st, done, c, res)
    ensures KeyToFilter(key) == SharedText(st[key].id)
    ensures ListsShared(st, done + {key}, c, if c in st[key].subs then res + [KeyToFilter(key)] else res)
  {
    hide SharedText, KeyToFilter;
    KeyToFilterInverse(st[key].id);
    if c in st[key].subs { NewlyListed(st, done, key, c, res); }
  }

  // ----- the groups as objects ------------------------------------------------

  class Group {
    const id: Shared
    var subs: Subs
    var rr: nat

    constructor (id: Shared)
      ensures this.id == id && subs == map[] && rr == 0
    {
      this.id := id;
      subs := map[];
      rr := 0;
    }

    ghost function View(): GroupView
      reads this
    {
      GroupView(id, subs, rr)
    }

    /** Advances the counter and returns the member it selected. */
    method Next() returns (sub: Subscriber)
      requires subs != map[] && rr < UINT64
      modifies `rr
      ensures sub == subs[PickId(old(View()))] && View() == Advance(old(View()))
    {
      var ids := SortedIds(subs.Keys);
      var next := if rr + 1 == UINT64 then 0 else rr + 1;
      var before := if next == 0 then UINT64 - 1 else next - 1;
      var idx := before % |ids|;
      rr := next;
      sub := subs[ids[idx]];
    }
  }

  class Groups {
    var shared: map<Text, Group>

    ghost predicate Valid()
      reads this, shared.Values
    {
      Named() && Sound(View())
    }

    ghost predicate Named()
      reads this
    {
      forall k :: k in shared ==> k == StoreKey(shared[k].id.name, shared[k].id.filter)
    }

    ghost function View(): Store
      reads this, shared.Values
    {
      map k | k in shared :: shared[k].View()
    }

    constructor ()
      ensures Valid() && View() == map[] && shared == map[]
    {
      shared := map[];
    }

    // Single updates of the store.

    method AddGroup(id: Shared)
      requires Named() && StoreKey(id.name, id.filter) !in shared
      modifies this
      ensures Named() && View() == old(View())[StoreKey(id.name, id.filter) := GroupView(id, map[], 0)]
      ensures fresh(shared.Values - old(shared.Values)) && StoreKey(id.name, id.filter) in shared
    {
      var g := new Group(id);
      shared := shared[StoreKey(id.name, id.filter) := g];
    }

    method SetSubs(key: Text, subs: Subs)
      requires Named() && key in shared
      modifies shared[key]
      ensures View() == old(View())[key := old(View())[key].(subs := subs)]
    {
      shared[key].subs := subs;
    }

    method DropGroup(key: Text)
      requires Named()
      modifies this
      ensures Named() && shared == old(shared) - {key} && View() == old(View()) - {key}
    {
      shared := shared - {key};
    }

    method SubscribeShared(id: Shared, sub: Subscriber)
      requires Valid() && ValidShared(id)
      modifies this, shared.Values
      ensures Valid() && View() == JoinGroup(old(View()), id, sub)
      ensures fresh(shared.Values - old(shared.Values))
    {
      JoinGroupSound(View(), id, sub);
      Put(id, sub);
    }

    method Put(id: Shared, sub: Subscriber)
      requires Named()
      modifies this, shared.Values
      ensures Named() && View() == JoinGroup(old(View()), id, sub)
      ensures fresh(shared.Values - old(shared.Values))
    {
      var key := StoreKey(id.name, id.filter);
      if key !in shared {
        AddGroup(id);
      }
      SetSubs(key, shared[key].subs[sub.clientId := sub]);
    }

    method UnsubscribeShared(id: Shared, c: Text)
      requires Valid() && ValidShared(id)
      modifies this, shared.Values
      ensures Valid() && View() == LeaveGroup(old(View()), id, c)
      ensures shared.Values <= old(shared.Values)
    {
      LeaveGroupSound(View(), id, c);
      Take(id, c);
    }

    method Take(id: Shared, c: Text)
      requires Named()
      modifies this, shared.Values
      ensures Named() && View() == LeaveGroup(old(View()), id, c)
      ensures shared.Values <= old(shared.Values)
    {
      var key := StoreKey(id.name, id.filter);
      if key !in shared { return; }
      SetSubs(key, shared[key].subs - {c});
      if shared[key].subs == map[] {
        DropGroup(key);
      }
    }

    /** Takes the client out of every group, deleting the groups that become empty. */
    method RemoveClientFromAll(c: Text) returns (removed: nat)
      requires Valid()
      modifies this, shared.Values
      ensures Valid() && View() == LeaveAll(old(View()), old(View()).Keys, c)
      ensures shared.Values <= old(shared.Values)
      ensures removed == |GroupsOf(old(View()), old(View()).Keys, c)|
    {
      LeaveAllSound(View(), c);
      removed := TakeAll(c, View());
    }

    method TakeAll(c: Text, ghost st: Store) returns (removed: nat)
      requires Named() && View() == st && Sound(st)
      modifies this, shared.Values
      ensures Named() && View() == LeaveAll(st, st.Keys, c)
      ensures shared.Values <= old(shared.Values)
      ensures removed == |GroupsOf(st, st.Keys, c)|
    {
      hide LeaveAll, GroupsOf, Named, Sound;
      removed := 0;
      var rest := shared.Keys;
      ghost var done: set<Text> := {};
      LeaveAllNone(st, c);
      while rest != {}
        invariant done == st.Keys - rest && rest <= st.Keys
        invariant Named() && View() == LeaveAll(st, done, c)
        invariant shared.Values <= old(shared.Values)
        invariant removed == |GroupsOf(st, done, c)|
      {
        var key :| key in rest;
        GroupsOfNext(st, done, key, c);
        var hit := LeaveOne(key, c, st, done);
        if hit { removed := removed + 1; }
        DoneNext(st.Keys, rest, key);
        rest, done := rest - {key}, done + {key};
      }
      assert done == st.Keys;
    }

    method LeaveOne(key: Text, c: Text, ghost st: Store, ghost done: set<Text>) returns (hit: bool)
      requires Named() && View() == LeaveAll(st, done, c) && key in st && key !in done
      modifies this, shared.Values
      ensures Named() && View() == LeaveAll(st, done + {key}, c) && shared.Values <= old(shared.Values)
      ensures hit == (c in st[key].subs)
    {
      assert key in View() && View()[key] == st[key];
      hit := c in shared[key].subs;
      LeaveAllNext(st, done, key, c);
      SetSubs(key, shared[key].subs - {c});
      if shared[key].subs == map[] {
        DropGroup(key);
      }
    }

    /** One delivery from each matching group, at the member its counter selects. */
    method DeliverShared(topic: Text, payload: seq<Byte>, qos: nat) returns (out: map<Text, Delivery>)
      requires Valid()
      modifies shared.Values
      ensures Valid() && View() == Served(old(View()), old(View()).Keys, Split(topic))
      ensures out == Deliveries(old(View()), old(View()).Keys, topic, payload, qos)
    {
      ghost var st := View();
      ServedSound(st, Split(topic));
      out := OfferAll(topic, payload, qos, st);
    }

    method OfferAll(topic: Text, payload: seq<Byte>, qos: nat, ghost st: Store) returns (out: map<Text, Delivery>)
      requires Named() && Sound(st) && View() == st
      modifies shared.Values
      ensures Named() && View() == Served(st, st.Keys, Split(topic))
      ensures out == Deliveries(st, st.Keys, topic, payload, qos)
    {
      hide Served, Offered, Named, Sound;
      out := map[];
      var rest := shared.Keys;
      ghost var done: set<Text> := {};
      ghost var offers := map k | k in st :: Offered(st[k], topic, payload, qos);
      ServedNone(st, Split(topic));
      assert Made(offers, done) == map[];
      while rest != {}
        invariant done == st.Keys - rest && rest <= st.Keys
        invariant Named() && View() == Served(st, done, Split(topic))
        invariant out == Made(offers, done)
      {
        var key :| key in rest;
        var offered := Offer(key, topic, payload, qos, st, done);
        if offered.Some? { out := out[key := offered.value]; }
        MadeNext(offers, done, key);
        DoneNext(st.Keys, rest, key);
        rest, done := rest - {key}, done + {key};
      }
      assert done == st.Keys;
    }

    method Offer(key: Text, topic: Text, payload: seq<Byte>, qos: nat, ghost st: Store, ghost done: set<Text>)
      returns (offered: Option<Delivery>)
      requires Named() && Sound(st) && View() == Served(st, done, Split(topic)) && key in st && key !in done
      modifies shared.Values
      ensures View() == Served(st, done + {key}, Split(topic))
      ensures offered == Offered(st[key], topic, payload, qos)
    {
      assert key in View() && View()[key] == st[key];
      ServedNext(st, done, key, Split(topic));
      hide Served, Sound, FilterMatches;
      offered := None;
      var matches := TopicMatchesFilter(topic, shared[key].id.filter);
      if matches {
        var sub := Serve(key);
        if sub.deliver.Some? {
          offered := Some(Delivery(sub.deliver.value, topic, payload, MinQos(qos, sub.qos), false));
        }
      }
    }

    method Serve(key: Text) returns (sub: Subscriber)
      requires Named() && key in shared && shared[key].subs != map[] && shared[key].rr < UINT64
      modifies shared[key]
      ensures sub == old(View())[key].subs[PickId(old(View())[key])]
      ensures View() == old(View())[key := Advance(old(View())[key])]
    {
      sub := shared[key].Next();
    }

    /** The shared filters of a client, each once. */
    method FiltersOf(c: Text) returns (res: seq<Text>)
      requires Valid()
      ensures ListsShared(View(), View().Keys, c, res)
    {
      res := [];
      ghost var st := View();
      var rest := shared.Keys;
      ghost var done: set<Text> := {};
      while rest != {}
        invariant done == st.Keys - rest && rest <= st.Keys
        invariant ListsShared(st, done, c, res)
      {
        var key :| key in rest;
        assert key in st && st[key] == shared[key].View();
        ListsSharedNext(st, done, key, c, res);
        if c in shared[key].subs {
          res := res + [KeyToFilter(key)];
        }
        DoneNext(st.Keys, rest, key);
        rest, done := rest - {key}, done + {key};
      }
      assert done == st.Keys && View() == st;
    }
  }
}
