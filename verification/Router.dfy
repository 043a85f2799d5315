/** The publish-subscribe engine: subscriptions, shared groups and retained messages,
    proved against the history of operations performed on it. */
module RouterModel {
  import opened Bytes
  import opened Topics
  import opened TrieModel
  import opened SharedGroups
  import opened Ordering
  import opened TopicIndex

  datatype Retained = Retained(topic: Text, payload: seq<Byte>, qos: nat)

  datatype Op =
    | Sub(filter: Text, sub: Subscriber)
    | Unsub(filter: Text, client: Text)
    | UnsubAll(client: Text)
    | Pub(topic: Text, payload: seq<Byte>, qos: nat, retain: bool)
    | Load(msg: Retained)

  datatype State = State(live: LiveSet, groups: Store, retained: map<Text, Retained>)

  ghost function Start(): State
  {
    State(map[], map[], map[])
  }

  /** The effect of one operation. */
  ghost function Step(s: State, op: Op): State
  {
    match op
    case Sub(f, sub) =>
      if ParseShared(f).Some? then s.(groups := JoinGroup(s.groups, ParseShared(f).value, sub))
      else s.(live := s.live[(Split(f), sub.clientId) := sub])
    case Unsub(f, c) =>
      if ParseShared(f).Some? then s.(groups := LeaveGroup(s.groups, ParseShared(f).value, c))
      else s.(live := s.live - {(Split(f), c)})
    case UnsubAll(c) =>
      s.(live := Without(s.live, c), groups := LeaveAll(s.groups, s.groups.Keys, c))
    case Pub(t, payload, qos, retain) =>
      s.(retained := Keep(s.retained, t, payload, qos, retain),
         groups := Served(s.groups, s.groups.Keys, Split(t)))
    case Load(msg) => s.(retained := s.retained[msg.topic := msg])
  }

  function Keep(r: map<Text, Retained>, t: Text, payload: seq<Byte>, qos: nat, retain: bool): map<Text, Retained>
  {
    if !retain then r
    else if payload == [] then r - {t}
    else r[t := Retained(t, payload, qos)]
  }

  ghost function Run(ops: seq<Op>): State
  {
    if ops == [] then Start() else Step(Run(ops[..|ops| - 1]), ops[|ops| - 1])
  }

  // ----- what the history says --------------------------------------------------

  /** The subscription of a client to a filter after a history: the last operation that
      concerns it decides. */
  function Current(ops: seq<Op>, f: Text, c: Text): Option<Subscriber>
  {
    if ops == [] then None
    else
      var before := Current(ops[..|ops| - 1], f, c);
      match ops[|ops| - 1]
      case Sub(g, sub) => if g == f && sub.clientId == c then Some(sub) else before
      case Unsub(g, d) => if g == f && d == c then None else before
      case UnsubAll(d) => if d == c then None else before
      case Pub(_, _, _, _) => before
      case Load(_) => before
  }

  /** The retained message of a topic after a history: the last retained publish or load
      on it, unless that publish was empty. */
  function LastRetained(ops: seq<Op>, t: Text): Option<Retained>
  {
    if ops == [] then None
    else
      var before := LastRetained(ops[..|ops| - 1], t);
      match ops[|ops| - 1]
      case Pub(u, payload, qos, retain) =>
        if u != t || !retain then before
        else if payload == [] then None
        else Some(Retained(t, payload, qos))
      case Load(msg) => if msg.topic == t then Some(msg) else before
      case Sub(_, _) => before
      case Unsub(_, _) => before
      case UnsubAll(_) => before
  }

  lemma SplitInjective(f: Text, g: Text)
    ensures Split(f) == Split(g) ==> f == g
  {
    JoinSplit(f);
    JoinSplit(g);
  }

  ghost predicate PlainPath(p: Path)
  {
    exists f :: Split(f) == p && ParseShared(f).None?
  }

  /** Every stored path is the split of a filter that is not a shared one. */
  ghost predicate FromFilters(live: LiveSet)
  {
    Proper(live) && forall k :: k in live ==> PlainPath(k.0)
  }

  lemma {:induction false} RunIsSound(ops: seq<Op>)
    ensures FromFilters(Run(ops).live) && Sound(Run(ops).groups)
  {
    if ops != [] {
      var s, op := Run(ops[..|ops| - 1]), ops[|ops| - 1];
      RunIsSound(ops[..|ops| - 1]);
      StepIsSound(s, op);
    }
  }

  lemma StepIsSound(s: State, op: Op)
    requires FromFilters(s.live) && Sound(s.groups)
    ensures FromFilters(Step(s, op).live) && Sound(Step(s, op).groups)
  {
    StepLive(s, op);
    StepGroups(s, op);
  }

  lemma StepLive(s: State, op: Op)
    requires FromFilters(s.live)
    ensures FromFilters(Step(s, op).live)
  {
    if op.Sub? && ParseShared(op.filter).None? {
      JoinSplit(op.filter);
      assert PlainPath(Split(op.filter));
      FromFiltersAdd(s.live, Split(op.filter), op.sub);
    } else {
      FromFiltersSubset(s.live, Step(s, op).live);
    }
  }

  lemma FromFiltersAdd(live: LiveSet, p: Path, sub: Subscriber)
    requires FromFilters(live) && PlainPath(p) && p != [] && SlashFree(p)
    ensures FromFilters(live[(p, sub.clientId) := sub])
  {
  }

  lemma FromFiltersSubset(live: LiveSet, less: LiveSet)
    requires FromFilters(live) && forall k :: k in less ==> k in live && less[k] == live[k]
    ensures FromFilters(less)
  {
  }

  lemma StepGroups(s: State, op: Op)
    requires Sound(s.groups)
    ensures Sound(Step(s, op).groups)
  {
    match op
    case Sub(f, sub) =>
      if ParseShared(f).Some? {
        ParseSharedSound(f);
        JoinGroupSound(s.groups, ParseShared(f).value, sub);
      }
    case Unsub(f, c) =>
      if ParseShared(f).Some? {
        ParseSharedSound(f);
        LeaveGroupSound(s.groups, ParseShared(f).value, c);
      }
    case UnsubAll(c) => LeaveAllSound(s.groups, c);
    case Pub(t, _, _, _) => ServedSound(s.groups, Split(t));
    case Load(_) =>
  }

  ghost function LiveAt(live: LiveSet, p: Path, c: Text): Option<Subscriber>
  {
    if (p, c) in live then Some(live[(p, c)]) else None
  }

  lemma LiveStep(s: State, op: Op, p: Path, c: Text)
    ensures LiveAt(Step(s, op).live, p, c) ==
      match op
      case Sub(g, sub) => if ParseShared(g).None? && Split(g) == p && sub.clientId == c then Some(sub) else LiveAt(s.live, p, c)
      case Unsub(g, d) => if ParseShared(g).None? && Split(g) == p && d == c then None else LiveAt(s.live, p, c)
      case UnsubAll(d) => if d == c then None else LiveAt(s.live, p, c)
      case Pub(_, _, _, _) => LiveAt(s.live, p, c)
      case Load(_) => LiveAt(s.live, p, c)
  {
  }

  /** The index stores exactly the plain subscriptions the history leaves in force. */
  lemma {:induction false} LiveIsCurrent(ops: seq<Op>, f: Text, c: Text)
    requires ParseShared(f).None?
    ensures LiveAt(Run(ops).live, Split(f), c) == Current(ops, f, c)
  {
    if ops != [] {
      LiveIsCurrent(ops[..|ops| - 1], f, c);
      var op := ops[|ops| - 1];
      LiveStep(Run(ops[..|ops| - 1]), op, Split(f), c);
      if op.Sub? || op.Unsub? { SplitInjective(f, op.filter); }
    }
  }

  /** The groups hold exactly the shared subscriptions the history leaves in force. */
  lemma {:induction false} MemberIsCurrent(ops: seq<Op>, id: Shared, c: Text)
    requires ValidShared(id)
    ensures Member(Run(ops).groups, id, c) == Current(ops, SharedText(id), c)
  {
    if ops != [] {
      var before := ops[..|ops| - 1];
      var s, op := Run(before), ops[|ops| - 1];
      MemberIsCurrent(before, id, c);
      RunIsSound(before);
      MemberStep(s, op, id, c);
    }
  }

  lemma MemberStep(s: State, op: Op, id: Shared, c: Text)
    requires ValidShared(id) && Sound(s.groups)
    ensures Member(Step(s, op).groups, id, c) ==
      match op
      case Sub(g, sub) => if g == SharedText(id) && sub.clientId == c then Some(sub) else Member(s.groups, id, c)
      case Unsub(g, d) => if g == SharedText(id) && d == c then None else Member(s.groups, id, c)
      case UnsubAll(d) => if d == c then None else Member(s.groups, id, c)
      case Pub(_, _, _, _) => Member(s.groups, id, c)
      case Load(_) => Member(s.groups, id, c)
  {
    match op
    case Sub(g, sub) =>
      SameShared(g, id);
      if ParseShared(g).Some? { JoinGroupSound(s.groups, ParseShared(g).value, sub); }
    case Unsub(g, d) =>
      SameShared(g, id);
      if ParseShared(g).Some? { LeaveGroupSound(s.groups, ParseShared(g).value, d); }
    case UnsubAll(d) => LeaveAllSound(s.groups, d);
    case Pub(_, _, _, _) =>
    case Load(_) =>
  }

  lemma SameShared(g: Text, id: Shared)
    requires ValidShared(id)
    ensures g == SharedText(id) <==> ParseShared(g) == Some(id)
    ensures ParseShared(g).Some? ==> ValidShared(ParseShared(g).value)
  {
    ParseSharedInverse(id);
    if ParseShared(g).Some? { ParseSharedSound(g); }
  }

  /** The retained store holds, per topic, what the history last retained. */
  lemma {:induction false} RetainedIsLast(ops: seq<Op>, t: Text)
    ensures (if t in Run(ops).retained then Some(Run(ops).retained[t]) else None) == LastRetained(ops, t)
    ensures t in Run(ops).retained ==> Run(ops).retained[t].topic == t
  {
    if ops != [] { RetainedIsLast(ops[..|ops| - 1], t); }
  }

  // ----- routing over whole runs ------------------------------------------------

  ghost predicate ValidOps(ops: seq<Op>)
  {
    forall i :: 0 <= i < |ops| && ops[i].Sub? ==> ValidTopicFilter(ops[i].filter)
  }

  /** A client's plain filter that is in force and accepts the topic. */
  ghost predicate Routed(ops: seq<Op>, topic: Text, f: Text, c: Text)
  {
    ParseShared(f).None? && Current(ops, f, c).Some? && FilterMatches(Split(topic), Split(f))
  }

  /** `m` holds exactly the clients with an accepting filter in force, each with a
      subscription of the highest QoS among those filters. */
  ghost predicate RoutesExactly(ops: seq<Op>, topic: Text, m: Subs)
  {
    && (forall c :: c in m ==> exists f :: Routed(ops, topic, f, c) && Current(ops, f, c) == Some(m[c]))
    && (forall f, c :: Routed(ops, topic, f, c) ==> c in m && Current(ops, f, c).value.qos <= m[c].qos)
  }

  lemma {:induction false} CurrentIsValid(ops: seq<Op>, f: Text, c: Text)
    requires ValidOps(ops) && Current(ops, f, c).Some?
    ensures ValidTopicFilter(f) && Current(ops, f, c).value.clientId == c
  {
    var before := ops[..|ops| - 1];
    assert forall i :: 0 <= i < |before| ==> before[i] == ops[i];
    var op := ops[|ops| - 1];
    if !(op.Sub? && op.filter == f && op.sub.clientId == c) { CurrentIsValid(before, f, c); }
  }

  /** A stored subscription comes from a filter that the history leaves in force. */
  lemma StoredIsCurrent(ops: seq<Op>, k: (Path, Text)) returns (f: Text)
    requires k in Run(ops).live
    ensures Split(f) == k.0 && ParseShared(f).None? && Current(ops, f, k.1) == Some(Run(ops).live[k])
  {
    RunIsSound(ops);
    assert PlainPath(k.0);
    f :| Split(f) == k.0 && ParseShared(f).None?;
    LiveIsCurrent(ops, f, k.1);
    assert k == (k.0, k.1);
  }

  lemma PlainMatchersAgree(ops: seq<Op>, topic: Text, f: Text, c: Text)
    requires ValidOps(ops) && ParseShared(f).None? && Current(ops, f, c).Some?
    ensures TrieMatch(Split(f), Split(topic)) == FilterMatches(Split(topic), Split(f))
  {
    CurrentIsValid(ops, f, c);
    ValidFilterHashOnlyLast(f);
    TrieMatchIsFilterMatches(Split(f), Split(topic));
  }

  /** The index answers as the specification does: after any run of operations with valid
      filters, merging the trie matches by highest QoS routes exactly. */
  lemma RoutingTheorem(ops: seq<Op>, topic: Text, m: Subs)
    requires ValidOps(ops) && IsBest(m, Matching(Run(ops).live, Split(topic)))
    ensures RoutesExactly(ops, topic, m)
  {
    var live, t := Run(ops).live, Split(topic);
    forall c | c in m ensures exists f :: Routed(ops, topic, f, c) && Current(ops, f, c) == Some(m[c]) {
      var k :| k in live && TrieMatch(k.0, t) && live[k] == m[c];
      var f := StoredIsCurrent(ops, k);
      CurrentIsValid(ops, f, k.1);
      PlainMatchersAgree(ops, topic, f, c);
      assert Routed(ops, topic, f, c);
    }
    forall f, c | Routed(ops, topic, f, c) ensures c in m && Current(ops, f, c).value.qos <= m[c].qos {
      LiveIsCurrent(ops, f, c);
      PlainMatchersAgree(ops, topic, f, c);
      CurrentIsValid(ops, f, c);
      assert live[(Split(f), c)] in Matching(live, t);
    }
  }

  /** A group is stored exactly while some client's shared subscription is in force, and the
      member it delivers to holds one. */
  lemma SharedRoutingTheorem(ops: seq<Op>, id: Shared)
    requires ValidShared(id)
    ensures StoreKey(id.name, id.filter) in Run(ops).groups <==> exists c :: Current(ops, SharedText(id), c).Some?
    ensures StoreKey(id.name, id.filter) in Run(ops).groups ==>
              var g := Run(ops).groups[StoreKey(id.name, id.filter)];
              g.id == id && g.subs != map[] && Current(ops, SharedText(id), PickId(g)) == Some(g.subs[PickId(g)])
  {
    RunIsSound(ops);
    var key, groups := StoreKey(id.name, id.filter), Run(ops).groups;
    if key in groups {
      var g := groups[key];
      StoreKeyInjective(id, g.id);
      MemberIsCurrent(ops, id, PickId(g));
    }
    if c :| Current(ops, SharedText(id), c).Some? {
      MemberIsCurrent(ops, id, c);
    }
  }

  /** The members a group picks in a series of operations. */
  ghost function Picks(s: State, es: seq<Op>, key: Text): seq<Text>
    decreases |es|
  {
    if es == [] then []
    else
      (if es[0].Pub? && key in s.groups && s.groups[key].subs != map[]
          && FilterMatches(Split(es[0].topic), Split(s.groups[key].id.filter)) then [PickId(s.groups[key])] else [])
      + Picks(Step(s, es[0]), es[1..], key)
  }

  /** Whatever happens, the group keeps the same clients; their subscriptions may change. */
  ghost predicate KeepsMembers(s: State, es: seq<Op>, key: Text)
    decreases |es|
  {
    key in s.groups && s.groups[key].subs != map[]
    && (es != [] ==>
          && key in Step(s, es[0]).groups && Step(s, es[0]).groups[key].subs.Keys == s.groups[key].subs.Keys
          && KeepsMembers(Step(s, es[0]), es[1..], key))
  }

  /** Only a matching publish moves the counter of a group. */
  lemma StepMovesCounter(s: State, op: Op, key: Text)
    requires key in s.groups && key in Step(s, op).groups
    ensures var g, h := s.groups[key], Step(s, op).groups[key];
            && h.id == g.id
            && h.rr == if op.Pub? && FilterMatches(Split(op.topic), Split(g.id.filter)) then Advance(g).rr else g.rr
  {
  }

  /** Who is picked depends only on the clients and the counter. */
  lemma {:induction false} RoundsByKeys(g: GroupView, h: GroupView, n: nat)
    requires g.subs != map[] && h.subs != map[] && g.subs.Keys == h.subs.Keys && g.rr == h.rr
    ensures Rounds(g, n) == Rounds(h, n)
    decreases n
  {
    if n > 0 { RoundsByKeys(Advance(g), Advance(h), n - 1); }
  }

  lemma {:induction false} PicksAreRounds(s: State, es: seq<Op>, key: Text)
    requires KeepsMembers(s, es, key)
    ensures Picks(s, es, key) == Rounds(s.groups[key], |Picks(s, es, key)|)
    decreases |es|
  {
    hide Step, PickId;
    if es != [] {
      var g, t := s.groups[key], Step(s, es[0]);
      StepMovesCounter(s, es[0], key);
      PicksAreRounds(t, es[1..], key);
      var n := |Picks(t, es[1..], key)|;
      if es[0].Pub? && FilterMatches(Split(es[0].topic), Split(g.id.filter)) {
        RoundsByKeys(t.groups[key], Advance(g), n);
      } else {
        RoundsByKeys(t.groups[key], g, n);
        assert Picks(s, es, key) == Picks(t, es[1..], key);
      }
    }
  }

  /** Throughout `es`, the clients subscribed to the group are those subscribed before it. */
  ghost predicate MembersFixed(ops: seq<Op>, es: seq<Op>, id: Shared)
  {
    forall i, x :: 0 <= i <= |es| ==>
      (Current(ops + es[..i], SharedText(id), x).Some? <==> Current(ops, SharedText(id), x).Some?)
  }

  lemma MembersFixedNext(ops: seq<Op>, es: seq<Op>, id: Shared, x: Text)
    requires MembersFixed(ops, es, id) && es != []
    ensures Current(ops + [es[0]], SharedText(id), x).Some? <==> Current(ops, SharedText(id), x).Some?
    ensures MembersFixed(ops + [es[0]], es[1..], id)
  {
    assert es[..1] == [es[0]];
    forall i, y | 0 <= i <= |es| - 1
      ensures Current(ops + [es[0]] + es[1..][..i], SharedText(id), y).Some? <==> Current(ops + [es[0]], SharedText(id), y).Some?
    {
      assert ops + [es[0]] + es[1..][..i] == ops + es[..i + 1];
      assert Current(ops + es[..1], SharedText(id), y).Some? <==> Current(ops, SharedText(id), y).Some?;
    }
    assert Current(ops + es[..1], SharedText(id), x).Some? <==> Current(ops, SharedText(id), x).Some?;
  }

  lemma MembersAreSubscribed(ops: seq<Op>, id: Shared, x: Text)
    requires ValidShared(id)
    ensures var key := StoreKey(id.name, id.filter);
            Current(ops, SharedText(id), x).Some? <==> key in Run(ops).groups && x in Run(ops).groups[key].subs
  {
    MemberIsCurrent(ops, id, x);
  }

  lemma {:induction false} FixedKeepsMembers(ops: seq<Op>, es: seq<Op>, id: Shared, c: Text)
    requires ValidShared(id) && Current(ops, SharedText(id), c).Some? && MembersFixed(ops, es, id)
    ensures KeepsMembers(Run(ops), es, StoreKey(id.name, id.filter))
    decreases |es|
  {
    MembersAreSubscribed(ops, id, c);
    if es != [] {
      var key, next := StoreKey(id.name, id.filter), ops + [es[0]];
      assert next[..|next| - 1] == ops && Run(next) == Step(Run(ops), es[0]);
      MembersFixedNext(ops, es, id, c);
      MembersAreSubscribed(next, id, c);
      forall x ensures x in Run(next).groups[key].subs <==> x in Run(ops).groups[key].subs {
        MembersFixedNext(ops, es, id, x);
        MembersAreSubscribed(ops, id, x);
        MembersAreSubscribed(next, id, x);
      }
      FixedKeepsMembers(next, es[1..], id, c);
    }
  }

  /** Fairness over whole runs: after any history, in any series of operations that leaves the
      set of members as it is, each of the k members is picked floor(n/k) or ceil(n/k) times by
      the n publishes that match the group, as long as the 64-bit counter does not wrap or k
      divides 2^64. */
  lemma GroupFairness(ops: seq<Op>, es: seq<Op>, id: Shared, c: Text)
    requires ValidShared(id) && Current(ops, SharedText(id), c).Some? && MembersFixed(ops, es, id)
    ensures var key, s := StoreKey(id.name, id.filter), Run(ops);
            && key in s.groups && c in s.groups[key].subs
            && var n, k := |Picks(s, es, key)|, |s.groups[key].subs|;
               s.groups[key].rr + n <= UINT64 || UINT64 % k == 0 ==>
                 n / k <= Times(Picks(s, es, key), c) <= n / k + (if n % k == 0 then 0 else 1)
  {
    var key, s := StoreKey(id.name, id.filter), Run(ops);
    MemberIsCurrent(ops, id, c);
    RunIsSound(ops);
    FixedKeepsMembers(ops, es, id, c);
    PicksAreRounds(s, es, key);
    var n := |Picks(s, es, key)|;
    if s.groups[key].rr + n <= UINT64 || UINT64 % |s.groups[key].subs| == 0 { RoundRobinFair(s.groups[key], n, c); }
  }

  /** The publishes a group has served: those that matched it since it last had no member. */
  ghost function Hits(ops: seq<Op>, id: Shared): nat
  {
    if ops == [] || forall c :: Current(ops, SharedText(id), c).None? then 0
    else
      var op := ops[|ops| - 1];
      Hits(ops[..|ops| - 1], id) + if op.Pub? && FilterMatches(Split(op.topic), Split(id.filter)) then 1 else 0
  }

  lemma CreatedAtZero(s: State, op: Op, key: Text)
    requires key !in s.groups && key in Step(s, op).groups
    ensures Step(s, op).groups[key].rr == 0 && !op.Pub?
  {
  }

  /** A 64-bit counter after `n` increments. */
  function Wrapped(n: nat): nat
  {
    n % UINT64
  }

  ghost function NextHits(ops: seq<Op>, id: Shared, n: nat): nat
    requires ops != []
  {
    var op := ops[|ops| - 1];
    if StoreKey(id.name, id.filter) !in Run(ops).groups then 0
    else n + if op.Pub? && FilterMatches(Split(op.topic), Split(id.filter)) then 1 else 0
  }

  lemma HitsNext(ops: seq<Op>, id: Shared)
    requires ValidShared(id) && ops != []
    ensures Hits(ops, id) == NextHits(ops, id, Hits(ops[..|ops| - 1], id))
  {
    hide Run;
    SharedRoutingTheorem(ops, id);
    if StoreKey(id.name, id.filter) !in Run(ops).groups {
      assert forall c :: Current(ops, SharedText(id), c).None?;
    }
  }

  lemma StepCounts(s: State, op: Op, id: Shared, n: nat)
    requires Sound(s.groups) && ValidShared(id) && StoreKey(id.name, id.filter) in Step(s, op).groups
    requires var key := StoreKey(id.name, id.filter); if key in s.groups then s.groups[key].rr == Wrapped(n) else n == 0
    ensures var k := n + if op.Pub? && FilterMatches(Split(op.topic), Split(id.filter)) then 1 else 0;
            Step(s, op).groups[StoreKey(id.name, id.filter)].rr == Wrapped(k)
  {
    hide Step, Split;
    var key := StoreKey(id.name, id.filter);
    if key in s.groups {
      StoreKeyInjective(id, s.groups[key].id);
      StepMovesCounter(s, op, key);
      WrapNext(n);
    } else {
      CreatedAtZero(s, op, key);
    }
  }

  ghost predicate CounterIs(ops: seq<Op>, id: Shared, n: nat)
  {
    var key := StoreKey(id.name, id.filter);
    if key in Run(ops).groups then Run(ops).groups[key].rr == Wrapped(n) else n == 0
  }

  lemma CounterNext(ops: seq<Op>, id: Shared, n: nat)
    requires ValidShared(id) && ops != [] && CounterIs(ops[..|ops| - 1], id, n)
    ensures CounterIs(ops, id, NextHits(ops, id, n))
  {
    var front, op := ops[..|ops| - 1], ops[|ops| - 1];
    RunIsSound(front);
    hide Step, Wrapped, StoreKey;
    if StoreKey(id.name, id.filter) in Run(ops).groups { StepCounts(Run(front), op, id, n); }
  }

  lemma {:induction false} CounterIsHits(ops: seq<Op>, id: Shared)
    requires ValidShared(id)
    ensures CounterIs(ops, id, Hits(ops, id))
  {
    if ops != [] {
      hide CounterIs, NextHits;
      CounterIsHits(ops[..|ops| - 1], id);
      CounterNext(ops, id, Hits(ops[..|ops| - 1], id));
      HitsNext(ops, id);
    }
  }

  lemma WrapNext(n: nat)
    ensures (n + 1) % UINT64 == if n % UINT64 + 1 == UINT64 then 0 else n % UINT64 + 1
  {
  }

  /** Whom a group picks, by history: of the clients subscribed to it, the one with as many
      before it in byte order as the group has served publishes, counted modulo 2^64 and then
      modulo their number. */
  lemma PickedByHistory(ops: seq<Op>, id: Shared, members: set<Text>)
    requires ValidShared(id) && members != {} && forall c :: c in members <==> Current(ops, SharedText(id), c).Some?
    ensures var key := StoreKey(id.name, id.filter);
            && key in Run(ops).groups && Run(ops).groups[key].subs != map[] && PickId(Run(ops).groups[key]) in members
            && |Before(members, PickId(Run(ops).groups[key]))| == Hits(ops, id) % UINT64 % |members|
  {
    var key := StoreKey(id.name, id.filter);
    var c :| c in members;
    MembersAreSubscribed(ops, id, c);
    forall x ensures x in Run(ops).groups[key].subs <==> x in members { MembersAreSubscribed(ops, id, x); }
    assert Run(ops).groups[key].subs.Keys == members;
    CounterIsHits(ops, id);
    PickRank(Run(ops).groups[key]);
  }

  // ----- listing a client's filters ---------------------------------------------

  /** The listing holds exactly the filters the history leaves in force, each once. */
  ghost predicate ListsInForce(ops: seq<Op>, c: Text, res: seq<Text>)
  {
    Distinct(res) && forall f :: f in res <==> Current(ops, f, c).Some?
  }

  /** Listing inverts storing, over whole runs: what `GetFilters` returns holds exactly the
      filters in force, each once, if and only if none of the client's plain filters in force
      begins with a slash. */
  lemma ListingTheorem(ops: seq<Op>, c: Text, plain: seq<Text>, shared: seq<Text>)
    requires ListsFilters(Run(ops).live, c, plain) <==> NoLeadingSlash(Run(ops).live, c)
    requires ListsShared(Run(ops).groups, Run(ops).groups.Keys, c, shared)
    ensures ListsInForce(ops, c, plain + shared)
            <==> forall f :: ParseShared(f).None? && Current(ops, f, c).Some? ==> !BeginsWithSlash(f)
  {
    forall f ensures f in shared <==> ParseShared(f).Some? && Current(ops, f, c).Some? { SharedListed(ops, c, shared, f); }
    forall f ensures (Split(f), c) in Run(ops).live <==> ParseShared(f).None? && Current(ops, f, c).Some? { PlainStored(ops, c, f); }
    if ListsFilters(Run(ops).live, c, plain) {
      JoinedListing(ops, c, plain, shared);
    } else if ListsInForce(ops, c, plain + shared) {
      PlainPart(ops, c, plain, shared);
    }
  }

  lemma JoinedListing(ops: seq<Op>, c: Text, plain: seq<Text>, shared: seq<Text>)
    requires Distinct(plain) && forall f :: f in plain <==> ParseShared(f).None? && Current(ops, f, c).Some?
    requires Distinct(shared) && forall f :: f in shared <==> ParseShared(f).Some? && Current(ops, f, c).Some?
    ensures ListsInForce(ops, c, plain + shared)
  {
    forall i, j | 0 <= i < j < |plain + shared| ensures (plain + shared)[i] != (plain + shared)[j] {
      if i < |plain| <= j { assert plain[i] in plain && shared[j - |plain|] in shared; }
    }
  }

  /** In an exact listing the plain part lists exactly the plain filters. */
  lemma PlainPart(ops: seq<Op>, c: Text, plain: seq<Text>, shared: seq<Text>)
    requires ListsInForce(ops, c, plain + shared)
    requires forall f :: f in shared <==> ParseShared(f).Some? && Current(ops, f, c).Some?
    ensures Distinct(plain) && forall f :: f in plain <==> ParseShared(f).None? && Current(ops, f, c).Some?
  {
    var all := plain + shared;
    forall i, j | 0 <= i < j < |plain| ensures plain[i] != plain[j] { assert all[i] == plain[i] && all[j] == plain[j]; }
    forall i, j | 0 <= i < |plain| && 0 <= j < |shared| ensures plain[i] != shared[j] {
      assert all[i] == plain[i] && all[|plain| + j] == shared[j];
    }
    forall f | f in plain ensures ParseShared(f).None? && Current(ops, f, c).Some? {
      assert f in all;
    }
    forall f | ParseShared(f).None? && Current(ops, f, c).Some? ensures f in plain { assert f in all; }
  }

  lemma PlainStored(ops: seq<Op>, c: Text, f: Text)
    ensures (Split(f), c) in Run(ops).live <==> ParseShared(f).None? && Current(ops, f, c).Some?
  {
    if (Split(f), c) in Run(ops).live {
      var g := StoredIsCurrent(ops, (Split(f), c));
      SplitInjective(f, g);
    } else if ParseShared(f).None? {
      LiveIsCurrent(ops, f, c);
    }
  }

  lemma SharedListed(ops: seq<Op>, c: Text, shared: seq<Text>, f: Text)
    requires ListsShared(Run(ops).groups, Run(ops).groups.Keys, c, shared)
    ensures f in shared <==> ParseShared(f).Some? && Current(ops, f, c).Some?
  {
    RunIsSound(ops);
    var st := Run(ops).groups;
    if f in shared {
      var k :| k in st && c in st[k].subs && f == SharedText(st[k].id);
      ParseSharedInverse(st[k].id);
      MemberIsCurrent(ops, st[k].id, c);
    } else if ParseShared(f).Some? {
      ParseSharedSound(f);
      MemberIsCurrent(ops, ParseShared(f).value, c);
      var key := StoreKey(ParseShared(f).value.name, ParseShared(f).value.filter);
      if key in st { StoreKeyInjective(ParseShared(f).value, st[key].id); }
    }
  }

  // ----- retained replay and live routing ---------------------------------------

  /** The filter retained topics are matched against: the inner one if shared. */
  function ReplayFilter(f: Text): Text
  {
    if ParseShared(f).Some? then ParseShared(f).value.filter else f
  }

  /** After subscribing to `f`, would a live publish on `t` reach that subscription (or its
      group)? */
  ghost predicate WouldRoute(s: State, f: Text, sub: Subscriber, t: Text)
  {
    var s' := Step(s, Sub(f, sub));
    if ParseShared(f).Some? then
      var id := ParseShared(f).value;
      var key := StoreKey(id.name, id.filter);
      key in s'.groups && sub.clientId in s'.groups[key].subs
      && FilterMatches(Split(t), Split(s'.groups[key].id.filter))
    else
      var k := (Split(f), sub.clientId);
      k in s'.live && s'.live[k] == sub && TrieMatch(k.0, Split(t))
  }

  /** Replay delivers a retained topic exactly when live routing would. */
  lemma ReplayAgreesWithRouting(s: State, f: Text, sub: Subscriber, t: Text)
    requires ValidTopicFilter(f) && Sound(s.groups)
    ensures FilterMatches(Split(t), Split(ReplayFilter(f))) <==> WouldRoute(s, f, sub, t)
  {
    hide FilterMatches, TrieMatch, Split;
    if ParseShared(f).Some? {
      ParseSharedSound(f);
      var id := ParseShared(f).value;
      var key := StoreKey(id.name, id.filter);
      if key in s.groups { StoreKeyInjective(id, s.groups[key].id); }
    } else {
      ValidFilterHashOnlyLast(f);
      TrieMatchIsFilterMatches(Split(f), Split(t));
    }
  }

  // ----- the router object ------------------------------------------------------

  /** The calls made for the matched subscribers that have a delivery function. */
  ghost function Direct(m: Subs, topic: Text, payload: seq<Byte>, qos: nat): map<Text, Delivery>
  {
    map c | c in m && m[c].deliver.Some? :: Delivery(m[c].deliver.value, topic, payload, MinQos(qos, m[c].qos), false)
  }

  /** The calls a replay against filter `f` makes for the retained topics in `where`. */
  ghost function ReplayIn(r: map<Text, Retained>, where: set<Text>, f: Text, sub: Subscriber): map<Text, Delivery>
  {
    map t | t in r && t in where && FilterMatches(Split(t), Split(f)) && sub.deliver.Some? ::
      Delivery(sub.deliver.value, t, r[t].payload, MinQos(r[t].qos, sub.qos), true)
  }

  lemma ReplayNext(r: map<Text, Retained>, done: set<Text>, t: Text, f: Text, sub: Subscriber)
    requires t in r && t !in done
    ensures ReplayIn(r, done + {t}, f, sub) ==
            if FilterMatches(Split(t), Split(f)) && sub.deliver.Some? then
              ReplayIn(r, done, f, sub)[t := Delivery(sub.deliver.value, t, r[t].payload, MinQos(r[t].qos, sub.qos), true)]
            else ReplayIn(r, done, f, sub)
  {
  }

  /** `d` is a delivery to client `c` under its filter `f` in force, at the lower of the two QoS
      values. */
  ghost predicate ServesClient(ops: seq<Op>, f: Text, c: Text, topic: Text, payload: seq<Byte>, qos: nat, d: Delivery)
  {
    var s := Current(ops, f, c);
    && Routed(ops, topic, f, c) && s.value.deliver == Some(d.conn) && d.topic == topic && d.payload == payload && !d.retain
    && d.qos <= qos && d.qos <= s.value.qos && (d.qos == qos || d.qos == s.value.qos)
  }

  /** Publishing, over whole runs: what a client gets is due to one of its filters in force that
      accept the topic, at the lower of the published QoS and the one granted to that filter, and
      no other such filter is granted more; a client with such filters gets it, unless one of them
      has no delivery function. */
  lemma PublishTheorem(ops: seq<Op>, topic: Text, payload: seq<Byte>, qos: nat, m: Subs, c: Text)
    requires ValidOps(ops) && IsBest(m, Matching(Run(ops).live, Split(topic)))
    ensures c in Direct(m, topic, payload, qos) ==>
              var d := Direct(m, topic, payload, qos)[c];
              && (exists f :: ServesClient(ops, f, c, topic, payload, qos, d))
              && (forall f :: Routed(ops, topic, f, c) ==> d.qos == qos || d.qos >= Current(ops, f, c).value.qos)
    ensures (exists f :: Routed(ops, topic, f, c)) && (forall f :: Routed(ops, topic, f, c) ==> Current(ops, f, c).value.deliver.Some?)
            ==> c in Direct(m, topic, payload, qos)
  {
    RoutingTheorem(ops, topic, m);
    if c in m {
      var f :| Routed(ops, topic, f, c) && Current(ops, f, c) == Some(m[c]);
      if c in Direct(m, topic, payload, qos) {
        assert ServesClient(ops, f, c, topic, payload, qos, Direct(m, topic, payload, qos)[c]);
      }
    }
  }

  /** `d` is a delivery to client `c` under its shared subscription in force, at the lower of
      the two QoS values. */
  ghost predicate ServesMember(ops: seq<Op>, id: Shared, c: Text, topic: Text, payload: seq<Byte>, qos: nat, d: Delivery)
  {
    var s := Current(ops, SharedText(id), c);
    && s.Some? && s.value.deliver == Some(d.conn) && d.topic == topic && d.payload == payload && !d.retain
    && d.qos <= qos && d.qos <= s.value.qos && (d.qos == qos || d.qos == s.value.qos)
  }

  /** Shared delivery, over whole runs: what a group delivers goes to one member whose
      subscription is in force, and only if the group's filter matches. */
  lemma SharedDeliveryIsDue(ops: seq<Op>, id: Shared, topic: Text, payload: seq<Byte>, qos: nat)
    requires ValidShared(id)
    requires StoreKey(id.name, id.filter) in Deliveries(Run(ops).groups, Run(ops).groups.Keys, topic, payload, qos)
    ensures FilterMatches(Split(topic), Split(id.filter))
    ensures var d := Deliveries(Run(ops).groups, Run(ops).groups.Keys, topic, payload, qos)[StoreKey(id.name, id.filter)];
            exists c :: ServesMember(ops, id, c, topic, payload, qos, d)
  {
    var key, st := StoreKey(id.name, id.filter), Run(ops).groups;
    DeliveredIsOffered(st, key, topic, payload, qos);
    SharedRoutingTheorem(ops, id);
    var d := Deliveries(st, st.Keys, topic, payload, qos)[key];
    assert ServesMember(ops, id, PickId(st[key]), topic, payload, qos, d);
  }

  /** Conversely a matching group with a subscription in force delivers, unless the member it
      picks has no delivery function. */
  lemma SharedDeliveryIsMade(ops: seq<Op>, id: Shared, topic: Text, payload: seq<Byte>, qos: nat, c: Text)
    requires ValidShared(id) && FilterMatches(Split(topic), Split(id.filter)) && Current(ops, SharedText(id), c).Some?
    requires forall x :: Current(ops, SharedText(id), x).Some? ==> Current(ops, SharedText(id), x).value.deliver.Some?
    ensures StoreKey(id.name, id.filter) in Deliveries(Run(ops).groups, Run(ops).groups.Keys, topic, payload, qos)
  {
    var key, st := StoreKey(id.name, id.filter), Run(ops).groups;
    SharedRoutingTheorem(ops, id);
    DeliveredIsOffered(st, key, topic, payload, qos);
    assert Current(ops, SharedText(id), PickId(st[key])) == Some(st[key].subs[PickId(st[key])]);
  }

  lemma DeliveredIsOffered(st: Store, key: Text, topic: Text, payload: seq<Byte>, qos: nat)
    ensures var out := Deliveries(st, st.Keys, topic, payload, qos);
            && (key in out <==> key in st && Offered(st[key], topic, payload, qos).Some?)
            && (key in out ==> out[key] == Offered(st[key], topic, payload, qos).value)
  {
  }

  /** Replay, over whole runs: a topic is delivered exactly when a retained message is in force
      on it and a live publish would be routed to the filter, at the lower of the two QoS
      values. */
  lemma ReplayTheorem(ops: seq<Op>, f: Text, sub: Subscriber, t: Text)
    requires ValidTopicFilter(f) && sub.deliver.Some?
    ensures var out := ReplayIn(Run(ops).retained, Run(ops).retained.Keys, ReplayFilter(f), sub);
            && (t in out <==> LastRetained(ops, t).Some? && WouldRoute(Run(ops), f, sub, t))
            && (t in out ==>
                  var d, r := out[t], LastRetained(ops, t).value;
                  && d.conn == sub.deliver.value && d.topic == t && d.payload == r.payload && d.retain
                  && d.qos <= r.qos && d.qos <= sub.qos && (d.qos == r.qos || d.qos == sub.qos))
  {
    RunIsSound(ops);
    RetainedIsLast(ops, t);
    ReplayAgreesWithRouting(Run(ops), f, sub, t);
  }

  class Router {
    const index: Index
    const groups: Groups
    var retained: map<Text, Retained>

    ghost predicate Valid()
      reads this, index, index.repr, groups, groups.shared.Values
    {
      && Separated()
      && index.Valid()
      && groups.Valid()
    }

    ghost function Own(): set<object>
      reads this, index, groups
    {
      {this, index, groups} + index.repr + groups.shared.Values
    }

    ghost predicate Separated()
      reads this, index, groups
    {
      && this !in index.repr && groups !in index.repr && index !in index.repr
      && (forall g :: g in groups.shared.Values ==> g !in index.repr)
    }

    ghost function Now(): State
      reads this, index, groups, groups.shared.Values
    {
      State(index.live, groups.View(), retained)
    }

    constructor (hash: Text -> nat)
      ensures Valid() && Now() == Start() && fresh(Own())
    {
      index := new Index(hash);
      groups := new Groups();
      retained := map[];
    }

    method Subscribe(filter: Text, sub: Subscriber)
      requires Valid()
      modifies index, index.repr, groups, groups.shared.Values
      ensures Valid() && Now() == Step(old(Now()), Sub(filter, sub))
      ensures fresh(index.repr - old(index.repr)) && fresh(groups.shared.Values - old(groups.shared.Values))
    {
      var p := ParseShared(filter);
      if p.Some? {
        ParseSharedSound(filter);
        SubscribeGroup(p.value, sub);
      } else {
        SubscribePlain(filter, sub);
      }
    }

    method SubscribeGroup(id: Shared, sub: Subscriber)
      requires Valid() && ValidShared(id)
      modifies groups, groups.shared.Values
      ensures Valid() && groups.View() == JoinGroup(old(groups.View()), id, sub)
      ensures fresh(groups.shared.Values - old(groups.shared.Values))
    {
      hide Index.Valid, Groups.Valid;
      groups.SubscribeShared(id, sub);
      assert index.Valid() == old(index.Valid());
    }

    method SubscribePlain(filter: Text, sub: Subscriber)
      requires Valid()
      modifies index, index.repr
      ensures Valid() && index.live == old(index.live)[(Split(filter), sub.clientId) := sub]
      ensures groups.View() == old(groups.View()) && fresh(index.repr - old(index.repr))
    {
      hide Index.Valid, Groups.Valid;
      index.Subscribe(filter, sub);
      assert groups.Valid() == old(groups.Valid()) && groups.View() == old(groups.View());
    }

    method Unsubscribe(filter: Text, c: Text)
      requires Valid()
      modifies index, index.repr, groups, groups.shared.Values
      ensures Valid() && Now() == Step(old(Now()), Unsub(filter, c))
      ensures index.repr == old(index.repr) && groups.shared.Values <= old(groups.shared.Values)
    {
      var p := ParseShared(filter);
      if p.Some? {
        ParseSharedSound(filter);
        UnsubscribeGroup(p.value, c);
      } else {
        UnsubscribePlain(filter, c);
      }
    }

    method UnsubscribeGroup(id: Shared, c: Text)
      requires Valid() && ValidShared(id)
      modifies groups, groups.shared.Values
      ensures Valid() && groups.View() == LeaveGroup(old(groups.View()), id, c)
      ensures groups.shared.Values <= old(groups.shared.Values)
    {
      hide Index.Valid, Groups.Valid;
      groups.UnsubscribeShared(id, c);
      assert index.Valid() == old(index.Valid());
    }

    method UnsubscribePlain(filter: Text, c: Text)
      requires Valid()
      modifies index, index.repr
      ensures Valid() && index.live == old(index.live) - {(Split(filter), c)} && index.repr == old(index.repr)
      ensures groups.View() == old(groups.View())
    {
      hide Index.Valid, Groups.Valid;
      index.Unsubscribe(filter, c);
      assert groups.Valid() == old(groups.Valid()) && groups.View() == old(groups.View());
    }

    method UnsubscribeAll(c: Text)
      requires Valid()
      modifies index, index.repr, groups, groups.shared.Values
      ensures Valid() && Now() == Step(old(Now()), UnsubAll(c))
      ensures index.repr == old(index.repr) && groups.shared.Values <= old(groups.shared.Values)
    {
      hide Index.Valid, Groups.Valid;
      index.UnsubscribeAll(c);
      assert groups.Valid() == old(groups.Valid()) && groups.View() == old(groups.View());
      label mid:
      var _ := groups.RemoveClientFromAll(c);
      assert index.Valid() == old@mid(index.Valid());
    }

    /** Keeps a retained message, then delivers to each matched client and to one member of
        each matching group, at the lower of the two QoS values. */
    method Publish(topic: Text, payload: seq<Byte>, qos: nat, retain: bool)
      returns (direct: map<Text, Delivery>, viaGroup: map<Text, Delivery>, delivered: nat, ghost matched: Subs)
      requires Valid()
      modifies this, groups.shared.Values
      ensures Valid() && Now() == Step(old(Now()), Pub(topic, payload, qos, retain))
      ensures IsBest(matched, Matching(old(index.live), Split(topic)))
      ensures direct == Direct(matched, topic, payload, qos)
      ensures viaGroup == Deliveries(old(groups.View()), old(groups.View()).Keys, topic, payload, qos)
      ensures delivered == |direct| + |viaGroup|
      ensures index.repr == old(index.repr) && groups.shared.Values == old(groups.shared.Values)
    {
      hide Router.Valid, Direct, Deliveries, Served, Keep, IsBest, Matching;
      KeepRetained(topic, payload, qos, retain);
      direct, matched := DeliverDirect(topic, payload, qos);
      viaGroup := DeliverToGroups(topic, payload, qos);
      delivered := |direct| + |viaGroup|;
    }

    method KeepRetained(topic: Text, payload: seq<Byte>, qos: nat, retain: bool)
      requires Valid()
      modifies `retained
      ensures Valid() && retained == Keep(old(retained), topic, payload, qos, retain)
      ensures groups.View() == old(groups.View())
    {
      hide Index.Valid, Groups.Valid;
      if retain {
        if payload == [] {
          retained := retained - {topic};
        } else {
          retained := retained[topic := Retained(topic, payload, qos)];
        }
      }
      assert index.Valid() == old(index.Valid());
      assert groups.Valid() == old(groups.Valid()) && groups.View() == old(groups.View());
    }

    method DeliverDirect(topic: Text, payload: seq<Byte>, qos: nat)
      returns (direct: map<Text, Delivery>, ghost matched: Subs)
      requires Valid()
      ensures Valid() && groups.View() == old(groups.View())
      ensures IsBest(matched, Matching(index.live, Split(topic)))
      ensures direct == Direct(matched, topic, payload, qos)
    {
      hide Index.Valid, Groups.Valid;
      var subs := index.MatchSubscribers(topic);
      matched := subs;
      direct := DeliverAll(subs, topic, payload, qos);
      assert index.Valid() == old(index.Valid());
      assert groups.Valid() == old(groups.Valid()) && groups.View() == old(groups.View());
    }

    method DeliverToGroups(topic: Text, payload: seq<Byte>, qos: nat) returns (viaGroup: map<Text, Delivery>)
      requires Valid()
      modifies groups.shared.Values
      ensures Valid() && groups.View() == Served(old(groups.View()), old(groups.View()).Keys, Split(topic))
      ensures viaGroup == Deliveries(old(groups.View()), old(groups.View()).Keys, topic, payload, qos)
    {
      hide Index.Valid, Groups.Valid;
      viaGroup := groups.DeliverShared(topic, payload, qos);
      assert index.Valid() == old(index.Valid());
    }

    /** Offers each retained message to a new subscription. */
    method SendRetained(filter: Text, sub: Subscriber) returns (out: map<Text, Delivery>)
      requires Valid()
      ensures out == ReplayIn(retained, retained.Keys, ReplayFilter(filter), sub)
    {
      var matchFilter := filter;
      var p := ParseShared(filter);
      if p.Some? { matchFilter := p.value.filter; }
      out := ReplayAll(retained, matchFilter, sub);
      assert matchFilter == ReplayFilter(filter);
    }

    /** All filters of a client: those of the index, then the shared ones. */
    method GetFilters(c: Text) returns (res: seq<Text>, ghost plain: seq<Text>, ghost shared: seq<Text>)
      requires Valid()
      ensures res == plain + shared && ListsShared(groups.View(), groups.View().Keys, c, shared)
      ensures ListsFilters(index.live, c, plain) <==> NoLeadingSlash(index.live, c)
    {
      var a := PlainFilters(c);
      var b := groups.FiltersOf(c);
      res, plain, shared := a + b, a, b;
      assert groups.View() == old(groups.View());
    }

    method PlainFilters(c: Text) returns (res: seq<Text>)
      requires Valid()
      ensures groups.Valid() && groups.View() == old(groups.View())
      ensures ListsFilters(index.live, c, res) <==> NoLeadingSlash(index.live, c)
    {
      ghost var paths;
      res, paths := index.GetFilters(c);
      assert groups.Valid() == old(groups.Valid()) && groups.View() == old(groups.View());
    }

    method SetRetained(msg: Retained)
      requires Valid()
      modifies this
      ensures Valid() && Now() == Step(old(Now()), Load(msg))
    {
      hide Index.Valid, Groups.Valid;
      retained := retained[msg.topic := msg];
      assert groups.Valid() == old(groups.Valid()) && groups.View() == old(groups.View());
      assert index.Valid() == old(index.Valid());
    }
  }

  method DeliverAll(subs: Subs, topic: Text, payload: seq<Byte>, qos: nat) returns (out: map<Text, Delivery>)
    ensures out == Direct(subs, topic, payload, qos)
  {
    out := map[];
    var rest := subs.Keys;
    while rest != {}
      invariant rest <= subs.Keys
      invariant out == map c | c in Direct(subs, topic, payload, qos) && c !in rest :: Direct(subs, topic, payload, qos)[c]
    {
      var c :| c in rest;
      var sub := subs[c];
      if sub.deliver.Some? {
        out := out[c := Delivery(sub.deliver.value, topic, payload, MinQos(qos, sub.qos), false)];
      }
      rest := rest - {c};
    }
  }

  method ReplayAll(r: map<Text, Retained>, f: Text, sub: Subscriber) returns (out: map<Text, Delivery>)
    ensures out == ReplayIn(r, r.Keys, f, sub)
  {
    out := map[];
    var rest := r.Keys;
    ghost var done: set<Text> := {};
    assert ReplayIn(r, done, f, sub) == map[];
    while rest != {}
      invariant done == r.Keys - rest && rest <= r.Keys
      invariant out == ReplayIn(r, done, f, sub)
    {
      var t :| t in rest;
      var matches := TopicMatchesFilter(t, f);
      ReplayNext(r, done, t, f, sub);
      if matches && sub.deliver.Some? {
        out := out[t := Delivery(sub.deliver.value, t, r[t].payload, MinQos(r[t].qos, sub.qos), true)];
      }
      DoneNext(r.Keys, rest, t);
      rest, done := rest - {t}, done + {t};
    }
    assert done == r.Keys;
  }

  method Perform(r: Router, op: Op)
    requires r.Valid()
    modifies r.Own()
    ensures r.Valid() && r.Now() == Step(old(r.Now()), op) && fresh(r.Own() - old(r.Own()))
  {
    match op
    case Sub(f, sub) => r.Subscribe(f, sub);
    case Unsub(f, c) => r.Unsubscribe(f, c);
    case UnsubAll(c) => r.UnsubscribeAll(c);
    case Pub(t, payload, qos, retain) => var _, _, _, _ := r.Publish(t, payload, qos, retain);
    case Load(msg) => r.SetRetained(msg);
  }

  /** Performs a history on a fresh router. */
  method Execute(hash: Text -> nat, ops: seq<Op>) returns (r: Router)
    ensures r.Valid() && r.Now() == Run(ops)
  {
    hide Router.Valid, Router.Now, Step;
    r := new Router(hash);
    for i := 0 to |ops|
      invariant r.Valid() && r.Now() == Run(ops[..i])
      invariant fresh(r.Own())
    {
      assert ops[..i + 1][..i] == ops[..i];
      Perform(r, ops[i]);
    }
    assert ops[..|ops|] == ops;
  }
}
