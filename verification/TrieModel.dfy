/** The subscription trie as a value: every node named by its path from the root.
    These are the specifications of the pointer structure in `TrieNodes`. */
module TrieModel {
  import opened Bytes
  import opened Topics

  /** `deliver` names the delivery function a subscription holds, None being nil. */
  datatype Subscriber = Subscriber(clientId: Text, qos: nat, deliver: Option<nat>)

  type Subs = map<Text, Subscriber>

  type Trie = map<Path, Subs>

  ghost predicate PrefixClosed(t: Trie)
  {
    forall p: Path, i :: p in t && 0 <= i <= |p| ==> p[..i] in t
  }

  ghost predicate Keyed(t: Trie)
  {
    forall p, c :: p in t && c in t[p] ==> t[p][c].clientId == c
  }

  ghost predicate WellFormed(t: Trie)
  {
    [] in t && PrefixClosed(t) && Keyed(t)
  }

  ghost predicate Leaf(t: Trie, p: Path)
  {
    forall q :: q in t && p <= q ==> q == p
  }

  /** A node with neither children nor subscribers. */
  ghost predicate Bare(t: Trie, p: Path)
  {
    p in t && t[p] == map[] && Leaf(t, p)
  }

  /** Every leaf below the root carries a subscription. */
  ghost predicate NoDeadLeaf(t: Trie)
  {
    forall p :: p in t && p != [] ==> !Bare(t, p)
  }

  lemma AbsentBelow(t: Trie, p: Path)
    requires PrefixClosed(t) && p !in t
    ensures forall q :: q in t ==> !(p <= q)
  {
    assert forall q :: q in t && p <= q ==> q[..|p|] in t && q[..|p|] == p;
  }

  lemma TakeNext(segs: Path, i: nat)
    requires i < |segs|
    ensures segs[..i + 1] == segs[..i] + [segs[i]]
  {
  }

  lemma AppendInjective(p: Path, s: Text, p': Path, s': Text)
    requires p + [s] == p' + [s']
    ensures p == p' && s == s'
  {
    assert (p + [s])[..|p|] == p && (p' + [s'])[..|p'|] == p';
    assert (p + [s])[|p|] == s && (p' + [s'])[|p'|] == s';
  }

  // ----- operations ---------------------------------------------------------

  ghost function Prefixes(segs: Path): (s: set<Path>)
    ensures forall p :: p in s <==> p <= segs
  {
    var s := set i | 0 <= i <= |segs| :: segs[..i];
    assert forall p :: p <= segs ==> p == segs[..|p|];
    s
  }

  ghost function WithPath(t: Trie, segs: Path): Trie
  {
    map p | p in t.Keys + Prefixes(segs) :: if p in t then t[p] else map[]
  }

  lemma WithPathPresent(t: Trie, q: Path)
    requires PrefixClosed(t) && q in t
    ensures WithPath(t, q) == t
  {
    var s := Prefixes(q);
    forall p | p in s ensures p in t { assert p == q[..|p|]; }
  }

  lemma WithPathTwice(t: Trie, p: Path, q: Path)
    requires p <= q
    ensures WithPath(WithPath(t, p), q) == WithPath(t, q)
  {
    assert Prefixes(p) <= Prefixes(q);
  }

  lemma AddWellFormed(t: Trie, p: Path, s: Text)
    requires WellFormed(t) && p in t
    ensures WellFormed(t[p + [s] := map[]])
  {
    var q := p + [s];
    forall j | 0 <= j <= |q| ensures q[..j] in t || q[..j] == q {
      assert j <= |p| ==> q[..j] == p[..j];
    }
  }

  lemma ReplaceWellFormed(t: Trie, p: Path, subs: Subs)
    requires WellFormed(t) && p in t && forall c :: c in subs ==> subs[c].clientId == c
    ensures WellFormed(t[p := subs])
  {
    assert forall q :: q in t[p := subs] ==> q in t;
  }

  lemma WithPathAdds(t: Trie, segs: Path, i: nat)
    requires PrefixClosed(t) && i < |segs| && segs[..i] in t && segs[..i + 1] !in t
    ensures WithPath(t, segs[..i + 1]) == t[segs[..i + 1] := map[]]
  {
    PrefixesStep(segs, i);
    var s := Prefixes(segs[..i]);
    forall p | p in s ensures p in t { assert p == segs[..i][..|p|]; }
  }

  ghost function Subscribe(t: Trie, segs: Path, sub: Subscriber): Trie
  {
    var u := WithPath(t, segs);
    u[segs := u[segs][sub.clientId := sub]]
  }

  /** Deletes the bare nodes on the way from `segs` up to, and not including, depth `d`. */
  ghost function PruneTo(t: Trie, segs: Path, d: nat): Trie
    requires d <= |segs|
    decreases |segs| - d
  {
    if d == |segs| then t
    else
      var u := PruneTo(t, segs, d + 1);
      if Bare(u, segs[..d + 1]) then u - {segs[..d + 1]} else u
  }

  ghost function Unsubscribe(t: Trie, segs: Path, c: Text): Trie
  {
    if segs in t then PruneTo(t[segs := t[segs] - {c}], segs, 0) else t
  }

  /** Drops a client from the nodes in `where`. */
  ghost function RemoveAt(t: Trie, where: set<Path>, c: Text): Trie
  {
    map p | p in t :: if p in where then t[p] - {c} else t[p]
  }

  ghost function Below(t: Trie, p: Path): set<Path>
  {
    set q | q in t && p <= q
  }

  ghost function RemoveClient(t: Trie, c: Text): Trie
  {
    RemoveAt(t, t.Keys, c)
  }

  /** The subscription stored for a filter path and a client, if any. */
  function Lookup(t: Trie, p: Path, c: Text): Option<Subscriber>
  {
    if p in t && c in t[p] then Some(t[p][c]) else None
  }

  // ----- what the operations store ------------------------------------------

  lemma SubscribeStores(t: Trie, segs: Path, sub: Subscriber)
    requires WellFormed(t)
    ensures WellFormed(Subscribe(t, segs, sub))
    ensures forall p, c :: Lookup(Subscribe(t, segs, sub), p, c) ==
                           if p == segs && c == sub.clientId then Some(sub) else Lookup(t, p, c)
  {
    var u := Subscribe(t, segs, sub);
    forall p: Path, i | p in u && 0 <= i <= |p| ensures p[..i] in u {
      if p !in t { assert p <= segs && p[..i] <= segs; }
    }
  }

  lemma DeleteBareWellFormed(t: Trie, q: Path)
    requires WellFormed(t) && Bare(t, q) && q != []
    ensures WellFormed(t - {q})
  {
    forall p: Path, i | p in t && p != q && 0 <= i <= |p| ensures p[..i] in t && p[..i] != q { }
  }

  lemma {:induction false} PruneToShape(t: Trie, segs: Path, d: nat)
    requires WellFormed(t) && d <= |segs|
    ensures WellFormed(PruneTo(t, segs, d))
    ensures PruneTo(t, segs, d).Keys <= t.Keys
    ensures forall p :: p in t && p !in PruneTo(t, segs, d) ==> t[p] == map[] && p <= segs && d < |p|
    ensures forall p :: p in PruneTo(t, segs, d) ==> PruneTo(t, segs, d)[p] == t[p]
    decreases |segs| - d
  {
    if d < |segs| {
      PruneToShape(t, segs, d + 1);
      var u := PruneTo(t, segs, d + 1);
      var q := segs[..d + 1];
      if Bare(u, q) { DeleteBareWellFormed(u, q); }
    }
  }

  lemma UnsubscribeRemoves(t: Trie, segs: Path, c0: Text)
    requires WellFormed(t)
    ensures WellFormed(Unsubscribe(t, segs, c0))
    ensures forall p, c :: Lookup(Unsubscribe(t, segs, c0), p, c) ==
                           if p == segs && c == c0 then None else Lookup(t, p, c)
  {
    if segs in t {
      var t' := t[segs := t[segs] - {c0}];
      assert forall p :: p in t' ==> p in t;
      assert WellFormed(t');
      PruneToShape(t', segs, 0);
      forall p, c
        ensures Lookup(Unsubscribe(t, segs, c0), p, c) == if p == segs && c == c0 then None else Lookup(t, p, c)
      {
        assert Lookup(PruneTo(t', segs, 0), p, c) == Lookup(t', p, c);
      }
    }
  }

  /** Pruning below depth `d` keeps every node up to that depth. */
  lemma KeptAbove(t: Trie, segs: Path, d: nat, c: Text, p: Path)
    requires WellFormed(t) && segs in t && d <= |segs| && p in t && |p| <= d
    ensures p in PruneTo(t[segs := t[segs] - {c}], segs, d)
  {
    var t' := t[segs := t[segs] - {c}];
    assert WellFormed(t') by { assert forall p :: p in t' ==> p in t; }
    PruneToShape(t', segs, d);
  }

  /** Pruning is exact: a node disappears only if no subscription remains on it. */
  lemma UnsubscribeDeletesOnlyEmpty(t: Trie, segs: Path, c: Text, p: Path)
    requires WellFormed(t) && p in t && p !in Unsubscribe(t, segs, c)
    ensures p != [] && p <= segs && t[p].Keys <= (if p == segs then {c} else {})
  {
    var t' := t[segs := t[segs] - {c}];
    assert WellFormed(t') by { assert forall p :: p in t' ==> p in t; }
    PruneToShape(t', segs, 0);
    assert t'[p] == map[];
    forall k | k in t[p] ensures p == segs && k == c {
      assert k !in t'[p];
    }
  }

  lemma RemoveClientRemoves(t: Trie, c0: Text)
    requires WellFormed(t)
    ensures WellFormed(RemoveClient(t, c0))
    ensures forall p, c :: Lookup(RemoveClient(t, c0), p, c) == if c == c0 then None else Lookup(t, p, c)
  {
    var u := RemoveClient(t, c0);
    assert forall p :: p in t ==> p in u && u[p] == t[p] - {c0};
    forall p, c ensures Lookup(u, p, c) == if c == c0 then None else Lookup(t, p, c) { }
  }

  // ----- pruning leaves nothing behind --------------------------------------

  lemma SubscribeKeepsNoDeadLeaf(t: Trie, segs: Path, sub: Subscriber)
    requires WellFormed(t) && NoDeadLeaf(t)
    ensures NoDeadLeaf(Subscribe(t, segs, sub))
  {
    var u := Subscribe(t, segs, sub);
    forall p | p in u && p != [] ensures !Bare(u, p) {
      if p <= segs {
        assert segs in u && u[segs] != map[] by { assert sub.clientId in u[segs]; }
      } else {
        assert p in t && u[p] == t[p] && !Bare(t, p);
        if t[p] == map[] {
          var q :| q in t && p <= q && q != p;
          assert q in u;
        }
      }
    }
  }

  /** Deleting a bare node can expose only its parent. */
  lemma DeleteBare(u: Trie, segs: Path, d: nat, p: Path)
    requires WellFormed(u) && d < |segs| && Bare(u, segs[..d + 1])
    requires p in u && !Bare(u, p) && Bare(u - {segs[..d + 1]}, p)
    ensures p == segs[..d]
  {
    var q := segs[..d + 1];
    var v := u - {q};
    var x :| x in u && p <= x && x != p;
    assert x !in v;
    assert q[..d] in u;
    assert segs[..d] == q[..d] && segs[..d] in v;
    assert p <= segs[..d];
  }

  /** Only the node at depth `d` on the pruned path can still be bare. */
  lemma {:induction false} PruneToDead(t: Trie, segs: Path, d: nat)
    requires WellFormed(t) && d <= |segs|
    requires forall p :: p in t && p != [] && Bare(t, p) ==> p == segs
    ensures forall p :: p in PruneTo(t, segs, d) && p != [] && Bare(PruneTo(t, segs, d), p) ==> p == segs[..d]
    decreases |segs| - d
  {
    if d == |segs| {
      assert segs[..d] == segs;
    } else {
      PruneToDead(t, segs, d + 1);
      PruneToShape(t, segs, d + 1);
      var u := PruneTo(t, segs, d + 1);
      var v := PruneTo(t, segs, d);
      forall p | p in v && p != [] && Bare(v, p) ensures p == segs[..d] {
        if v != u { DeleteBare(u, segs, d, p); }
      }
    }
  }

  lemma UnsubscribeKeepsNoDeadLeaf(t: Trie, segs: Path, c: Text)
    requires WellFormed(t) && NoDeadLeaf(t)
    ensures NoDeadLeaf(Unsubscribe(t, segs, c))
  {
    if segs in t {
      var t' := t[segs := t[segs] - {c}];
      assert WellFormed(t') by { assert forall p :: p in t' ==> p in t; }
      forall p | p in t' && p != [] && Bare(t', p) ensures p == segs {
        assert !Bare(t, p);
        if p != segs { assert forall q :: q in t ==> q in t'; }
      }
      PruneToDead(t', segs, 0);
    }
  }

  /** `UnsubscribeAll` removes the client's subscriptions but keeps their nodes. */
  lemma RemoveClientLeavesDeadLeaf(seg: Text, sub: Subscriber)
    ensures var t := Subscribe(map[[] := map[]], [seg], sub);
            NoDeadLeaf(t) && !NoDeadLeaf(RemoveClient(t, sub.clientId))
  {
    var e: Trie := map[[] := map[]];
    var t := Subscribe(e, [seg], sub);
    assert PrefixClosed(e);
    SubscribeKeepsNoDeadLeaf(e, [seg], sub);
    var r := RemoveClient(t, sub.clientId);
    assert [seg] in r && r[[seg]] == map[];
    forall q | q in r && [seg] <= q ensures q == [seg] { assert q <= [seg]; }
    assert Bare(r, [seg]);
  }

  lemma RemoveClientKeepsShape(t: Trie, c: Text, p: Path)
    requires p in t
    ensures var u := RemoveClient(t, c);
            u.Keys == t.Keys && u[p] == t[p] - {c} && (Leaf(u, p) <==> Leaf(t, p))
  {
    var u := RemoveClient(t, c);
    assert u.Keys == t.Keys;
  }

  /** The exact condition: `UnsubscribeAll` keeps the leaf law if and only if the client is not
      the only subscriber of any leaf. */
  lemma RemoveClientKeepsNoDeadLeafIff(t: Trie, c: Text)
    requires WellFormed(t) && NoDeadLeaf(t)
    ensures NoDeadLeaf(RemoveClient(t, c)) <==> forall p :: p in t && p != [] && Leaf(t, p) ==> t[p].Keys != {c}
  {
    var u := RemoveClient(t, c);
    forall p | p in t && p != [] ensures Bare(u, p) <==> Leaf(t, p) && t[p].Keys == {c} {
      RemoveClientKeepsShape(t, c, p);
      assert !Bare(t, p);
      if t[p].Keys == {c} {
        assert (t[p] - {c}).Keys == {};
      } else if t[p] != map[] {
        var k :| k in t[p] && k != c;
        assert k in u[p];
      }
    }
    assert u.Keys == t.Keys;
  }

  lemma PrefixesStep(segs: Path, d: nat)
    requires d < |segs|
    ensures Prefixes(segs[..d + 1]) == Prefixes(segs[..d]) + {segs[..d + 1]}
  {
    var s := Prefixes(segs[..d + 1]);
    forall p | p in s ensures p in Prefixes(segs[..d]) + {segs[..d + 1]} {
      assert p == segs[..|p|];
    }
  }

  /** Pruning a path whose nodes beyond depth `k` are new and empty deletes exactly them. */
  lemma {:induction false} PruneToUndoes(t: Trie, segs: Path, d: nat)
    requires WellFormed(t) && NoDeadLeaf(t) && d <= |segs|
    ensures PruneTo(WithPath(t, segs), segs, d) == WithPath(t, segs[..d])
    decreases |segs| - d
  {
    var w := WithPath(t, segs[..d]);
    if d == |segs| {
      assert segs[..d] == segs;
    } else {
      PruneToUndoes(t, segs, d + 1);
      var q := segs[..d + 1];
      var u := WithPath(t, q);
      PrefixesStep(segs, d);
      if q in t {
        assert !Bare(t, q);
        assert forall p :: p in t ==> p in u && u[p] == t[p];
        assert !Bare(u, q);
        assert u == w;
      } else {
        AbsentBelow(t, q);
        assert Bare(u, q) && u - {q} == w;
      }
    }
  }

  /** Subscribing a fresh pair and unsubscribing it restores the identical trie. */
  lemma SubscribeUnsubscribe(t: Trie, segs: Path, sub: Subscriber)
    requires WellFormed(t) && NoDeadLeaf(t)
    requires segs in t ==> sub.clientId !in t[segs]
    ensures Unsubscribe(Subscribe(t, segs, sub), segs, sub.clientId) == t
  {
    var u := Subscribe(t, segs, sub);
    var w := WithPath(t, segs);
    assert w[segs][sub.clientId := sub] - {sub.clientId} == w[segs];
    assert u[segs := u[segs] - {sub.clientId}] == w;
    PruneToUndoes(t, segs, 0);
    assert segs[..0] == [];
    assert WithPath(t, []) == t;
  }

  // ----- runs without UnsubscribeAll ------------------------------------------

  datatype TrieOp = Add(segs: Path, sub: Subscriber) | Drop(segs: Path, client: Text)

  ghost function Apply(t: Trie, op: TrieOp): Trie
  {
    match op
    case Add(segs, sub) => Subscribe(t, segs, sub)
    case Drop(segs, c) => Unsubscribe(t, segs, c)
  }

  ghost function Build(ops: seq<TrieOp>): Trie
  {
    if ops == [] then map[[] := map[]] else Apply(Build(ops[..|ops| - 1]), ops[|ops| - 1])
  }

  /** In every run of subscribe and unsubscribe each leaf below the root has a subscriber. */
  lemma {:induction false} BuildHasNoDeadLeaf(ops: seq<TrieOp>)
    ensures WellFormed(Build(ops)) && NoDeadLeaf(Build(ops))
  {
    if ops != [] {
      var t, op := Build(ops[..|ops| - 1]), ops[|ops| - 1];
      BuildHasNoDeadLeaf(ops[..|ops| - 1]);
      match op
      case Add(segs, sub) =>
        SubscribeStores(t, segs, sub);
        SubscribeKeepsNoDeadLeaf(t, segs, sub);
      case Drop(segs, c) =>
        UnsubscribeRemoves(t, segs, c);
        UnsubscribeKeepsNoDeadLeaf(t, segs, c);
    }
  }

  /** After any such run, adding a pair that is not stored and dropping it again gives back
      the identical trie. */
  lemma BuildUndo(ops: seq<TrieOp>, segs: Path, sub: Subscriber)
    requires Lookup(Build(ops), segs, sub.clientId).None?
    ensures Build(ops + [Add(segs, sub), Drop(segs, sub.clientId)]) == Build(ops)
  {
    BuildHasNoDeadLeaf(ops);
    SubscribeUnsubscribe(Build(ops), segs, sub);
    var one, two := ops + [Add(segs, sub)], ops + [Add(segs, sub), Drop(segs, sub.clientId)];
    assert two[..|two| - 1] == one && one[..|one| - 1] == ops;
  }

  // ----- matching -----------------------------------------------------------

  /** Which stored paths `matchNode` visits and merges for a topic. */
  predicate TrieMatch(q: Path, t: Path)
  {
    || (q == [] && t == [])
    || q == [HASH]
    || (q != [] && t != [] && (q[0] == t[0] || q[0] == PLUS) && TrieMatch(q[1..], t[1..]))
  }

  lemma {:induction false} TrieMatchIsFilterMatches(q: Path, t: Path)
    requires HashOnlyLast(q)
    ensures TrieMatch(q, t) == FilterMatches(t, q)
  {
    if q == [] || t == [] {
      assert |q| > 1 ==> q[0] != HASH;
      if q != [] && q[0] == HASH { assert q == [HASH]; }
    } else {
      TrieMatchIsFilterMatches(q[1..], t[1..]);
      if q[0] == HASH { assert q == [HASH]; }
    }
  }

  /** A topic on which the two matchers disagree when '#' is at position `k < |q| - 1`. */
  function Witness(q: Path, k: nat): Path
    requires k <= |q|
  {
    if k == 0 then [[120]]
    else [if q[0] == PLUS then [120] else q[0]] + Witness(q[1..], k - 1)
  }

  lemma {:induction false} MatchersDiffer(q: Path, k: nat)
    requires k < |q| - 1 && q[k] == HASH && HASH !in q[..k]
    ensures FilterMatches(Witness(q, k), q) && !TrieMatch(q, Witness(q, k))
  {
    var t := Witness(q, k);
    if k == 0 {
      assert t == [[120]];
    } else {
      assert q[0] in q[..k];
      assert q[..k] == [q[0]] + q[1..][..k - 1];
      MatchersDiffer(q[1..], k - 1);
      assert t[1..] == Witness(q[1..], k - 1);
    }
  }

  /** The trie and the linear matcher agree on all topics for exactly the filters whose
      only '#' is the last segment. */
  lemma MatchersAgreeIff(q: Path)
    ensures (forall t :: TrieMatch(q, t) == FilterMatches(t, q)) <==> HashOnlyLast(q)
  {
    if HashOnlyLast(q) {
      forall t ensures TrieMatch(q, t) == FilterMatches(t, q) { TrieMatchIsFilterMatches(q, t); }
    } else {
      var k := FirstHash(q);
      MatchersDiffer(q, k);
    }
  }

  lemma {:induction false} FirstHash(q: Path) returns (k: nat)
    requires !HashOnlyLast(q)
    ensures k < |q| - 1 && q[k] == HASH && HASH !in q[..k]
  {
    if q[0] == HASH {
      k := 0;
    } else {
      var i :| 0 <= i < |q| - 1 && q[i] == HASH;
      assert q[1..][i - 1] == HASH;
      k := FirstHash(q[1..]);
      assert q[..k + 1] == [q[0]] + q[1..][..k];
      k := k + 1;
    }
  }

  // ----- merging by highest QoS ---------------------------------------------

  /** `m` holds, for each client with a candidate, one of its candidates of highest QoS. */
  ghost predicate IsBest(m: Subs, cands: set<Subscriber>)
  {
    && (forall c :: c in m ==> m[c] in cands && m[c].clientId == c)
    && (forall s :: s in cands ==> s.clientId in m && s.qos <= m[s.clientId].qos)
  }

  /** The subscribers below `p` that match the rest `t` of a topic. */
  ghost function Found(m: Trie, p: Path, t: Path): set<Subscriber>
  {
    set q, c | q in m && c in m[q] && p <= q && TrieMatch(q[|p|..], t) :: m[q][c]
  }

  ghost function HashSubs(m: Trie, p: Path): set<Subscriber>
  {
    if p + [HASH] in m then m[p + [HASH]].Values else {}
  }

  lemma FoundNothing(m: Trie, p: Path, t: Path)
    requires WellFormed(m) && p !in m
    ensures Found(m, p, t) == {}
  {
    AbsentBelow(m, p);
  }

  lemma FoundHere(m: Trie, p: Path)
    requires WellFormed(m) && p in m
    ensures Found(m, p, []) == m[p].Values + HashSubs(m, p)
  {
    assert p[|p|..] == [];
    assert (p + [HASH])[|p|..] == [HASH];
    forall q | q in m && p <= q && TrieMatch(q[|p|..], []) ensures q == p || q == p + [HASH] {
      assert q == p + q[|p|..];
    }
    var l, r := Found(m, p, []), m[p].Values + HashSubs(m, p);
    forall s | s in r ensures s in l {
      if s in m[p].Values {
        var c :| c in m[p] && m[p][c] == s;
      } else {
        var c :| c in m[p + [HASH]] && m[p + [HASH]][c] == s;
      }
    }
  }

  lemma FoundBelow(m: Trie, p: Path, t: Path)
    requires WellFormed(m) && t != []
    ensures Found(m, p, t) ==
            HashSubs(m, p)
            + Found(m, p + [t[0]], t[1..]) + Found(m, p + [PLUS], t[1..])
  {
    assert (p + [HASH])[|p|..] == [HASH];
    var h := HashSubs(m, p);
    var l, r := Found(m, p, t), h + Found(m, p + [t[0]], t[1..]) + Found(m, p + [PLUS], t[1..]);
    forall s | s in l ensures s in r {
      var q, c :| q in m && c in m[q] && p <= q && TrieMatch(q[|p|..], t) && m[q][c] == s;
      assert q == p + q[|p|..];
      if q[|p|..] != [HASH] {
        StepDown(q, p);
      }
    }
    forall s | s in r ensures s in l {
      if s in h {
        var c :| c in m[p + [HASH]] && m[p + [HASH]][c] == s;
      } else {
        var x :| (x == t[0] || x == PLUS) && s in Found(m, p + [x], t[1..]);
        var q, c :| q in m && c in m[q] && p + [x] <= q && TrieMatch(q[|p + [x]|..], t[1..]) && m[q][c] == s;
        StepDown(q, p);
      }
    }
  }

  lemma StepDown(q: Path, p: Path)
    requires p <= q && p != q
    ensures q[|p|..][0] == q[|p|] && p + [q[|p|]] <= q && q[|p + [q[|p|]]|..] == q[|p|..][1..]
  {
  }

  lemma BelowChild(t: Trie, p: Path, s: Text)
    requires p in t
    ensures Below(t, p + [s]) < Below(t, p)
    ensures forall q :: q in Below(t, p + [s]) <==> q in t && p <= q && q != p && q[|p|] == s
  {
    assert p in Below(t, p) && p !in Below(t, p + [s]);
    forall q | q in t && p <= q && q != p && q[|p|] == s ensures p + [s] <= q {
      assert q[..|p| + 1] == p + [s];
    }
  }

  // ----- listing filters ----------------------------------------------------

  /** How `collectFilters` extends the printed prefix by one segment. */
  function NextName(prefix: Text, seg: Text): Text
  {
    if prefix == [] then seg else prefix + [SLASH] + seg
  }

  /** The text `collectFilters` prints for the node at a path. */
  function Name(p: Path): Text
  {
    if p == [] then [] else NextName(Name(p[..|p| - 1]), p[|p| - 1])
  }

  function Names(ps: seq<Path>): seq<Text>
  {
    seq(|ps|, i requires 0 <= i < |ps| => Name(ps[i]))
  }

  lemma NameChild(p: Path, s: Text)
    ensures Name(p + [s]) == NextName(Name(p), s)
  {
    assert (p + [s])[..|p|] == p;
  }

  lemma NamesConcat(out: seq<Text>, ps: seq<Path>, qs: seq<Path>)
    ensures out + Names(ps) + Names(qs) == out + Names(ps + qs)
  {
    assert Names(ps + qs) == Names(ps) + Names(qs);
  }

  lemma {:induction false} NameIsJoin(p: Path)
    requires p != [] && p[0] != []
    ensures Name(p) == Join(p) && Name(p) != []
    decreases |p|
  {
    var p', s := p[..|p| - 1], p[|p| - 1];
    if |p| > 1 {
      NameIsJoin(p');
      JoinSnoc(p', s);
      assert p == p' + [s];
    }
  }

  lemma {:induction false} JoinSnoc(p: Path, s: Text)
    requires p != []
    ensures Join(p + [s]) == Join(p) + [SLASH] + s
  {
    if |p| > 1 {
      JoinSnoc(p[1..], s);
      assert (p + [s])[1..] == p[1..] + [s];
    } else {
      assert (p + [s])[1..] == [s];
    }
  }

  /** A leading empty segment loses its slash. */
  lemma {:induction false} NameShorter(p: Path)
    requires p != []
    ensures |Name(p)| <= |Join(p)|
    ensures |p| > 1 && p[0] == [] ==> |Name(p)| < |Join(p)|
    decreases |p|
  {
    var p', s := p[..|p| - 1], p[|p| - 1];
    if |p| > 1 {
      NameShorter(p');
      JoinSnoc(p', s);
      assert p == p' + [s] && p'[0] == p[0];
      if |p| == 2 { assert p' == [p[0]]; }
    }
  }

  /** The listing prints a filter back exactly when the filter is a single segment or
      does not begin with a slash. */
  lemma NameFaithfulIff(p: Path)
    requires p != []
    ensures Name(p) == Join(p) <==> |p| == 1 || p[0] != []
  {
    if p[0] != [] { NameIsJoin(p); }
    else if |p| == 1 { assert p[..0] == []; }
    else { NameShorter(p); }
  }

  /** No printed name begins with a slash. */
  lemma {:induction false} NameStartsPlain(p: Path)
    requires SlashFree(p)
    ensures Name(p) == [] || Name(p)[0] != SLASH
    decreases |p|
  {
    if p != [] {
      NameStartsPlain(p[..|p| - 1]);
      assert SLASH !in p[|p| - 1];
    }
  }
}
