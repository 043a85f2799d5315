/** Partition ownership in a cluster, and which broker re-routes a cluster message. */
module Partitions {
  import opened Bytes
  import opened Ordering
  import opened Counting

  type Ownership = map<nat, Text>

  /** The owner `reconcilePartitions` computes: the live brokers in sorted order take turns. */
  function Assigned(self: Text, ids: seq<Text>, p: nat): Text
  {
    if ids == [] then self else Sort(ids)[p % |ids|]
  }

  function OwnerIn(self: Text, o: Ownership, p: nat): Text
  {
    if p in o then o[p] else self
  }

  datatype ClusterMsg = ClusterMsg(ver: nat, source: Text, partition: nat)

  predicate Reroutes(self: Text, o: Ownership, m: ClusterMsg)
  {
    m.source != self && (m.ver >= 1 ==> OwnerIn(self, o, m.partition) == self)
  }

  class Manager {
    const brokerId: Text
    const partitionCount: nat
    var ownership: Ownership

    constructor (brokerId: Text, partitionCount: nat)
      ensures this.brokerId == brokerId && this.partitionCount == partitionCount
      ensures forall p :: p in ownership <==> 0 <= p < partitionCount
      ensures forall p :: p in ownership ==> ownership[p] == brokerId
    {
      this.brokerId, this.partitionCount := brokerId, partitionCount;
      ownership := map[];
      new;
      for i := 0 to partitionCount
        invariant forall p :: p in ownership <==> 0 <= p < i
        invariant forall p :: p in ownership ==> ownership[p] == brokerId
      {
        ownership := ownership[i := brokerId];
      }
    }

    /** Every topic falls into one of the partitions, whatever the hash. */
    function PartitionForTopic(hash: Text -> nat, topic: Text): (p: nat)
      requires partitionCount > 0
      ensures p < partitionCount
    {
      hash(topic) % partitionCount
    }

    method Owner(p: nat) returns (id: Text)
      ensures id == OwnerIn(brokerId, ownership, p)
    {
      if p in ownership { return ownership[p]; }
      id := brokerId;
    }

    method SetOwner(p: nat, id: Text)
      modifies this
      ensures ownership == old(ownership)[p := id]
    {
      ownership := ownership[p := id];
    }

    /** `ids` are the live brokers, in any order; none when the listing failed. */
    method Reconcile(ids: seq<Text>)
      modifies this
      ensures forall p :: 0 <= p < partitionCount ==> p in ownership && ownership[p] == Assigned(brokerId, ids, p)
      ensures forall p :: p >= partitionCount ==> (p in ownership <==> p in old(ownership)) && (p in ownership ==> ownership[p] == old(ownership)[p])
    {
      var n, sorted := |ids|, Sort(ids);
      for p := 0 to partitionCount
        invariant forall q :: 0 <= q < p ==> q in ownership && ownership[q] == Assigned(brokerId, ids, q)
        invariant forall q :: q >= partitionCount ==> (q in ownership <==> q in old(ownership)) && (q in ownership ==> ownership[q] == old(ownership)[q])
      {
        SetOwner(p, if n == 0 then brokerId else sorted[p % n]);
      }
    }

    /** Whether a message seen on the cluster channel is published locally. */
    method OnClusterMsg(m: ClusterMsg) returns (publish: bool)
      ensures publish == Reroutes(brokerId, ownership, m)
    {
      if m.source == brokerId { return false; }
      if m.ver >= 1 {
        var owner := Owner(m.partition);
        if owner != brokerId { return false; }
      }
      publish := true;
    }
  }

  // ----- agreement ------------------------------------------------------------------------

  /** Brokers that see the same live brokers, in whatever order, assign the same owners. */
  lemma OrderIrrelevant(a: Text, ids: seq<Text>, b: Text, others: seq<Text>, p: nat)
    requires ids != [] && multiset(ids) == multiset(others)
    ensures Assigned(a, ids, p) == Assigned(b, others, p)
  {
    assert |multiset(ids)| == |ids| && |multiset(others)| == |others|;
    SortSorts(ids);
    SortSorts(others);
    SortedUnique(Sort(ids), Sort(others));
  }

  /** Every partition is owned by a live broker. */
  lemma OwnerIsLive(self: Text, ids: seq<Text>, p: nat)
    requires ids != []
    ensures Assigned(self, ids, p) in ids
  {
    assert Sort(ids)[p % |ids|] in multiset(Sort(ids));
  }

  /** The owner of a partition, by rank: as many live brokers come before it in byte order as the
      partition number leaves modulo their number. */
  lemma OwnerByRank(self: Text, ids: seq<Text>, live: set<Text>, p: nat)
    requires Distinct(ids) && live != {} && live == set id | id in ids
    ensures Assigned(self, ids, p) in live && |Before(live, Assigned(self, ids, p))| == p % |live|
  {
    DistinctIsSet(ids);
    DistinctSize(ids);
    SortSorts(ids);
    OwnerIsLive(self, ids, p);
    RankInListing(Sort(ids), live, p % |ids|);
  }

  // ----- balance ----------------------------------------------------------------------------

  /** How many of the first `n` partitions a broker owns. */
  function Owned(self: Text, ids: seq<Text>, n: nat, id: Text): nat
  {
    if n == 0 then 0 else Owned(self, ids, n - 1, id) + if Assigned(self, ids, n - 1) == id then 1 else 0
  }

  lemma SortKeepsDistinct(ids: seq<Text>)
    requires Distinct(ids)
    ensures Distinct(Sort(ids))
  {
    var live := set id | id in ids;
    DistinctIsSet(ids);
    SortSorts(ids);
    ListingFacts(Sort(ids), live);
  }

  lemma {:induction false} DistinctIsSet(ids: seq<Text>)
    requires Distinct(ids)
    ensures multiset(ids) == multiset(set id | id in ids)
    decreases |ids|
  {
    if ids != [] {
      var k := |ids| - 1;
      var rest := ids[..k];
      DistinctIsSet(rest);
      assert ids == rest + [ids[k]];
      assert (set id | id in ids) == (set id | id in rest) + {ids[k]};
    }
  }

  lemma {:induction false} OwnedIsCount(self: Text, ids: seq<Text>, n: nat, j: nat)
    requires j < |ids| && Distinct(Sort(ids))
    ensures Owned(self, ids, n, Sort(ids)[j]) == CountMod(0, n, |ids|, j)
  {
    hide Sort;
    if n > 0 {
      OwnedIsCount(self, ids, n - 1, j);
      var sorted, i := Sort(ids), (n - 1) % |ids|;
      assert i != j ==> sorted[i] != sorted[j];
    }
  }

  /** The partition counts of any two live brokers differ by at most one. */
  lemma Balanced(self: Text, ids: seq<Text>, n: nat, a: Text, b: Text)
    requires Distinct(ids) && a in ids && b in ids
    ensures Owned(self, ids, n, a) <= Owned(self, ids, n, b) + 1
  {
    var sorted := Sort(ids);
    SortKeepsDistinct(ids);
    assert a in multiset(sorted) && b in multiset(sorted);
    var i :| 0 <= i < |sorted| && sorted[i] == a;
    var j :| 0 <= j < |sorted| && sorted[j] == b;
    OwnedIsCount(self, ids, n, i);
    OwnedIsCount(self, ids, n, j);
    CountIsBalanced(0, n, |ids|, i);
    CountIsBalanced(0, n, |ids|, j);
  }

  function TotalOwned(self: Text, ids: seq<Text>, n: nat, among: seq<Text>): nat
  {
    if among == [] then 0 else Owned(self, ids, n, among[0]) + TotalOwned(self, ids, n, among[1..])
  }

  lemma {:induction false} TotalNext(self: Text, ids: seq<Text>, n: nat, among: seq<Text>)
    requires n > 0 && Distinct(among)
    ensures TotalOwned(self, ids, n, among) == TotalOwned(self, ids, n - 1, among) + if Assigned(self, ids, n - 1) in among then 1 else 0
    decreases |among|
  {
    if among != [] {
      TotalNext(self, ids, n, among[1..]);
      assert among == [among[0]] + among[1..];
    }
  }

  /** The live brokers together own every partition exactly once. */
  lemma {:induction false} EveryPartitionOnce(self: Text, ids: seq<Text>, n: nat)
    requires Distinct(ids) && ids != []
    ensures TotalOwned(self, ids, n, ids) == n
  {
    hide Assigned, Owned, TotalOwned, Distinct;
    if n == 0 {
      NothingOwned(self, ids, ids);
    } else {
      EveryPartitionOnce(self, ids, n - 1);
      TotalNext(self, ids, n, ids);
      OwnerIsLive(self, ids, n - 1);
    }
  }

  lemma {:induction false} NothingOwned(self: Text, ids: seq<Text>, among: seq<Text>)
    ensures TotalOwned(self, ids, 0, among) == 0
    decreases |among|
  {
    if among != [] { NothingOwned(self, ids, among[1..]); }
  }

  // ----- who re-routes ------------------------------------------------------------------------

  /** A broker's ownership is what it computed from the live brokers it saw. */
  predicate Reconciled(self: Text, o: Ownership, ids: seq<Text>, count: nat)
  {
    forall p :: 0 <= p < count ==> p in o && o[p] == Assigned(self, ids, p)
  }

  /** Under agreement a version 1 message is re-routed by its partition's owner and no other
      broker, and never by its source. */
  lemma OnlyOwnerReroutes(self: Text, o: Ownership, ids: seq<Text>, count: nat, m: ClusterMsg, other: Text, others: seq<Text>)
    requires Reconciled(self, o, ids, count) && ids != [] && multiset(ids) == multiset(others)
    requires m.ver >= 1 && m.partition < count
    ensures Reroutes(self, o, m) <==> self == Assigned(other, others, m.partition) && self != m.source
  {
    OrderIrrelevant(self, ids, other, others, m.partition);
  }

  /** The live brokers with their ownership tables, each computed from the live brokers as that
      broker saw them, in any order, and none holding a partition beyond the count. */
  ghost predicate Agreed(cluster: map<Text, Ownership>, seen: map<Text, seq<Text>>, ids: seq<Text>, count: nat)
  {
    && ids != [] && cluster.Keys == seen.Keys
    && forall b :: b in cluster ==>
         && multiset(seen[b]) == multiset(ids) && Reconciled(b, cluster[b], seen[b], count)
         && forall p :: p in cluster[b] ==> p < count
  }

  /** The brokers that re-route a message. */
  ghost function Rerouters(cluster: map<Text, Ownership>, m: ClusterMsg): set<Text>
  {
    set b | b in cluster && Reroutes(b, cluster[b], m)
  }

  /** Under agreement a version 1 message within the partition range goes to its partition's
      owner alone; a version 0 message, or one with a partition number beyond the range, goes to
      everyone but its source. */
  lemma ReroutersAre(cluster: map<Text, Ownership>, seen: map<Text, seq<Text>>, ids: seq<Text>, count: nat, m: ClusterMsg)
    requires Agreed(cluster, seen, ids, count)
    ensures Rerouters(cluster, m) ==
            (if m.ver >= 1 && m.partition < count then cluster.Keys * {Assigned([], ids, m.partition)} else cluster.Keys) - {m.source}
  {
    if m.ver >= 1 && m.partition < count {
      forall b | b in cluster ensures Reroutes(b, cluster[b], m) <==> b == Assigned([], ids, m.partition) && b != m.source {
        assert |multiset(seen[b])| == |seen[b]| && |multiset(ids)| == |ids|;
        OnlyOwnerReroutes(b, cluster[b], seen[b], count, m, [], ids);
      }
    }
  }

  /** The exact condition for at most one re-routing: the message is of version 1 within the
      partition range, or there is at most one broker besides its source. */
  lemma ReroutedAtMostOnceIff(cluster: map<Text, Ownership>, seen: map<Text, seq<Text>>, ids: seq<Text>, count: nat, m: ClusterMsg)
    requires Agreed(cluster, seen, ids, count)
    ensures |Rerouters(cluster, m)| <= 1 <==> (m.ver >= 1 && m.partition < count) || |cluster.Keys - {m.source}| <= 1
  {
    ReroutersAre(cluster, seen, ids, count, m);
    if m.ver >= 1 && m.partition < count {
      AtMostOne(cluster.Keys, Assigned([], ids, m.partition), m.source);
    }
  }

  lemma AtMostOne(s: set<Text>, x: Text, y: Text)
    ensures |s * {x} - {y}| <= 1
  {
    var t := s * {x} - {y};
    if t != {} { assert t == {x}; }
  }
}
