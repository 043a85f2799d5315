/** The byte-wise order of strings and sorted listings, as `sort.Strings` produces them. */
module Ordering {
  import opened Bytes

  predicate Leq(a: Text, b: Text)
  {
    a == [] || (b != [] && (a[0] < b[0] || (a[0] == b[0] && Leq(a[1..], b[1..]))))
  }

  lemma {:induction false} LeqTotal(a: Text, b: Text)
    ensures Leq(a, b) || Leq(b, a)
  {
    if a != [] && b != [] && a[0] == b[0] { LeqTotal(a[1..], b[1..]); }
  }

  lemma {:induction false} LeqAntisymmetric(a: Text, b: Text)
    requires Leq(a, b) && Leq(b, a)
    ensures a == b
  {
    if a != [] && b != [] {
      LeqAntisymmetric(a[1..], b[1..]);
      assert a == [a[0]] + a[1..] && b == [b[0]] + b[1..];
    }
  }

  lemma {:induction false} LeqTransitive(a: Text, b: Text, c: Text)
    requires Leq(a, b) && Leq(b, c)
    ensures Leq(a, c)
  {
    if a != [] && a[0] == b[0] && b[0] == c[0] { LeqTransitive(a[1..], b[1..], c[1..]); }
  }

  ghost predicate Sorted(s: seq<Text>)
  {
    forall i, j :: 0 <= i < j < |s| ==> Leq(s[i], s[j])
  }

  /** Inserting into a sorted sequence keeps it sorted. */
  function Insert(x: Text, s: seq<Text>): (r: seq<Text>)
    ensures multiset(r) == multiset(s) + multiset{x} && |r| == |s| + 1
  {
    if s == [] then [x]
    else if Leq(x, s[0]) then assert [x] + s == [x] + s; [x] + s
    else assert s == [s[0]] + s[1..]; [s[0]] + Insert(x, s[1..])
  }

  function Sort(s: seq<Text>): (r: seq<Text>)
    ensures multiset(r) == multiset(s) && |r| == |s|
  {
    if s == [] then [] else assert s == [s[0]] + s[1..]; Insert(s[0], Sort(s[1..]))
  }

  lemma {:induction false} InsertSorted(x: Text, s: seq<Text>)
    requires Sorted(s)
    ensures Sorted(Insert(x, s))
  {
    if s != [] {
      if Leq(x, s[0]) {
        forall i | 0 <= i < |s| ensures Leq(x, s[i]) { if i > 0 { LeqTransitive(x, s[0], s[i]); } }
      } else {
        LeqTotal(x, s[0]);
        InsertSorted(x, s[1..]);
        var r := Insert(x, s[1..]);
        forall i | 0 <= i < |r| ensures Leq(s[0], r[i]) {
          assert r[i] in multiset(r);
          if r[i] != x { assert r[i] in s[1..]; }
        }
      }
    }
  }

  lemma {:induction false} SortSorts(s: seq<Text>)
    ensures Sorted(Sort(s))
  {
    if s != [] {
      SortSorts(s[1..]);
      InsertSorted(s[0], Sort(s[1..]));
    }
  }

  lemma SortedHead(a: seq<Text>, b: seq<Text>)
    requires a != [] && b != [] && Sorted(a) && Sorted(b) && multiset(a) == multiset(b)
    ensures a[0] == b[0]
  {
    assert a[0] in multiset(b) && b[0] in multiset(a);
    var i :| 0 <= i < |b| && b[i] == a[0];
    var j :| 0 <= j < |a| && a[j] == b[0];
    if i > 0 && j > 0 { LeqAntisymmetric(a[0], b[0]); }
  }

  lemma TailMultiset(a: seq<Text>)
    requires a != []
    ensures multiset(a[1..]) == multiset(a) - multiset{a[0]}
  {
    assert a == [a[0]] + a[1..];
  }

  /** There is only one sorted arrangement, so the arrival order is irrelevant. */
  lemma {:induction false} SortedUnique(a: seq<Text>, b: seq<Text>)
    requires Sorted(a) && Sorted(b) && multiset(a) == multiset(b)
    ensures a == b
  {
    assert |multiset(a)| == |a| && |multiset(b)| == |b|;
    if a != [] {
      SortedHead(a, b);
      TailMultiset(a);
      TailMultiset(b);
      SortedUnique(a[1..], b[1..]);
      assert a == [a[0]] + a[1..] && b == [b[0]] + b[1..];
    }
  }

  /** `ids` lists a set in sorted order, each member once. */
  ghost predicate SortedListing(ids: seq<Text>, keys: set<Text>)
  {
    Sorted(ids) && multiset(ids) == multiset(keys)
  }

  lemma ListingFacts(ids: seq<Text>, keys: set<Text>)
    requires SortedListing(ids, keys)
    ensures |ids| == |keys| && (forall i :: 0 <= i < |ids| ==> ids[i] in keys)
    ensures forall x :: x in keys ==> x in ids
    ensures forall i, j :: 0 <= i < j < |ids| ==> ids[i] != ids[j]
  {
    assert |multiset(ids)| == |ids| && |multiset(keys)| == |keys|;
    forall i | 0 <= i < |ids| ensures ids[i] in keys { assert ids[i] in multiset(ids); }
    forall x | x in keys ensures x in ids { assert x in multiset(ids); }
    forall i, j | 0 <= i < j < |ids| ensures ids[i] != ids[j] {
      assert ids == ids[..i] + [ids[i]] + ids[i + 1..j] + [ids[j]] + ids[j + 1..];
      assert multiset(ids)[ids[i]] <= 1;
    }
  }

  /** The members that come before `x` in byte order. */
  ghost function Before(keys: set<Text>, x: Text): set<Text>
  {
    set y | y in keys && y != x && Leq(y, x)
  }

  lemma {:induction false} DistinctSize(s: seq<Text>)
    requires Distinct(s)
    ensures |set x | x in s| == |s|
    decreases |s|
  {
    if s != [] {
      var n := |s| - 1;
      var front := s[..n];
      DistinctSize(front);
      assert s == front + [s[n]];
      assert (set x | x in s) == (set x | x in front) + {s[n]};
    }
  }

  /** Entry `k` of a sorted listing has exactly `k` members before it. */
  lemma RankInListing(ids: seq<Text>, keys: set<Text>, k: nat)
    requires SortedListing(ids, keys) && k < |ids|
    ensures |Before(keys, ids[k])| == k
  {
    ListingFacts(ids, keys);
    var front := ids[..k];
    forall j | k < j < |ids| ensures !Leq(ids[j], ids[k]) {
      if Leq(ids[j], ids[k]) { LeqAntisymmetric(ids[j], ids[k]); }
    }
    forall y | y in Before(keys, ids[k]) ensures y in front {
      var j :| 0 <= j < |ids| && ids[j] == y;
      assert front[j] == y;
    }
    assert Before(keys, ids[k]) == set x | x in front;
    DistinctSize(front);
  }

  /** The listing of a set, whatever order its members were met in. */
  ghost function Listing(keys: set<Text>): (ids: seq<Text>)
    ensures SortedListing(ids, keys)
    ensures |ids| == |keys| && forall i :: 0 <= i < |ids| ==> ids[i] in keys
  {
    if keys == {} then []
    else
      var k :| k in keys;
      var rest := Listing(keys - {k});
      InsertSorted(k, rest);
      var ids := Insert(k, rest);
      ListingFacts(ids, keys);
      ids
  }

  /** Collects a map's keys in some order and sorts them. */
  method SortedIds(keys: set<Text>) returns (ids: seq<Text>)
    ensures ids == Listing(keys)
  {
    ids := [];
    var rest := keys;
    while rest != {}
      invariant rest <= keys && multiset(ids) == multiset(keys - rest)
    {
      var k :| k in rest;
      assert keys - (rest - {k}) == (keys - rest) + {k};
      ids := ids + [k];
      rest := rest - {k};
    }
    assert keys - rest == keys;
    SortSorts(ids);
    ids := Sort(ids);
    SortedUnique(ids, Listing(keys));
  }
}
