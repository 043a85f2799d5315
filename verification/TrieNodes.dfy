/** The trie as linked nodes that are updated in place. Each shard keeps a ghost
    directory of its nodes by path; the trie value is read off that directory. */
module TrieNodes {
  import opened Bytes
  import opened Topics
  import opened TrieModel

  class Node {
    ghost const path: Path
    var children: map<Text, Node>
    var subscribers: Subs

    constructor (ghost path: Path)
      ensures this.path == path && children == map[] && subscribers == map[]
    {
      this.path := path;
      children := map[];
      subscribers := map[];
    }
  }

  /** What one node holds at a moment. */
  datatype View = View(node: Node, children: map<Text, Node>, subs: Subs)

  type Dir = map<Path, View>

  ghost function ModelOf(d: Dir): Trie
  {
    map p | p in d :: d[p].subs
  }

  /** The directory names each node once and agrees with the child maps. */
  ghost predicate Links(root: Node, d: Dir)
  {
    && [] in d && d[[]].node == root
    && (forall p, s :: p in d && s in d[p].children ==> Child(p, s) in d && d[Child(p, s)].node == d[p].children[s])
    && (forall p, s {:trigger Child(p, s)} :: p in d && Child(p, s) in d ==> s in d[p].children)
  }

  ghost predicate Linked(root: Node, d: Dir)
  {
    Links(root, d) && WellFormed(ModelOf(d))
  }

  ghost function Child(p: Path, s: Text): Path
  {
    p + [s]
  }

  // ----- the three ways a directory changes ---------------------------------

  ghost function AddChild(d: Dir, p: Path, seg: Text, child: Node): Dir
    requires p in d
  {
    d[p := d[p].(children := d[p].children[seg := child])][Child(p, seg) := View(child, map[], map[])]
  }

  ghost function DropChild(d: Dir, p: Path, seg: Text): Dir
    requires p in d
  {
    d[p := d[p].(children := d[p].children - {seg})] - {Child(p, seg)}
  }

  ghost function SetSubs(d: Dir, p: Path, subs: Subs): Dir
    requires p in d
  {
    d[p := d[p].(subs := subs)]
  }

  lemma AddChildAt(d: Dir, p: Path, seg: Text, child: Node)
    requires p in d && Child(p, seg) !in d
    ensures var e := AddChild(d, p, seg, child);
            && e.Keys == d.Keys + {Child(p, seg)} && e[Child(p, seg)] == View(child, map[], map[])
            && e[p] == d[p].(children := d[p].children[seg := child])
            && forall q :: q in d && q != p ==> e[q] == d[q]
  {
  }

  lemma AddChildLinks(root: Node, d: Dir, p: Path, seg: Text, child: Node)
    requires Links(root, d) && p in d && Child(p, seg) !in d
    requires forall s :: Child(Child(p, seg), s) !in d
    ensures Links(root, AddChild(d, p, seg, child))
  {
    var q := Child(p, seg);
    forall p', s | p' in d && Child(p', s) == q ensures p' == p && s == seg {
      AppendInjective(p', s, p, seg);
    }
  }

  lemma AddChildLinked(root: Node, d: Dir, p: Path, seg: Text, child: Node)
    requires Linked(root, d) && p in d && Child(p, seg) !in d
    ensures Linked(root, AddChild(d, p, seg, child))
    ensures ModelOf(AddChild(d, p, seg, child)) == ModelOf(d)[Child(p, seg) := map[]]
  {
    var q := Child(p, seg);
    var d' := AddChild(d, p, seg, child);
    assert ModelOf(d') == ModelOf(d)[q := map[]];
    AddWellFormed(ModelOf(d), p, seg);
    AbsentBelow(ModelOf(d), q);
    forall s ensures Child(q, s) !in d { assert q <= Child(q, s) && Child(q, s) !in ModelOf(d); }
    AddChildLinks(root, d, p, seg, child);
  }

  lemma DropChildLinks(root: Node, d: Dir, p: Path, seg: Text)
    requires Links(root, d) && p in d && Child(p, seg) in d
    requires forall s :: Child(Child(p, seg), s) !in d
    ensures Links(root, DropChild(d, p, seg))
  {
    var q := Child(p, seg);
    forall p', s | p' in d && Child(p', s) == q ensures p' == p && s == seg {
      AppendInjective(p', s, p, seg);
    }
  }

  lemma DropChildLinked(root: Node, d: Dir, p: Path, seg: Text)
    requires Linked(root, d) && p in d && Bare(ModelOf(d), Child(p, seg))
    ensures Linked(root, DropChild(d, p, seg))
    ensures ModelOf(DropChild(d, p, seg)) == ModelOf(d) - {Child(p, seg)}
  {
    var q := Child(p, seg);
    assert ModelOf(DropChild(d, p, seg)) == ModelOf(d) - {q};
    DeleteBareWellFormed(ModelOf(d), q);
    forall s ensures Child(q, s) !in d {
      assert q <= Child(q, s) && Child(q, s) != q && Child(q, s) !in ModelOf(d);
    }
    DropChildLinks(root, d, p, seg);
  }

  lemma SetSubsLinks(root: Node, d: Dir, p: Path, subs: Subs)
    requires Links(root, d) && p in d
    ensures Links(root, SetSubs(d, p, subs)) && ModelOf(SetSubs(d, p, subs)) == ModelOf(d)[p := subs]
  {
  }

  lemma SetSubsLinked(root: Node, d: Dir, p: Path, subs: Subs)
    requires Linked(root, d) && p in d && forall c :: c in subs ==> subs[c].clientId == c
    ensures Linked(root, SetSubs(d, p, subs))
    ensures ModelOf(SetSubs(d, p, subs)) == ModelOf(d)[p := subs]
  {
    hide Links, WellFormed, SetSubs;
    SetSubsLinks(root, d, p, subs);
    ReplaceWellFormed(ModelOf(d), p, subs);
  }

  /** Every node below `p` is reached through a child of `p`. */
  lemma ReachedByChild(root: Node, d: Dir, p: Path)
    requires Linked(root, d) && p in d
    ensures forall q :: q in d && p <= q && q != p ==> q[|p|] in d[p].children
  {
    forall q | q in ModelOf(d) && p <= q && q != p ensures q[|p|] in d[p].children {
      TakeNext(q, |p|);
      assert q[..|p| + 1] == Child(p, q[|p|]);
    }
  }

  /** Having no children in the map is having no node below in the directory. */
  lemma BareIffEmpty(root: Node, d: Dir, p: Path)
    requires Linked(root, d) && p in d
    ensures Bare(ModelOf(d), p) == (d[p].children == map[] && d[p].subs == map[])
  {
    assert forall s :: s in d[p].children ==> p <= Child(p, s) && Child(p, s) in ModelOf(d);
    ReachedByChild(root, d, p);
  }

  // ----- clearing a client from part of a directory ---------------------------

  ghost function Clear(d: Dir, where: set<Path>, c: Text): Dir
  {
    map p | p in d :: if p in where then d[p].(subs := d[p].subs - {c}) else d[p]
  }

  ghost function Under(d: Dir, p: Path): set<Path>
  {
    set q | q in d && p <= q
  }

  /** `done` is `p` and everything below it except through the children in `rest`. */
  ghost predicate Covers(paths: set<Path>, p: Path, rest: set<Text>, done: set<Path>)
  {
    forall q :: q in done <==> q in paths && p <= q && (q == p || q[|p|] !in rest)
  }

  lemma ClearTwice(d: Dir, a: set<Path>, b: set<Path>, c: Text)
    ensures Clear(Clear(d, a, c), b, c) == Clear(d, a + b, c)
  {
    var l, r := Clear(Clear(d, a, c), b, c), Clear(d, a + b, c);
    forall p | p in d ensures l[p] == r[p] {
      assert d[p].subs - {c} - {c} == d[p].subs - {c};
    }
  }

  lemma CoversNext(d: Dir, p: Path, rest: set<Text>, done: set<Path>, s: Text)
    requires Covers(d.Keys, p, rest, done) && s in rest
    requires forall q :: q in Under(d, Child(p, s)) <==> q in d && p <= q && q != p && q[|p|] == s
    ensures Covers(d.Keys, p, rest - {s}, done + Under(d, Child(p, s)))
  {
  }

  lemma ClearLinked(root: Node, d: Dir, where: set<Path>, c: Text)
    requires Linked(root, d)
    ensures Linked(root, Clear(d, where, c)) && ModelOf(Clear(d, where, c)) == RemoveAt(ModelOf(d), where, c)
  {
    var m, m' := ModelOf(d), ModelOf(Clear(d, where, c));
    assert m' == RemoveAt(m, where, c);
    assert PrefixClosed(m') by { assert forall p :: p in m' <==> p in m; }
  }

  lemma UnderChild(root: Node, d: Dir, done: set<Path>, c: Text, p: Path, s: Text)
    requires Linked(root, d) && p in d && s in d[p].children
    ensures Linked(root, Clear(d, done, c))
    ensures Child(p, s) in d && Clear(d, done, c)[Child(p, s)].node == d[p].children[s]
    ensures Under(Clear(d, done, c), Child(p, s)) == Under(d, Child(p, s)) < Under(d, p)
    ensures forall q :: q in Under(d, Child(p, s)) <==> q in d && p <= q && q != p && q[|p|] == s
  {
    ClearLinked(root, d, done, c);
    BelowChild(ModelOf(d), p, s);
    assert forall p :: Under(d, p) == Below(ModelOf(d), p);
    assert Under(Clear(d, done, c), Child(p, s)) == Under(d, Child(p, s));
  }

  /** `paths` lists, each once, the nodes of `where` at which the client subscribes. */
  ghost predicate Lists(d: Dir, where: set<Path>, c: Text, paths: seq<Path>)
  {
    && Distinct(paths)
    && (forall q :: q in paths <==> q in where && q in d && c in d[q].subs)
  }

  lemma ListsJoin(d: Dir, a: set<Path>, b: set<Path>, c: Text, ps: seq<Path>, qs: seq<Path>)
    requires a !! b && Lists(d, a, c, ps) && Lists(d, b, c, qs)
    ensures Lists(d, a + b, c, ps + qs)
  {
    forall i, j | 0 <= i < j < |ps + qs| ensures (ps + qs)[i] != (ps + qs)[j] {
      if i < |ps| <= j { assert ps[i] in ps && qs[j - |ps|] in qs; }
    }
  }

  class Shard {
    const root: Node
    ghost var at: map<Path, Node>
    ghost var nodes: set<Node>

    /** The directory lists this shard's own nodes under their paths. */
    ghost predicate Named()
      reads this
    {
      forall p :: p in at ==> at[p] in nodes && at[p].path == p
    }

    ghost function Dir(): Dir
      requires Named()
      reads this, nodes
    {
      map p | p in at :: View(at[p], at[p].children, at[p].subscribers)
    }

    ghost predicate Valid()
      reads this, nodes
    {
      Named() && Linked(root, Dir())
    }

    /** `d` is what the nodes hold now. */
    ghost predicate Shows(d: Dir)
      requires Named()
      reads this, nodes
    {
      && at.Keys == d.Keys
      && forall p :: p in at ==> d[p] == View(at[p], at[p].children, at[p].subscribers)
    }

    lemma ShowsIsDir(d: Dir)
      requires Named() && Shows(d)
      ensures Dir() == d
    {
    }

    ghost function Model(): Trie
      requires Named()
      reads this, nodes
    {
      ModelOf(Dir())
    }

    constructor ()
      ensures Valid() && Model() == map[[] := map[]]
      ensures fresh(nodes)
    {
      var r := new Node([]);
      root := r;
      at := map[[] := r];
      nodes := {r};
      new;
      assert Model() == map[[] := map[]];
    }

    /** Walks down the path, creating missing nodes, then swaps in the extended
        subscriber map. */
    method Subscribe(segs: Path, sub: Subscriber)
      requires Valid()
      modifies this, nodes
      ensures Valid() && Model() == TrieModel.Subscribe(old(Model()), segs, sub)
      ensures fresh(nodes - old(nodes))
    {
      var n := root;
      var i := 0;
      while i < |segs|
        invariant 0 <= i <= |segs|
        invariant Valid() && segs[..i] in at && n == at[segs[..i]]
        invariant Model() == WithPath(old(Model()), segs[..i])
        invariant fresh(nodes - old(nodes))
      {
        n := Descend(n, segs, i);
        WithPathTwice(old(Model()), segs[..i], segs[..i + 1]);
        i := i + 1;
      }
      assert segs[..i] == segs;
      SwapSubscribers(n, segs, n.subscribers[sub.clientId := sub]);
    }

    /** One turn of the loop: the child for `segs[i]`, created if absent. */
    method Descend(n: Node, segs: Path, i: nat) returns (child: Node)
      requires Valid() && i < |segs| && segs[..i] in at && n == at[segs[..i]]
      modifies this, nodes
      ensures Valid() && segs[..i + 1] in at && child == at[segs[..i + 1]]
      ensures Model() == WithPath(old(Model()), segs[..i + 1])
      ensures fresh(nodes - old(nodes))
    {
      var seg := segs[i];
      ghost var p, q := segs[..i], segs[..i + 1];
      TakeNext(segs, i);
      assert q == Child(p, seg);
      assert p in Dir();
      if seg in n.children {
        child := n.children[seg];
        WithPathPresent(Model(), q);
      } else {
        assert q !in Dir();
        ghost var d := Dir();
        child := Attach(n, p, seg, d);
        ShowsIsDir(AddChild(d, p, seg, child));
        AddChildLinked(root, d, p, seg, child);
        WithPathAdds(ModelOf(d), segs, i);
      }
    }

    method Attach(n: Node, ghost p: Path, seg: Text, ghost d: Dir) returns (child: Node)
      requires Named() && Shows(d) && p in at && n == at[p] && Child(p, seg) !in at
      modifies this, n
      ensures fresh(child) && child.path == Child(p, seg)
      ensures Named() && at == old(at)[Child(p, seg) := child] && nodes == old(nodes) + {child}
      ensures Shows(AddChild(d, p, seg, child))
    {
      child := Link(n, p, seg);
      hide Named, AddChild, Child;
      AddChildAt(d, p, seg, child);
      ghost var e := AddChild(d, p, seg, child);
      forall q | q in at ensures e[q] == View(at[q], at[q].children, at[q].subscribers) {
        if q != Child(p, seg) && q != p { assert e[q] == d[q] && at[q] == old(at)[q]; }
      }
    }

    method Link(n: Node, ghost p: Path, seg: Text) returns (child: Node)
      requires Named() && p in at && n == at[p] && Child(p, seg) !in at
      modifies this, n`children
      ensures fresh(child) && child.path == Child(p, seg) && child.children == map[] && child.subscribers == map[]
      ensures n.children == old(n.children)[seg := child]
      ensures Named() && at == old(at)[Child(p, seg) := child] && nodes == old(nodes) + {child}
      ensures forall q :: q in old(at) && q != p ==> at[q] != n
    {
      child := new Node(Child(p, seg));
      n.children := n.children[seg := child];
      at := at[Child(p, seg) := child];
      nodes := nodes + {child};
    }

    /** The copy-on-write swap of one node's subscriber map. */
    method SwapSubscribers(n: Node, ghost p: Path, subs: Subs)
      requires Valid() && p in at && n == at[p] && forall c :: c in subs ==> subs[c].clientId == c
      modifies n`subscribers
      ensures Valid() && Dir() == SetSubs(old(Dir()), p, subs) && Model() == old(Model())[p := subs]
    {
      hide Linked, ModelOf;
      ghost var d := Dir();
      SetSubsLinked(root, d, p, subs);
      n.subscribers := subs;
      ShowsIsDir(SetSubs(d, p, subs));
    }

    method Unsubscribe(segs: Path, c: Text)
      requires Valid()
      modifies this, nodes
      ensures Valid() && Model() == TrieModel.Unsubscribe(old(Model()), segs, c)
      ensures nodes == old(nodes)
    {
      assert segs[..0] == [];
      var _ := UnsubRecursive(root, segs, 0, c);
    }

    /** Removes the client at the end of the path; on the way back up deletes each
        child that has become bare. Returns whether this node is now bare. */
    method UnsubRecursive(n: Node, segs: Path, depth: nat, c: Text) returns (empty: bool)
      requires Valid() && depth <= |segs| && segs[..depth] in at && n == at[segs[..depth]]
      modifies this, nodes
      ensures Valid() && nodes == old(nodes)
      ensures forall x :: x in at ==> x in old(at) && at[x] == old(at[x])
      ensures segs !in old(Model()) ==> !empty && Model() == old(Model())
      ensures segs in old(Model()) ==>
                Model() == PruneTo(old(Model())[segs := old(Model())[segs] - {c}], segs, depth)
                && empty == Bare(Model(), segs[..depth])
      decreases |segs| - depth
    {
      if depth == |segs| {
        assert segs[..depth] == segs && segs in Dir();
        empty := RemoveHere(n, segs, c);
        return;
      }
      var seg := segs[depth];
      ghost var p, q := segs[..depth], segs[..depth + 1];
      TakeNext(segs, depth);
      assert q == Child(p, seg) && p in Dir();
      if seg !in n.children {
        assert q !in Dir();
        AbsentBelow(Model(), q);
        return false;
      }
      var child := n.children[seg];
      var gone := UnsubRecursive(child, segs, depth + 1, c);
      if segs in old(Model()) {
        KeptAbove(old(Model()), segs, depth + 1, c, p);
        KeptAbove(old(Model()), segs, depth + 1, c, q);
        assert p <= q;
      }
      empty := false;
      if gone { empty := PruneChild(n, p, seg); }
    }

    method RemoveHere(n: Node, ghost p: Path, c: Text) returns (empty: bool)
      requires Valid() && p in at && n == at[p]
      modifies n`subscribers
      ensures Valid() && Model() == old(Model())[p := old(Model())[p] - {c}]
      ensures empty == Bare(Model(), p)
    {
      assert p in Dir() && Model()[p] == n.subscribers;
      SwapSubscribers(n, p, n.subscribers - {c});
      empty := n.children == map[] && n.subscribers == map[];
      BareIffEmpty(root, Dir(), p);
    }

    method PruneChild(n: Node, ghost p: Path, seg: Text) returns (empty: bool)
      requires Valid() && p in at && n == at[p] && Bare(Model(), Child(p, seg))
      modifies this, n
      ensures Valid() && at == old(at) - {Child(p, seg)} && nodes == old(nodes) && Model() == old(Model()) - {Child(p, seg)}
      ensures empty == Bare(Model(), p)
    {
      ghost var d := Dir();
      DropChildLinked(root, d, p, seg);
      Detach(n, p, seg, d);
      ShowsIsDir(DropChild(d, p, seg));
      empty := n.children == map[] && n.subscribers == map[];
      BareIffEmpty(root, Dir(), p);
    }

    method Detach(n: Node, ghost p: Path, seg: Text, ghost d: Dir)
      requires Named() && Shows(d) && p in at && n == at[p]
      modifies this, n
      ensures Named() && at == old(at) - {Child(p, seg)} && nodes == old(nodes)
      ensures Shows(DropChild(d, p, seg))
    {
      n.children := n.children - {seg};
      at := at - {Child(p, seg)};
      assert p != Child(p, seg);
    }

    // ----- removing a client everywhere -------------------------------------

    method RemoveClient(c: Text)
      requires Valid()
      modifies nodes`subscribers
      ensures Valid() && Model() == TrieModel.RemoveClient(old(Model()), c)
    {
      ghost var d := Dir();
      RemoveClientFromNode(root, [], c, d);
      ClearLinked(root, d, Under(d, []), c);
      assert Under(d, []) == ModelOf(d).Keys;
    }

    /** Removes the client from this node and, child by child, from the subtree. */
    method RemoveClientFromNode(n: Node, ghost p: Path, c: Text, ghost d: Dir)
      requires Named() && Dir() == d && Linked(root, d) && p in d && n == d[p].node
      modifies nodes`subscribers
      ensures Named() && Dir() == Clear(d, Under(d, p), c)
      decreases Under(d, p), 2
    {
      DropHere(n, p, c, d);
      ReachedByChild(root, d, p);
      RemoveFromChildren(n, p, c, d);
    }

    method RemoveFromChildren(n: Node, ghost p: Path, c: Text, ghost d: Dir)
      requires Named() && Dir() == Clear(d, {p}, c) && Linked(root, d) && p in d && n == d[p].node
      requires Covers(d.Keys, p, d[p].children.Keys, {p})
      modifies nodes`subscribers
      ensures Named() && Dir() == Clear(d, Under(d, p), c)
      decreases Under(d, p), 1
    {
      assert p in Dir() && Dir()[p].children == d[p].children;
      var rest := n.children.Keys;
      ghost var done := {p};
      while rest != {}
        invariant rest <= d[p].children.Keys
        invariant Named() && Dir() == Clear(d, done, c)
        invariant Covers(d.Keys, p, rest, done)
      {
        hide Dir, Clear, Linked, Named;
        var s :| s in rest;
        RemoveFromChild(n, p, s, c, d, done);
        UnderChild(root, d, done, c, p, s);
        CoversNext(d, p, rest, done, s);
        done := done + Under(d, Child(p, s));
        rest := rest - {s};
      }
      assert done == Under(d, p);
    }

    method RemoveFromChild(n: Node, ghost p: Path, s: Text, c: Text, ghost d: Dir, ghost done: set<Path>)
      requires Named() && Dir() == Clear(d, done, c) && Linked(root, d)
      requires p in d && n == d[p].node && s in d[p].children
      modifies nodes`subscribers
      ensures Named() && Dir() == Clear(d, done + Under(d, Child(p, s)), c)
      decreases Under(d, p), 0
    {
      UnderChild(root, d, done, c, p, s);
      assert p in Dir() && Dir()[p].children == d[p].children;
      RemoveClientFromNode(n.children[s], Child(p, s), c, Clear(d, done, c));
      ClearTwice(d, done, Under(d, Child(p, s)), c);
    }

    method DropHere(n: Node, ghost p: Path, c: Text, ghost d: Dir)
      requires Named() && Dir() == d && p in d && n == d[p].node
      modifies n`subscribers
      ensures Named() && Dir() == Clear(d, {p}, c)
    {
      n.subscribers := n.subscribers - {c};
    }

    // ----- listing filters --------------------------------------------------

    /** Appends the printed path of every node below `n` where the client subscribes. */
    method CollectFilters(n: Node, ghost p: Path, prefix: Text, c: Text, out: seq<Text>, ghost d: Dir)
      returns (res: seq<Text>, ghost paths: seq<Path>)
      requires Named() && Shows(d) && Linked(root, d) && p in d && n == d[p].node && prefix == Name(p)
      ensures res == out + Names(paths) && Lists(d, Under(d, p), c, paths)
      decreases Under(d, p)
    {
      assert n == at[p];
      res, paths := out, [];
      if c in n.subscribers {
        res, paths := res + [prefix], [p];
      }
      var children := n.children;
      var rest := children.Keys;
      ghost var done := {p};
      ReachedByChild(root, d, p);
      while rest != {}
        invariant rest <= children.Keys && children == d[p].children
        invariant Named() && Shows(d) && Covers(d.Keys, p, rest, done)
        invariant res == out + Names(paths) && Lists(d, done, c, paths)
      {
        var s :| s in rest;
        ghost var q := Child(p, s);
        UnderChild(root, d, {}, c, p, s);
        NameChild(p, s);
        ghost var more;
        res, more := CollectFilters(children[s], q, NextName(prefix, s), c, res, d);
        ListsJoin(d, done, Under(d, q), c, paths, more);
        NamesConcat(out, paths, more);
        CoversNext(d, p, rest, done, s);
        paths, done, rest := paths + more, done + Under(d, q), rest - {s};
      }
      assert done == Under(d, p);
    }

    // ----- matching ---------------------------------------------------------

    /** Merges into `out` every subscriber below `n` that matches `segs[depth..]`. */
    method MatchNode(n: Node, ghost p: Path, segs: Path, depth: nat, out: Subs, ghost cands: set<Subscriber>, ghost d: Dir)
      returns (res: Subs)
      requires Named() && Shows(d) && Linked(root, d) && p in d && n == d[p].node && depth <= |segs| && IsBest(out, cands)
      ensures IsBest(res, cands + Found(ModelOf(d), p, segs[depth..]))
      decreases |segs| - depth
    {
      hide Found, IsBest, HashSubs, Links;
      ghost var m, t := ModelOf(d), segs[depth..];
      res := MatchHash(n, p, out, cands, d);
      ghost var acc := cands + HashSubs(m, p);
      if depth == |segs| {
        FoundHere(m, p);
        assert acc + m[p].Values == cands + Found(m, p, t);
        assert n == at[p];
        res := MergeSubscribers(n.subscribers, res, acc);
        return;
      }
      var seg := segs[depth];
      FoundBelow(m, p, t);
      assert t[0] == seg && t[1..] == segs[depth + 1..];
      res := MatchChild(n, p, seg, segs, depth, res, acc, d);
      acc := acc + Found(m, p + [seg], t[1..]);
      assert acc + Found(m, p + [PLUS], t[1..]) == cands + Found(m, p, t);
      res := MatchChild(n, p, PLUS, segs, depth, res, acc, d);
    }

    /** The '#' child matches whatever remains of the topic. */
    method MatchHash(n: Node, ghost p: Path, out: Subs, ghost cands: set<Subscriber>, ghost d: Dir) returns (res: Subs)
      requires Named() && Shows(d) && Linked(root, d) && p in d && n == d[p].node && IsBest(out, cands)
      ensures IsBest(res, cands + HashSubs(ModelOf(d), p))
    {
      assert p + [HASH] == Child(p, HASH) && n == at[p];
      if HASH in n.children {
        var h := n.children[HASH];
        assert h == at[p + [HASH]] && ModelOf(d)[p + [HASH]] == h.subscribers;
        res := MergeSubscribers(h.subscribers, out, cands);
      } else {
        res := out;
      }
    }

    /** Descends into one child if there is one. */
    method MatchChild(n: Node, ghost p: Path, seg: Text, segs: Path, depth: nat, out: Subs, ghost cands: set<Subscriber>, ghost d: Dir)
      returns (res: Subs)
      requires Named() && Shows(d) && Linked(root, d) && p in d && n == d[p].node && depth < |segs| && IsBest(out, cands)
      ensures IsBest(res, cands + Found(ModelOf(d), p + [seg], segs[depth + 1..]))
      decreases |segs| - depth, 0
    {
      assert p + [seg] == Child(p, seg) && n == at[p];
      if seg in n.children {
        res := MatchNode(n.children[seg], p + [seg], segs, depth + 1, out, cands, d);
      } else {
        FoundNothing(ModelOf(d), p + [seg], segs[depth + 1..]);
        res := out;
      }
    }
  }

  /** Keeps for each client the candidate with the higher QoS. */
  method MergeSubscribers(src: Subs, dst: Subs, ghost cands: set<Subscriber>) returns (res: Subs)
    requires IsBest(dst, cands) && forall c :: c in src ==> src[c].clientId == c
    ensures IsBest(res, cands + src.Values)
  {
    res := dst;
    var ids := src.Keys;
    ghost var seen: set<Subscriber> := {};
    while ids != {}
      invariant ids <= src.Keys
      invariant IsBest(res, cands + seen)
      invariant seen == set c | c in src && c !in ids :: src[c]
    {
      var id :| id in ids;
      var sub := src[id];
      if id !in res || sub.qos > res[id].qos {
        res := res[id := sub];
      }
      ids := ids - {id};
      seen := seen + {sub};
    }
    assert seen == src.Values;
  }
}
