/** The disjoint-set forest behind the component index, on values: parents, the root each
    node resolves to, and the per-root totals. */
module ComponentIndex {
  import opened Domain
  import opened Tally

  function Pow2(n: nat): (p: nat)
    ensures p >= 1
  {
    if n == 0 then 1 else 2 * Pow2(n - 1)
  }

  lemma {:induction false} Pow2Ascends(m: nat, n: nat)
    requires m <= n
    ensures Pow2(m) <= Pow2(n)
  {
    if m < n {
      Pow2Ascends(m, n - 1);
    }
  }

  /** The parent and root of `x` lie in one class, and ranks climb towards its root. */
  ghost predicate PlacedAt(parent: map<Node, Node>, root: map<Node, Node>, rank: map<Node, nat>, x: Node) {
    && (x in parent <==> x in root) && (x in rank <==> x in root)
    && (x in root ==>
         && parent[x] in root && root[parent[x]] == root[x]
         && root[x] in root && root[root[x]] == root[x]
         && (parent[x] == x <==> root[x] == x)
         && (parent[x] != x ==> parent[x] in rank && rank[x] < rank[parent[x]])
         && root[x] in rank && rank[x] <= rank[root[x]])
  }

  ghost predicate Forest(parent: map<Node, Node>, root: map<Node, Node>, rank: map<Node, nat>) {
    forall x {:trigger PlacedAt(parent, root, rank, x)} :: PlacedAt(parent, root, rank, x)
  }

  predicate IsRoot(root: map<Node, Node>, r: Node) {
    r in root && root[r] == r
  }

  ghost function Members(root: map<Node, Node>, rs: set<Node>): set<Node> {
    set x | x in root && root[x] in rs
  }

  /** Merging the classes named in `rs` under the root `top`. */
  ghost function Collapse(root: map<Node, Node>, rs: set<Node>, top: Node): map<Node, Node> {
    map x | x in root :: if root[x] in rs then top else root[x]
  }

  /** A root has a size entry, the size of its class, which also bounds its rank (union by
      size maintains that); no other node has one. */
  ghost predicate SizedAt(root: map<Node, Node>, rank: map<Node, nat>, size: map<Node, nat>, r: Node) {
    && (r in size <==> IsRoot(root, r))
    && (r in size ==> size[r] == |Members(root, {r})| && r in rank && Pow2(rank[r]) <= size[r])
  }

  ghost predicate Sized(root: map<Node, Node>, rank: map<Node, nat>, size: map<Node, nat>) {
    forall r {:trigger SizedAt(root, rank, size, r)} :: SizedAt(root, rank, size, r)
  }

  /** A root has an entry, the sum of the counters over its class; no other node has one, and
      nodes outside the index count nothing. */
  ghost predicate SummedAt(root: map<Node, Node>, sums: map<Node, nat>, counters: map<Node, nat>, r: Node) {
    && (r in sums <==> IsRoot(root, r))
    && (r in sums ==> sums[r] == Total(Members(root, {r}), counters))
    && (r !in root ==> Get(counters, r) == 0)
  }

  ghost predicate Summed(root: map<Node, Node>, sums: map<Node, nat>, counters: map<Node, nat>) {
    forall r {:trigger SummedAt(root, sums, counters, r)} :: SummedAt(root, sums, counters, r)
  }

  /** The whole index: a forest whose per-root maps hold the totals of its classes. */
  ghost predicate Indexed(parent: map<Node, Node>, root: map<Node, Node>, rank: map<Node, nat>,
                          size: map<Node, nat>, observations: map<Node, nat>, confirmed: map<Node, nat>,
                          observed: map<Node, nat>, attributed: map<Node, nat>)
  {
    Forest(parent, root, rank) && Sized(root, rank, size) && Summed(root, observations, observed) && Summed(root, confirmed, attributed)
  }

  // ----- depth -----

  /** The ancestor of `x` after `d` parent steps. */
  ghost function Climb(parent: map<Node, Node>, x: Node, d: nat): Node
    decreases d
  {
    if d == 0 || x !in parent then x else Climb(parent, parent[x], d - 1)
  }

  ghost function Height(root: map<Node, Node>, rank: map<Node, nat>, x: Node): int {
    if x in root && root[x] in rank && x in rank then rank[root[x]] as int - rank[x] else 0
  }

  /** The chain from `x` reaches its root in fewer steps than the ranks climb. */
  lemma {:induction false} ReachesRoot(parent: map<Node, Node>, root: map<Node, Node>, rank: map<Node, nat>,
                                       x: Node) returns (d: nat)
    requires Forest(parent, root, rank) && x in root
    ensures x in rank && root[x] in rank && d + rank[x] <= rank[root[x]]
    ensures Climb(parent, x, d) == root[x] && root[x] in parent && parent[root[x]] == root[x]
    decreases Height(root, rank, x)
  {
    assert PlacedAt(parent, root, rank, x);
    if parent[x] == x {
      d := 0;
    } else {
      assert PlacedAt(parent, root, rank, parent[x]);
      var rest := ReachesRoot(parent, root, rank, parent[x]);
      d := rest + 1;
    }
  }

  /** Every node is at most log2 of its component's size parent steps below its root. */
  lemma DepthBound(parent: map<Node, Node>, root: map<Node, Node>, rank: map<Node, nat>, size: map<Node, nat>, x: Node)
    returns (d: nat)
    requires Forest(parent, root, rank) && Sized(root, rank, size) && x in root
    ensures Climb(parent, x, d) == root[x] && root[x] in parent && parent[root[x]] == root[x]
    ensures root[x] in size && Pow2(d) <= size[root[x]]
  {
    d := ReachesRoot(parent, root, rank, x);
    assert PlacedAt(parent, root, rank, x) && SizedAt(root, rank, size, root[x]);
    Pow2Ascends(d, rank[root[x]]);
  }

  // ----- steps of the index -----

  lemma CompressKeepsForest(parent: map<Node, Node>, root: map<Node, Node>, rank: map<Node, nat>, x: Node)
    requires Forest(parent, root, rank) && x in root && x in parent && parent[x] != x
    ensures Forest(parent[x := root[x]], root, rank)
  {
    var parent' := parent[x := root[x]];
    assert PlacedAt(parent, root, rank, x) && PlacedAt(parent, root, rank, parent[x]);
    forall y
      ensures PlacedAt(parent', root, rank, y)
    {
      assert PlacedAt(parent, root, rank, y);
    }
  }

  lemma EnsureKeepsForest(parent: map<Node, Node>, root: map<Node, Node>, rank: map<Node, nat>, x: Node)
    requires Forest(parent, root, rank) && x !in root
    ensures Forest(parent[x := x], root[x := x], rank[x := 0])
    ensures x !in root.Values
  {
    forall y
      ensures PlacedAt(parent[x := x], root[x := x], rank[x := 0], y) && (y in root ==> root[y] != x)
    {
      assert PlacedAt(parent, root, rank, y);
    }
  }

  lemma ClassAfterEnsure(root: map<Node, Node>, x: Node, r: Node)
    requires x !in root && x !in root.Values
    ensures Members(root[x := x], {r}) == if r == x then {x} else Members(root, {r})
    ensures IsRoot(root[x := x], r) <==> r == x || IsRoot(root, r)
  {
    assert forall y | y in root :: root[y] != x;
  }

  lemma EnsureKeepsSized(root: map<Node, Node>, rank: map<Node, nat>, size: map<Node, nat>, x: Node)
    requires Sized(root, rank, size) && x !in root && x !in root.Values
    ensures Sized(root[x := x], rank[x := 0], size[x := 1])
  {
    var root', rank', size' := root[x := x], rank[x := 0], size[x := 1];
    forall r
      ensures SizedAt(root', rank', size', r)
    {
      ClassAfterEnsure(root, x, r);
      assert SizedAt(root, rank, size, r);
    }
  }

  lemma EnsureKeepsSummed(root: map<Node, Node>, sums: map<Node, nat>, counters: map<Node, nat>, x: Node)
    requires Summed(root, sums, counters) && x !in root && x !in root.Values
    ensures Summed(root[x := x], sums[x := 0], counters)
  {
    var root', sums' := root[x := x], sums[x := 0];
    forall r
      ensures SummedAt(root', sums', counters, r)
    {
      ClassAfterEnsure(root, x, r);
      assert SummedAt(root, sums, counters, r) && SummedAt(root, sums, counters, x);
      TotalRemove({x}, x, counters);
    }
  }

  lemma BumpKeepsSummed(root: map<Node, Node>, sums: map<Node, nat>, counters: map<Node, nat>, x: Node)
    requires Summed(root, sums, counters) && x in root && IsRoot(root, root[x])
    ensures Summed(root, Bump(sums, root[x]), Bump(counters, x))
  {
    assert SummedAt(root, sums, counters, root[x]);
    forall r
      ensures SummedAt(root, Bump(sums, root[x]), Bump(counters, x), r)
    {
      assert SummedAt(root, sums, counters, r);
      var s := Members(root, {r});
      if x in s {
        TotalRaised(s, {x}, counters, Bump(counters, x));
      } else {
        TotalSame(s, counters, Bump(counters, x));
      }
    }
  }

  function LinkedRank(rank: map<Node, nat>, l: Node, r: Node): map<Node, nat>
    requires l in rank && r in rank
  {
    rank[l := if rank[l] > rank[r] then rank[l] else rank[r] + 1]
  }

  lemma LinkKeepsForest(parent: map<Node, Node>, root: map<Node, Node>, rank: map<Node, nat>, l: Node, r: Node)
    requires Forest(parent, root, rank) && l != r && IsRoot(root, l) && IsRoot(root, r)
    ensures l in rank && r in rank && Forest(parent[r := l], Collapse(root, {l, r}, l), LinkedRank(rank, l, r))
  {
    assert PlacedAt(parent, root, rank, l) && PlacedAt(parent, root, rank, r);
    var parent', root', rank' := parent[r := l], Collapse(root, {l, r}, l), LinkedRank(rank, l, r);
    forall y
      ensures PlacedAt(parent', root', rank', y)
    {
      assert PlacedAt(parent, root, rank, y) && (y in root ==> PlacedAt(parent, root, rank, parent[y]));
    }
  }

  lemma ClassAfterLink(root: map<Node, Node>, l: Node, r: Node, q: Node)
    requires l != r && IsRoot(root, l) && IsRoot(root, r)
    ensures q != r ==> Members(Collapse(root, {l, r}, l), {q}) == Members(root, {q}) + if q == l then Members(root, {r}) else {}
    ensures Members(root, {l}) !! Members(root, {r})
    ensures IsRoot(Collapse(root, {l, r}, l), q) <==> q != r && IsRoot(root, q)
  {
  }

  function Merge(m: map<Node, nat>, l: Node, r: Node): map<Node, nat>
    requires l in m && r in m
  {
    (m - {r})[l := m[l] + m[r]]
  }

  lemma LinkKeepsSized(root: map<Node, Node>, rank: map<Node, nat>, size: map<Node, nat>, l: Node, r: Node)
    requires Sized(root, rank, size) && l != r && IsRoot(root, l) && IsRoot(root, r)
    requires l in rank && r in rank && l in size && r in size && size[r] <= size[l]
    ensures Sized(Collapse(root, {l, r}, l), LinkedRank(rank, l, r), Merge(size, l, r))
  {
    assert SizedAt(root, rank, size, l) && SizedAt(root, rank, size, r);
    forall q
      ensures SizedAt(Collapse(root, {l, r}, l), LinkedRank(rank, l, r), Merge(size, l, r), q)
    {
      ClassAfterLink(root, l, r, q);
      assert SizedAt(root, rank, size, q);
    }
  }

  lemma LinkKeepsSummed(root: map<Node, Node>, sums: map<Node, nat>, counters: map<Node, nat>, l: Node, r: Node)
    requires Summed(root, sums, counters) && l != r && IsRoot(root, l) && IsRoot(root, r)
    ensures l in sums && r in sums && Summed(Collapse(root, {l, r}, l), Merge(sums, l, r), counters)
  {
    assert SummedAt(root, sums, counters, l) && SummedAt(root, sums, counters, r);
    ClassAfterLink(root, l, r, l);
    var root', sums' := Collapse(root, {l, r}, l), Merge(sums, l, r);
    TotalUnion(Members(root, {l}), Members(root, {r}), counters);
    forall q
      ensures SummedAt(root', sums', counters, q)
    {
      ClassAfterLink(root, l, r, q);
      assert SummedAt(root, sums, counters, q);
      if q in sums' && q != l {
        assert Members(root', {q}) == Members(root, {q});
      }
    }
  }

  lemma CollapseAgain(root: map<Node, Node>, rs: set<Node>, top: Node, x: Node, top': Node)
    requires x in root && top in rs
    ensures var now := Collapse(root, rs, top);
            Collapse(now, {top, now[x]}, top') == Collapse(root, rs + {root[x]}, top')
  {
  }

  /** Summing per-root entries over a set of roots sums over the union of their classes. */
  lemma {:induction false} AddRoot(root: map<Node, Node>, rs: set<Node>, r: Node, m: map<Node, nat>)
    requires r !in rs
    ensures Members(root, rs + {r}) == Members(root, rs) + Members(root, {r})
    ensures |Members(root, rs + {r})| == |Members(root, rs)| + |Members(root, {r})|
    ensures Total(Members(root, rs + {r}), m) == Total(Members(root, rs), m) + Total(Members(root, {r}), m)
  {
    assert Members(root, rs + {r}) == Members(root, rs) + Members(root, {r});
    TotalUnion(Members(root, rs), Members(root, {r}), m);
  }

  lemma {:induction false} SizesAddUp(root: map<Node, Node>, rank: map<Node, nat>, size: map<Node, nat>, rs: set<Node>)
    requires Sized(root, rank, size) && forall r | r in rs :: IsRoot(root, r)
    ensures Total(rs, size) == |Members(root, rs)|
    decreases rs
  {
    if rs == {} {
      assert Members(root, rs) == {};
    } else {
      var r :| r in rs;
      assert SizedAt(root, rank, size, r);
      SizesAddUp(root, rank, size, rs - {r});
      AddRoot(root, rs - {r}, r, size);
      assert rs - {r} + {r} == rs;
      TotalRemove(rs, r, size);
    }
  }

  lemma {:induction false} SumsAddUp(root: map<Node, Node>, sums: map<Node, nat>, counters: map<Node, nat>, rs: set<Node>)
    requires Summed(root, sums, counters) && forall r | r in rs :: IsRoot(root, r)
    ensures Total(rs, sums) == Total(Members(root, rs), counters)
    decreases rs
  {
    if rs == {} {
      assert Members(root, rs) == {};
    } else {
      var r :| r in rs;
      var rest := rs - {r};
      assert SummedAt(root, sums, counters, r) && rest + {r} == rs;
      SumsAddUp(root, sums, counters, rest);
      AddRoot(root, rest, r, counters);
      TotalRemove(rs, r, sums);
    }
  }
}
