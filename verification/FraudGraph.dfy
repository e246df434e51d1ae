/** The incremental fraud graph: the explicit weighted graph, the entity counters and the
    union-by-size component index, kept together by one invariant. */
module FraudGraphs {
  import opened Domain
  import opened Tally
  import opened EntityGraph
  import opened ComponentIndex
  import opened GraphTheorems
  import opened EventFields
  import opened Sequences

  datatype NodeData = NodeData(kind: Kind, identifier: string, confirmedFraud: Option<nat>)

  type Adjacency = map<Node, map<Node, nat>>

  function EdgeWeight(adjacency: Adjacency, x: Node, y: Node): nat {
    if x in adjacency && y in adjacency[x] then adjacency[x][y] else 0
  }

  function AddNode(adjacency: Adjacency, x: Node): Adjacency {
    if x in adjacency then adjacency else adjacency[x := map[]]
  }

  function SetEdge(adjacency: Adjacency, x: Node, y: Node, w: nat): Adjacency
    requires x in adjacency && y in adjacency && x != y
  {
    var ofX: map<Node, nat> := adjacency[x][y := w];
    var ofY: map<Node, nat> := adjacency[y][x := w];
    adjacency[x := ofX][y := ofY]
  }

  function AddEdge(adjacency: Adjacency, x: Node, y: Node): Adjacency {
    if x in adjacency && y in adjacency && x != y then SetEdge(adjacency, x, y, EdgeWeight(adjacency, x, y) + 1) else adjacency
  }

  // ----- agreement of each representation with the history -----
  // Each table is described one key at a time; the quantifiers fire only on these predicates.

  /** The edge between `x` and `y` is there exactly if an event made it, with its count. */
  ghost predicate EdgeAt(adjacency: Adjacency, events: seq<PaymentEvent>, x: Node, y: Node) {
    && (x in adjacency <==> x in Nodes(events))
    && EdgeWeight(adjacency, x, y) == Weight(events, x, y)
    && (x in adjacency && y in adjacency[x] ==> EdgeWeight(adjacency, x, y) > 0)
  }

  ghost predicate EdgesMatch(adjacency: Adjacency, events: seq<PaymentEvent>) {
    forall x, y {:trigger EdgeAt(adjacency, events, x, y)} :: EdgeAt(adjacency, events, x, y)
  }

  ghost predicate CountAt(counters: map<Node, nat>, events: seq<PaymentEvent>, n: Node) {
    Get(counters, n) == Count(events, n)
  }

  ghost predicate CountsMatch(counters: map<Node, nat>, events: seq<PaymentEvent>) {
    forall n {:trigger CountAt(counters, events, n)} :: CountAt(counters, events, n)
  }

  ghost predicate AttributedAt(counters: map<Node, nat>, h: History, n: Node) {
    Get(counters, n) == Attributed(h, n)
  }

  ghost predicate AttributedMatch(counters: map<Node, nat>, h: History) {
    forall n {:trigger AttributedAt(counters, h, n)} :: AttributedAt(counters, h, n)
  }

  function Shown(attribute: Option<nat>): nat {
    if attribute.Some? then attribute.value else 0
  }

  ghost predicate NodeAt(nodes: map<Node, NodeData>, h: History, n: Node) {
    && (n in nodes <==> n in Nodes(Inserted(h)))
    && (n in nodes ==> n == Node(nodes[n].kind, nodes[n].identifier) && Shown(nodes[n].confirmedFraud) == Displayed(h, n))
  }

  ghost predicate NodesMatch(nodes: map<Node, NodeData>, h: History) {
    forall n {:trigger NodeAt(nodes, h, n)} :: NodeAt(nodes, h, n)
  }

  ghost predicate LinkAt(root: map<Node, Node>, events: seq<PaymentEvent>, x: Node, y: Node) {
    Linked(events, x, y) ==> x in root && y in root && root[x] == root[y]
  }

  ghost predicate AnchorAt(root: map<Node, Node>, events: seq<PaymentEvent>, x: Node) {
    (x in root <==> x in Nodes(events)) && (x in root ==> Connected(events, x, root[x]))
  }

  /** Linked nodes resolve to one root, and every node is connected to its root. */
  ghost predicate RootsMatch(root: map<Node, Node>, events: seq<PaymentEvent>) {
    && (forall x, y {:trigger LinkAt(root, events, x, y)} :: LinkAt(root, events, x, y))
    && (forall x {:trigger AnchorAt(root, events, x)} :: AnchorAt(root, events, x))
  }

  /** Two nodes have the same root exactly when the explicit graph connects them. */
  lemma SameRootIffConnected(root: map<Node, Node>, events: seq<PaymentEvent>, x: Node, y: Node)
    requires RootsMatch(root, events) && x in root && y in root
    ensures root[x] == root[y] <==> Connected(events, x, y)
  {
    if root[x] == root[y] {
      assert AnchorAt(root, events, x) && AnchorAt(root, events, y);
      ConnectedSymmetric(events, y, root[y]);
      ConnectedTransitive(events, x, root[x], y);
    }
    if Connected(events, x, y) {
      var p :| Path(events, p) && p[0] == x && p[|p| - 1] == y;
      for i := 0 to |p| - 1
        invariant p[i] in root && root[p[i]] == root[x]
      {
        assert Linked(events, p[i], p[i + 1]) && LinkAt(root, events, p[i], p[i + 1]);
      }
    }
  }

  /** The roots the nodes of an event resolve to. */
  ghost function RootsOf(root: map<Node, Node>, ns: set<Node>): set<Node> {
    set n | n in ns && n in root :: root[n]
  }

  ghost function Listed(ns: seq<Node>): set<Node> {
    set n | n in ns
  }

  predicate Distinct(ns: seq<Node>) {
    forall i, j | 0 <= i < j < |ns| :: ns[i] != ns[j]
  }

  /** How many of the listed nodes are not known. */
  ghost function Absent(ns: seq<Node>, known: set<Node>): nat {
    if ns == [] then 0 else
      Absent(ns[..|ns| - 1], known) + if ns[|ns| - 1] in known then 0 else 1
  }

  lemma OneMoreNode(ns: seq<Node>, i: nat, root: map<Node, Node>)
    requires i < |ns|
    ensures Absent(ns[..i + 1], root.Keys) == Absent(ns[..i], root.Keys) + if ns[i] in root then 0 else 1
    ensures RootsOf(root, Listed(ns[..i + 1])) == RootsOf(root, Listed(ns[..i])) + if ns[i] in root then {root[ns[i]]} else {}
  {
    assert ns[..i + 1][..i] == ns[..i];
    assert Listed(ns[..i + 1]) == Listed(ns[..i]) + {ns[i]};
  }

  lemma {:induction false} AbsentCounts(ns: seq<Node>, known: set<Node>)
    requires Distinct(ns)
    ensures Absent(ns, known) == |Listed(ns) - known|
  {
    if ns != [] {
      var before, last := ns[..|ns| - 1], ns[|ns| - 1];
      assert last !in before;
      AbsentCounts(before, known);
      assert Listed(ns) == Listed(before) + {last};
      if last in known {
        assert Listed(ns) - known == Listed(before) - known;
      } else {
        assert Listed(ns) - known == Listed(before) - known + {last};
      }
    }
  }

  lemma ClassesAreTouched(root: map<Node, Node>, events: seq<PaymentEvent>, e: PaymentEvent)
    requires RootsMatch(root, events)
    ensures Members(root, RootsOf(root, NodeSet(e))) == Touched(events, e)
  {
    forall y
      ensures y in Members(root, RootsOf(root, NodeSet(e))) <==> y in Touched(events, e)
    {
      assert AnchorAt(root, events, y);
      if y in root && root[y] in RootsOf(root, NodeSet(e)) {
        var n :| n in NodeSet(e) && n in root && root[n] == root[y];
        SameRootIffConnected(root, events, n, y);
      }
      if y in Touched(events, e) {
        var n :| n in NodeSet(e) && Connected(events, n, y);
        ConnectedInside(events, n, y);
        assert AnchorAt(root, events, n);
        SameRootIffConnected(root, events, n, y);
      }
    }
  }

  // ----- what an insertion does to each table -----

  function LabelNode(nodes: map<Node, NodeData>, n: Node): map<Node, NodeData> {
    nodes[n := NodeData(n.kind, n.identifier, if n in nodes then nodes[n].confirmedFraud else None)]
  }

  function LabelAll(nodes: map<Node, NodeData>, ns: seq<Node>): map<Node, NodeData> {
    if ns == [] then nodes else LabelNode(LabelAll(nodes, ns[..|ns| - 1]), ns[|ns| - 1])
  }

  function AddRows(adjacency: Adjacency, ns: seq<Node>): Adjacency {
    if ns == [] then adjacency else AddNode(AddRows(adjacency, ns[..|ns| - 1]), ns[|ns| - 1])
  }

  function BumpAll(m: map<Node, nat>, ns: seq<Node>): map<Node, nat> {
    if ns == [] then m else Bump(BumpAll(m, ns[..|ns| - 1]), ns[|ns| - 1])
  }

  /** One more observation on the edge between `c` and each listed node. */
  function AddEdges(adjacency: Adjacency, c: Node, ns: seq<Node>): Adjacency {
    if ns == [] then adjacency else AddEdge(AddEdges(adjacency, c, ns[..|ns| - 1]), c, ns[|ns| - 1])
  }

  function ExtendAll(root: map<Node, Node>, ns: seq<Node>): map<Node, Node> {
    if ns == [] then root else Extend(ExtendAll(root, ns[..|ns| - 1]), ns[|ns| - 1])
  }

  function Extend(root: map<Node, Node>, n: Node): map<Node, Node> {
    if n in root then root else root[n := n]
  }

  lemma {:induction false} LabelAllAt(nodes: map<Node, NodeData>, ns: seq<Node>, n: Node)
    ensures n in LabelAll(nodes, ns) <==> n in nodes || n in ns
    ensures n in LabelAll(nodes, ns) ==>
      LabelAll(nodes, ns)[n] == if n in ns then NodeData(n.kind, n.identifier, if n in nodes then nodes[n].confirmedFraud else None)
                                else nodes[n]
  {
    if ns != [] {
      LabelAllAt(nodes, ns[..|ns| - 1], n);
    }
  }

  lemma {:induction false} AddRowsAt(adjacency: Adjacency, ns: seq<Node>, n: Node)
    ensures n in AddRows(adjacency, ns) <==> n in adjacency || n in ns
    ensures n in AddRows(adjacency, ns) ==> AddRows(adjacency, ns)[n] == if n in adjacency then adjacency[n] else map[]
  {
    if ns != [] {
      AddRowsAt(adjacency, ns[..|ns| - 1], n);
    }
  }

  lemma {:induction false} BumpAllAt(m: map<Node, nat>, ns: seq<Node>, n: Node)
    requires Distinct(ns)
    ensures Get(BumpAll(m, ns), n) == Get(m, n) + if n in ns then 1 else 0
  {
    if ns != [] {
      BumpAllAt(m, ns[..|ns| - 1], n);
    }
  }

  lemma {:induction false} ExtendAllAt(root: map<Node, Node>, ns: seq<Node>, n: Node)
    ensures n in ExtendAll(root, ns) <==> n in root || n in ns
    ensures n in ExtendAll(root, ns) ==> ExtendAll(root, ns)[n] == if n in root then root[n] else n
  {
    if ns != [] {
      ExtendAllAt(root, ns[..|ns| - 1], n);
    }
  }

  lemma {:induction false} ExtendAllHasAll(root: map<Node, Node>, ns: seq<Node>)
    ensures forall n | n in ns :: n in ExtendAll(root, ns)
  {
    forall n | n in ns
      ensures n in ExtendAll(root, ns)
    {
      ExtendAllAt(root, ns, n);
    }
  }

  lemma {:induction false} AddEdgesAt(adjacency: Adjacency, c: Node, ns: seq<Node>, x: Node, y: Node)
    requires Distinct(ns) && c !in ns && c in adjacency && forall n | n in ns :: n in adjacency
    requires EdgeWeight(adjacency, x, y) == EdgeWeight(adjacency, y, x)
    requires x in adjacency && y in adjacency[x] ==> EdgeWeight(adjacency, x, y) > 0
    ensures AddEdges(adjacency, c, ns).Keys == adjacency.Keys
    ensures EdgeWeight(AddEdges(adjacency, c, ns), x, y) == EdgeWeight(AddEdges(adjacency, c, ns), y, x)
    ensures EdgeWeight(AddEdges(adjacency, c, ns), x, y) ==
            EdgeWeight(adjacency, x, y) + if (x == c && y in ns) || (y == c && x in ns) then 1 else 0
    ensures var now := AddEdges(adjacency, c, ns); x in now && y in now[x] ==> EdgeWeight(now, x, y) > 0
  {
    if ns != [] {
      var before, n := ns[..|ns| - 1], ns[|ns| - 1];
      AddEdgesAt(adjacency, c, before, x, y);
      AddEdgeAt(AddEdges(adjacency, c, before), c, n, x, y);
    }
  }

  lemma AddEdgeAt(adjacency: Adjacency, c: Node, n: Node, x: Node, y: Node)
    requires c in adjacency && n in adjacency && c != n
    ensures AddEdge(adjacency, c, n).Keys == adjacency.Keys
    ensures EdgeWeight(AddEdge(adjacency, c, n), x, y) ==
            if (x == c && y == n) || (x == n && y == c) then EdgeWeight(adjacency, c, n) + 1 else EdgeWeight(adjacency, x, y)
    ensures var now := AddEdge(adjacency, c, n);
            x in now && y in now[x] ==> (x in adjacency && y in adjacency[x]) || (x == c && y == n) || (x == n && y == c)
  {
  }

  /** The classes of the listed nodes are one class, the customer's; the others are as before. */
  ghost predicate Merged(now: map<Node, Node>, was: map<Node, Node>, customer: Node, ns: seq<Node>) {
    && customer in now
    && now[customer] in RootsOf(was, Listed(ns))
    && now == Collapse(was, RootsOf(was, Listed(ns)), now[customer])
  }

  lemma MergedAlone(root: map<Node, Node>, customer: Node)
    requires customer in root
    ensures Merged(root, root, customer, [customer])
  {
    assert Listed([customer]) == {customer};
    assert RootsOf(root, {customer}) == {root[customer]};
    assert Collapse(root, {root[customer]}, root[customer]) == root;
  }

  lemma MergedKeys(now: map<Node, Node>, was: map<Node, Node>, customer: Node, ns: seq<Node>, n: Node)
    requires Merged(now, was, customer, ns)
    ensures n in now <==> n in was
  {
  }

  lemma UnionMerges(now: map<Node, Node>, mid: map<Node, Node>, was: map<Node, Node>, customer: Node, ns: seq<Node>, n: Node)
    requires Merged(mid, was, customer, ns) && n in was && customer in now
    requires now[customer] in {mid[customer], mid[n]}
    requires now == Collapse(mid, {mid[customer], mid[n]}, now[customer])
    ensures Merged(now, was, customer, ns + [n])
  {
    assert Listed(ns + [n]) == Listed(ns) + {n};
    assert RootsOf(was, Listed(ns + [n])) == RootsOf(was, Listed(ns)) + {was[n]};
    CollapseAgain(was, RootsOf(was, Listed(ns)), mid[customer], n, now[customer]);
  }

  lemma CollapseNothing(root: map<Node, Node>, r: Node)
    ensures Collapse(root, {r, r}, r) == root
  {
  }

  /** Inserting an event merges the classes of its nodes, and the explicit graph agrees. */
  lemma {:induction false} InsertKeepsRoots(root': map<Node, Node>, root: map<Node, Node>, events: seq<PaymentEvent>, e: PaymentEvent)
    requires RootsMatch(root, events)
    requires Merged(root', ExtendAll(root, EventNodes(e)), CustomerNode(e), EventNodes(e))
    ensures RootsMatch(root', events + [e])
  {
    var after := events + [e];
    assert Listed(EventNodes(e)) == NodeSet(e) && after[..|events|] == events;
    forall x, y
      ensures LinkAt(root', after, x, y)
    {
      OneMoreEdge(events, e, x, y);
      assert LinkAt(root, events, x, y);
      ExtendAllAt(root, EventNodes(e), x);
      ExtendAllAt(root, EventNodes(e), y);
    }
    forall x
      ensures AnchorAt(root', after, x)
    {
      ExtendAllAt(root, EventNodes(e), x);
      assert AnchorAt(root, events, x);
      if x in root' {
        MergedAnchored(root', root, events, e, x);
      }
    }
  }

  /** A node reaches its new root: through its old root, an entity of the event, and another. */
  lemma {:induction false} MergedAnchored(root': map<Node, Node>, root: map<Node, Node>, events: seq<PaymentEvent>,
                                            e: PaymentEvent, x: Node)
    requires RootsMatch(root, events)
    requires Merged(root', ExtendAll(root, EventNodes(e)), CustomerNode(e), EventNodes(e)) && x in root'
    ensures Connected(events + [e], x, root'[x])
  {
    var wide, after, top := ExtendAll(root, EventNodes(e)), events + [e], root'[CustomerNode(e)];
    WideAnchored(root, events, e, x);
    if wide[x] in RootsOf(wide, Listed(EventNodes(e))) {
      var n :| n in EventNodes(e) && n in wide && wide[n] == wide[x];
      var m :| m in EventNodes(e) && m in wide && wide[m] == top;
      WideAnchored(root, events, e, n);
      WideAnchored(root, events, e, m);
      NodesOfOneEvent(events, e, n, m);
      ConnectedSymmetric(after, n, wide[n]);
      ConnectedTransitive(after, x, wide[x], n);
      ConnectedTransitive(after, x, n, m);
      ConnectedTransitive(after, x, m, top);
    }
  }

  lemma {:induction false} WideAnchored(root: map<Node, Node>, events: seq<PaymentEvent>, e: PaymentEvent, x: Node)
    requires RootsMatch(root, events) && x in ExtendAll(root, EventNodes(e))
    ensures Connected(events + [e], x, ExtendAll(root, EventNodes(e))[x])
  {
    ExtendAllAt(root, EventNodes(e), x);
    if x in root {
      assert AnchorAt(root, events, x);
      ConnectedGrows(events, e, x, root[x]);
    } else {
      ConnectedSelf(events + [e], x);
    }
  }

  lemma NodesOfOneEvent(events: seq<PaymentEvent>, e: PaymentEvent, n: Node, m: Node)
    requires n in NodeSet(e) && m in NodeSet(e)
    ensures Connected(events + [e], n, m)
  {
    var after, c := events + [e], CustomerNode(e);
    EventsGrow(events, e);
    forall k | k in NodeSet(e)
      ensures Connected(after, k, c)
    {
      if k == c { ConnectedSelf(after, c); } else { assert Joins(e, k, c); ConnectedLink(after, k, c); }
    }
    ConnectedSymmetric(after, m, c);
    ConnectedTransitive(after, n, c, m);
  }

  // ----- every table agrees with the history -----

  ghost predicate Matches(h: History, root: map<Node, Node>, adjacency: Adjacency, nodes: map<Node, NodeData>,
                          observations: map<Node, nat>, confirmed: map<Node, nat>, attributed: map<Node, nat>)
  {
    && RootsMatch(root, Inserted(h))
    && EdgesMatch(adjacency, Inserted(h))
    && NodesMatch(nodes, h)
    && CountsMatch(observations, Inserted(h))
    && CountsMatch(confirmed, Confirmations(h))
    && AttributedMatch(attributed, h)
  }

  lemma {:induction false} InsertKeepsEdges(adjacency: Adjacency, events: seq<PaymentEvent>, e: PaymentEvent)
    requires EdgesMatch(adjacency, events)
    ensures EdgesMatch(AddEdges(AddRows(adjacency, EventNodes(e)), CustomerNode(e), EventNodes(e)[1..]), events + [e])
  {
    var ns := EventNodes(e);
    var now := AddEdges(AddRows(adjacency, ns), CustomerNode(e), ns[1..]);
    forall x, y
      ensures EdgeAt(now, events + [e], x, y)
    {
      InsertKeepsEdge(adjacency, events, e, x, y);
    }
  }

  lemma {:induction false} InsertKeepsEdge(adjacency: Adjacency, events: seq<PaymentEvent>, e: PaymentEvent, x: Node, y: Node)
    requires EdgesMatch(adjacency, events)
    ensures EdgeAt(AddEdges(AddRows(adjacency, EventNodes(e)), CustomerNode(e), EventNodes(e)[1..]), events + [e], x, y)
  {
    var ns, c := EventNodes(e), CustomerNode(e);
    var rows, others := AddRows(adjacency, ns), ns[1..];
    OtherNodes(e);
    assert EdgeAt(adjacency, events, x, y) && EdgeAt(adjacency, events, y, x);
    AddRowsAt(adjacency, ns, x);
    AddRowsAt(adjacency, ns, y);
    LinkedFacts(events, x, y);
    forall n | n in ns
      ensures n in rows
    {
      AddRowsAt(adjacency, ns, n);
    }
    AddEdgesAt(rows, c, others, x, y);
    OneMoreEdge(events, e, x, y);
    OneMoreEvent(events, e, x);
  }

  lemma OtherNodes(e: PaymentEvent)
    ensures var ns := EventNodes(e);
      && Distinct(ns[1..]) && CustomerNode(e) in ns && CustomerNode(e) !in ns[1..]
      && (forall n :: n in ns <==> n in NodeSet(e))
      && (forall n | n in ns[1..] :: n in ns)
      && (forall x, y :: Joins(e, x, y) <==> (x == CustomerNode(e) && y in ns[1..]) || (y == CustomerNode(e) && x in ns[1..]))
  {
  }

  lemma {:induction false} InsertKeepsCounts(counters: map<Node, nat>, events: seq<PaymentEvent>, e: PaymentEvent)
    requires CountsMatch(counters, events)
    ensures CountsMatch(BumpAll(counters, EventNodes(e)), events + [e])
  {
    EventNodesDistinct(e);
    forall n
      ensures CountAt(BumpAll(counters, EventNodes(e)), events + [e], n)
    {
      BumpAllAt(counters, EventNodes(e), n);
      OneMoreEvent(events, e, n);
      assert CountAt(counters, events, n);
    }
  }

  lemma {:induction false} InsertKeepsNodes(nodes: map<Node, NodeData>, h: History, e: PaymentEvent)
    requires NodesMatch(nodes, h)
    ensures NodesMatch(LabelAll(nodes, EventNodes(e)), h + [Insert(e)])
  {
    HistoryGrows(h, Insert(e));
    forall n
      ensures NodeAt(LabelAll(nodes, EventNodes(e)), h + [Insert(e)], n)
    {
      assert NodeAt(nodes, h, n);
      assert n in EventNodes(e) <==> n in NodeSet(e);
      OneMoreEvent(Inserted(h), e, n);
      LabelAllAt(nodes, EventNodes(e), n);
      OneMoreOp(h, Insert(e), n);
      AttributedNodes(h, n);
    }
  }

  lemma InsertKeepsAttributed(counters: map<Node, nat>, h: History, e: PaymentEvent)
    requires AttributedMatch(counters, h)
    ensures AttributedMatch(counters, h + [Insert(e)])
  {
    forall n
      ensures AttributedAt(counters, h + [Insert(e)], n)
    {
      OneMoreOp(h, Insert(e), n);
      assert AttributedAt(counters, h, n);
    }
  }

  lemma {:induction false} InsertKeepsMatch(h: History, e: PaymentEvent, root': map<Node, Node>, root: map<Node, Node>,
                         adjacency: Adjacency, nodes: map<Node, NodeData>, observations: map<Node, nat>,
                         confirmed: map<Node, nat>, attributed: map<Node, nat>)
    requires Matches(h, root, adjacency, nodes, observations, confirmed, attributed)
    requires Merged(root', ExtendAll(root, EventNodes(e)), CustomerNode(e), EventNodes(e))
    ensures Matches(h + [Insert(e)], root', AddEdges(AddRows(adjacency, EventNodes(e)), CustomerNode(e), EventNodes(e)[1..]),
                    LabelAll(nodes, EventNodes(e)), BumpAll(observations, EventNodes(e)), confirmed, attributed)
  {
    HistoryGrows(h, Insert(e));
    assert Confirmations(h) + [] == Confirmations(h);
    InsertKeepsRoots(root', root, Inserted(h), e);
    InsertKeepsEdges(adjacency, Inserted(h), e);
    InsertKeepsNodes(nodes, h, e);
    InsertKeepsCounts(observations, Inserted(h), e);
    InsertKeepsAttributed(attributed, h, e);
  }

  // ----- confirmations -----

  function Mark(nodes: map<Node, NodeData>, counters: map<Node, nat>, n: Node): map<Node, NodeData> {
    if n in nodes then nodes[n := nodes[n].(confirmedFraud := Some(Get(counters, n)))] else nodes
  }

  function MarkAll(nodes: map<Node, NodeData>, counters: map<Node, nat>, ns: seq<Node>): map<Node, NodeData> {
    if ns == [] then nodes else
      Mark(MarkAll(nodes, counters, ns[..|ns| - 1]), BumpAll(counters, ns), ns[|ns| - 1])
  }

  function BumpKnown(m: map<Node, nat>, known: set<Node>, ns: seq<Node>): map<Node, nat> {
    if ns == [] then m else
      var before := BumpKnown(m, known, ns[..|ns| - 1]);
      if ns[|ns| - 1] in known then Bump(before, ns[|ns| - 1]) else before
  }

  lemma {:induction false} MarkAllAt(nodes: map<Node, NodeData>, counters: map<Node, nat>, ns: seq<Node>, n: Node)
    requires Distinct(ns)
    ensures n in MarkAll(nodes, counters, ns) <==> n in nodes
    ensures n in nodes ==>
      MarkAll(nodes, counters, ns)[n] == if n in ns then nodes[n].(confirmedFraud := Some(Get(counters, n) + 1)) else nodes[n]
  {
    if ns != [] {
      MarkAllAt(nodes, counters, ns[..|ns| - 1], n);
      BumpAllAt(counters, ns, n);
    }
  }

  lemma {:induction false} BumpKnownAt(m: map<Node, nat>, known: set<Node>, ns: seq<Node>, n: Node)
    requires Distinct(ns)
    ensures Get(BumpKnown(m, known, ns), n) == Get(m, n) + if n in ns && n in known then 1 else 0
  {
    if ns != [] {
      BumpKnownAt(m, known, ns[..|ns| - 1], n);
    }
  }

  lemma {:induction false} ConfirmKeepsMatch(h: History, e: PaymentEvent, root: map<Node, Node>, adjacency: Adjacency,
                          nodes: map<Node, NodeData>, observations: map<Node, nat>,
                          confirmed: map<Node, nat>, attributed: map<Node, nat>)
    requires Matches(h, root, adjacency, nodes, observations, confirmed, attributed)
    ensures Matches(h + [Confirm(e)], root, adjacency, MarkAll(nodes, confirmed, EventNodes(e)), observations,
                    BumpAll(confirmed, EventNodes(e)), BumpKnown(attributed, root.Keys, EventNodes(e)))
  {
    HistoryGrows(h, Confirm(e));
    assert Inserted(h) + [] == Inserted(h);
    InsertKeepsCounts(confirmed, Confirmations(h), e);
    EventNodesDistinct(e);
    forall n
      ensures NodeAt(MarkAll(nodes, confirmed, EventNodes(e)), h + [Confirm(e)], n)
    {
      ConfirmKeepsNode(h, e, root, nodes, confirmed, attributed, n);
    }
    forall n
      ensures AttributedAt(BumpKnown(attributed, root.Keys, EventNodes(e)), h + [Confirm(e)], n)
    {
      ConfirmKeepsNode(h, e, root, nodes, confirmed, attributed, n);
    }
  }

  lemma {:induction false} ConfirmKeepsNode(h: History, e: PaymentEvent, root: map<Node, Node>, nodes: map<Node, NodeData>,
                         confirmed: map<Node, nat>, attributed: map<Node, nat>, n: Node)
    requires RootsMatch(root, Inserted(h)) && NodesMatch(nodes, h)
    requires CountsMatch(confirmed, Confirmations(h)) && AttributedMatch(attributed, h)
    requires Distinct(EventNodes(e)) && (n in EventNodes(e) <==> n in NodeSet(e))
    ensures NodeAt(MarkAll(nodes, confirmed, EventNodes(e)), h + [Confirm(e)], n)
    ensures AttributedAt(BumpKnown(attributed, root.Keys, EventNodes(e)), h + [Confirm(e)], n)
  {
    HistoryGrows(h, Confirm(e));
    assert Inserted(h) + [] == Inserted(h);
    assert AnchorAt(root, Inserted(h), n) && NodeAt(nodes, h, n);
    assert CountAt(confirmed, Confirmations(h), n) && AttributedAt(attributed, h, n);
    OneMoreOp(h, Confirm(e), n);
    OneMoreEvent(Confirmations(h), e, n);
    MarkAllAt(nodes, confirmed, EventNodes(e), n);
    BumpKnownAt(attributed, root.Keys, EventNodes(e), n);
  }

  // ----- what the tables say about a candidate event -----

  /** `_neighbor_count`: neighbors whose name carries the prefix of the kind. */
  function NeighborCount(adjacency: Adjacency, n: Node, kind: Kind): nat {
    if n !in adjacency then 0 else |set y | y in adjacency[n] && StartsWith(y.Name(), kind.Label() + ":")|
  }

  function Degree(adjacency: Adjacency, n: Node): nat {
    if n in adjacency then |adjacency[n].Keys| else 0
  }

  lemma NeighborsInRow(adjacency: Adjacency, events: seq<PaymentEvent>, n: Node)
    requires EdgesMatch(adjacency, events)
    ensures Neighbors(events, n) == if n in adjacency then adjacency[n].Keys else {}
    ensures Degree(adjacency, n) == |Neighbors(events, n)|
  {
    forall y
      ensures (n in adjacency && y in adjacency[n]) <==> y in Neighbors(events, n)
    {
      assert EdgeAt(adjacency, events, n, y) && EdgeAt(adjacency, events, y, n);
      LinkedFacts(events, n, y);
    }
  }

  lemma CountedSharers(adjacency: Adjacency, events: seq<PaymentEvent>, n: Node)
    requires EdgesMatch(adjacency, events) && n.kind != Customer
    ensures NeighborCount(adjacency, n, Customer) == |Sharers(events, n)|
  {
    NeighborsAreSharers(events, n);
    NeighborsInRow(adjacency, events, n);
    var near := set y | y in Neighbors(events, n) && y.kind == Customer;
    if n in adjacency {
      forall y: Node
        ensures StartsWith(y.Name(), Customer.Label() + ":") <==> y.kind == Customer
      {
        NamePrefixIsKind(y, Customer);
      }
      assert (set y | y in adjacency[n] && StartsWith(y.Name(), Customer.Label() + ":")) == near;
    } else {
      assert near == {};
    }
  }

  lemma {:induction false} RootsAreNodes(root: map<Node, Node>, events: seq<PaymentEvent>)
    requires RootsMatch(root, events)
    ensures root.Keys == Nodes(events)
  {
    forall n
      ensures n in root <==> n in Nodes(events)
    {
      assert AnchorAt(root, events, n);
    }
  }

  lemma CandidateSize(root: map<Node, Node>, events: seq<PaymentEvent>, e: PaymentEvent)
    requires RootsMatch(root, events)
    ensures Members(root, RootsOf(root, Listed(EventNodes(e)))) == Touched(events, e)
    ensures Absent(EventNodes(e), root.Keys) + |Touched(events, e)| == |Neighborhood(events, e)|
  {
    assert Listed(EventNodes(e)) == NodeSet(e);
    ClassesAreTouched(root, events, e);
    assert Distinct(EventNodes(e)) by { EventNodesDistinct(e); }
    AbsentCounts(EventNodes(e), root.Keys);
    NeighborhoodSize(events, e);
    RootsAreNodes(root, events);
  }

  lemma {:induction false} CandidateSums(h: History, s: set<Node>, observations: map<Node, nat>, attributed: map<Node, nat>)
    requires CountsMatch(observations, Inserted(h)) && AttributedMatch(attributed, h)
    ensures Total(s, observations) == Total(s, CountMap(Inserted(h), s))
    ensures Total(s, attributed) == Total(s, AttributedMap(h, s))
  {
    forall n | n in s
      ensures Get(observations, n) == Get(CountMap(Inserted(h), s), n)
      ensures Get(attributed, n) == Get(AttributedMap(h, s), n)
    {
      assert CountAt(observations, Inserted(h), n) && AttributedAt(attributed, h, n);
    }
    TotalSame(s, observations, CountMap(Inserted(h), s));
    TotalSame(s, attributed, AttributedMap(h, s));
  }

  function LargestDegree(adjacency: Adjacency, ns: seq<Node>): nat {
    if ns == [] then 0 else
      var m, d := LargestDegree(adjacency, ns[..|ns| - 1]), Degree(adjacency, ns[|ns| - 1]);
      if m > d then m else d
  }

  lemma {:induction false} CandidateDegrees(adjacency: Adjacency, events: seq<PaymentEvent>, ns: seq<Node>)
    requires EdgesMatch(adjacency, events)
    ensures LargestDegree(adjacency, ns) == MaxDegree(events, ns)
  {
    if ns != [] {
      CandidateDegrees(adjacency, events, ns[..|ns| - 1]);
      NeighborsInRow(adjacency, events, ns[|ns| - 1]);
    }
  }

  /** The tables and the candidate totals give the features the history defines. */
  lemma {:induction false} TablesGiveFeatures(h: History, e: PaymentEvent, root: map<Node, Node>, adjacency: Adjacency,
                           nodes: map<Node, NodeData>, observations: map<Node, nat>, confirmed: map<Node, nat>,
                           attributed: map<Node, nat>, size: nat, observedTotal: nat, confirmedTotal: nat)
    requires Matches(h, root, adjacency, nodes, observations, confirmed, attributed)
    requires size == Absent(EventNodes(e), root.Keys) + |Members(root, RootsOf(root, Listed(EventNodes(e))))|
    requires observedTotal == Total(Members(root, RootsOf(root, Listed(EventNodes(e)))), observations)
    requires confirmedTotal == Total(Members(root, RootsOf(root, Listed(EventNodes(e)))), attributed)
    ensures FeaturesBefore(h, e) == GraphFeatures(
              NeighborCount(adjacency, DeviceNode(e), Customer), NeighborCount(adjacency, IpNode(e), Customer), size,
              Ratio(Get(confirmed, MerchantNode(e)), Get(observations, MerchantNode(e))),
              LargestDegree(adjacency, EventNodes(e)),
              Ratio(confirmedTotal, observedTotal), NeighborCount(adjacency, MerchantNode(e), Customer),
              Get(observations, DeviceNode(e)), Get(observations, IpNode(e)))
  {
    var ins := Inserted(h);
    CountedSharers(adjacency, ins, DeviceNode(e));
    CountedSharers(adjacency, ins, IpNode(e));
    CountedSharers(adjacency, ins, MerchantNode(e));
    CandidateSize(root, ins, e);
    CandidateSums(h, Touched(ins, e), observations, attributed);
    CandidateDegrees(adjacency, ins, EventNodes(e));
    assert CountAt(confirmed, Confirmations(h), MerchantNode(e)) && CountAt(observations, ins, MerchantNode(e));
    assert CountAt(observations, ins, DeviceNode(e)) && CountAt(observations, ins, IpNode(e));
  }

  lemma {:induction false} KnownNodes(root: map<Node, Node>, nodes: map<Node, NodeData>, h: History)
    requires RootsMatch(root, Inserted(h)) && NodesMatch(nodes, h)
    ensures nodes.Keys == root.Keys
  {
    forall n
      ensures n in nodes <==> n in root
    {
      assert AnchorAt(root, Inserted(h), n) && NodeAt(nodes, h, n);
    }
  }

  // ----- the exported ring -----

  lemma ClassIsComponent(root: map<Node, Node>, events: seq<PaymentEvent>, x: Node)
    requires RootsMatch(root, events) && x in root
    ensures Members(root, {root[x]}) == Component(events, x)
  {
    forall y
      ensures y in Members(root, {root[x]}) <==> y in Component(events, x)
    {
      assert AnchorAt(root, events, y);
      if y in root {
        SameRootIffConnected(root, events, x, y);
      }
    }
  }

  /** The test the export applies to a node is the sharing threshold. */
  lemma {:induction false} HubTest(nodes: map<Node, NodeData>, adjacency: Adjacency, h: History, minimum: int, n: Node)
    requires NodesMatch(nodes, h) && EdgesMatch(adjacency, Inserted(h)) && n in nodes
    ensures ((nodes[n].kind == Device || nodes[n].kind == Ip) && NeighborCount(adjacency, n, Customer) >= minimum)
            <==> IsHub(Inserted(h), minimum, n)
    ensures n in adjacency && adjacency[n].Keys == Neighbors(Inserted(h), n)
  {
    assert NodeAt(nodes, h, n) && EdgeAt(adjacency, Inserted(h), n, n);
    NeighborsInRow(adjacency, Inserted(h), n);
    if n.kind != Customer {
      CountedSharers(adjacency, Inserted(h), n);
    }
  }

  /** Hubs and their neighbors, collected over all nodes, are the ring. */
  lemma CollectedRing(events: seq<PaymentEvent>, minimum: int, collected: set<Node>)
    requires forall n :: n in collected <==>
               IsHub(events, minimum, n) || exists hub :: IsHub(events, minimum, hub) && n in Neighbors(events, hub)
    ensures forall n :: n in collected <==> InRing(events, minimum, n)
  {
    forall n
      ensures n in collected <==> InRing(events, minimum, n)
    {
      forall hub | IsHub(events, minimum, hub)
        ensures n in Neighbors(events, hub) <==> n.kind == Customer && n.identifier in Sharers(events, hub)
      {
        HubNeighbors(events, hub, n);
      }
    }
  }

  lemma {:induction false} RingInGraph(h: History, minimum: int, ring: set<Node>, nodes: map<Node, NodeData>)
    requires NodesMatch(nodes, h)
    requires forall n :: n in ring <==> InRing(Inserted(h), minimum, n)
    ensures forall n | n in ring :: n in nodes && Shown(nodes[n].confirmedFraud) == Displayed(h, n)
  {
    forall n | n in ring
      ensures n in nodes && Shown(nodes[n].confirmedFraud) == Displayed(h, n)
    {
      assert NodeAt(nodes, h, n);
      if !IsHub(Inserted(h), minimum, n) {
        var hub :| IsHub(Inserted(h), minimum, hub) && n.identifier in Sharers(Inserted(h), hub);
        HubNeighbors(Inserted(h), hub, n);
      }
    }
  }

  class FraudGraph {
    const sizeSignal: nat -> real

    var nodes: map<Node, NodeData>
    var adjacency: Adjacency
    var entityObservations: map<Node, nat>
    var entityConfirmedFraud: map<Node, nat>
    var parent: map<Node, Node>
    var componentSize: map<Node, nat>
    var componentObservations: map<Node, nat>
    var componentConfirmedFraud: map<Node, nat>

    ghost var history: History
    ghost var root: map<Node, Node>
    ghost var rank: map<Node, nat>
    ghost var attributed: map<Node, nat>

    /** The forest resolves every node, and the per-root maps hold the class totals. */
    ghost predicate IndexValid()
      reads this
    {
      Indexed(parent, root, rank, componentSize, componentObservations, componentConfirmedFraud, entityObservations, attributed)
    }

    /** At node `n`, and on its edges, every table agrees with the history of calls. */
    ghost predicate SoundAt(n: Node)
      reads this
    {
      && PlacedAt(parent, root, rank, n) && SizedAt(root, rank, componentSize, n)
      && SummedAt(root, componentObservations, entityObservations, n)
      && SummedAt(root, componentConfirmedFraud, attributed, n)
      && AnchorAt(root, Inserted(history), n) && NodeAt(nodes, history, n)
      && CountAt(entityObservations, Inserted(history), n)
      && CountAt(entityConfirmedFraud, Confirmations(history), n)
      && AttributedAt(attributed, history, n)
      && (forall m {:trigger LinkAt(root, Inserted(history), n, m)} :: LinkAt(root, Inserted(history), n, m))
      && (forall m {:trigger EdgeAt(adjacency, Inserted(history), n, m)} :: EdgeAt(adjacency, Inserted(history), n, m))
    }

    /** Graph, counters and index all agree with the history, everywhere. */
    ghost predicate Valid()
      reads this
    {
      forall n {:trigger SoundAt(n)} :: SoundAt(n)
    }

    /** The same, table by table. */
    ghost predicate Agrees()
      reads this
    {
      IndexValid() && Matches(history, root, adjacency, nodes, entityObservations, entityConfirmedFraud, attributed)
    }

    lemma TableByTable()
      requires Valid()
      ensures Agrees()
    {
      var ins := Inserted(history);
      forall n
        ensures PlacedAt(parent, root, rank, n) && SizedAt(root, rank, componentSize, n)
        ensures SummedAt(root, componentObservations, entityObservations, n)
        ensures SummedAt(root, componentConfirmedFraud, attributed, n)
        ensures AnchorAt(root, ins, n) && NodeAt(nodes, history, n) && AttributedAt(attributed, history, n)
        ensures CountAt(entityObservations, ins, n) && CountAt(entityConfirmedFraud, Confirmations(history), n)
      {
        assert SoundAt(n);
      }
      forall n, m
        ensures LinkAt(root, ins, n, m) && EdgeAt(adjacency, ins, n, m)
      {
        assert SoundAt(n);
      }
    }

    lemma NodeByNode()
      requires Agrees()
      ensures Valid()
    {
      forall n
        ensures SoundAt(n)
      {
        assert CountAt(entityObservations, Inserted(history), n) && CountAt(entityConfirmedFraud, Confirmations(history), n);
        assert PlacedAt(parent, root, rank, n) && SizedAt(root, rank, componentSize, n);
      }
    }

    constructor (sizeSignal: nat -> real)
      ensures Valid() && history == [] && this.sizeSignal == sizeSignal
    {
      this.sizeSignal := sizeSignal;
      nodes, adjacency := map[], map[];
      entityObservations, entityConfirmedFraud := map[], map[];
      parent, componentSize, componentObservations, componentConfirmedFraud := map[], map[], map[], map[];
      history, root, rank, attributed := [], map[], map[], map[];
      new;
      NodeByNode();
    }

    // ----- the component index -----

    /** Two passes, the second re-pointing the path at the root. No node changes its root, and
        neither pass takes more steps than the logarithm of the component size. */
    method Find(node: Node) returns (top: Node, ghost steps: nat, ghost rewrites: nat)
      requires IndexValid() && node in root
      modifies `parent
      ensures IndexValid()
      ensures top == root[node] && IsRoot(root, top)
      ensures top in componentSize && Pow2(steps) <= componentSize[top] && Pow2(rewrites) <= componentSize[top]
    {
      assert PlacedAt(parent, root, rank, node);
      top, steps := node, 0;
      while parent[top] != top
        invariant top in parent && top in rank && root[node] in rank
        invariant top in root && root[top] == root[node] && rank[node] + steps <= rank[top] <= rank[root[node]]
        decreases rank[root[node]] - rank[top]
      {
        assert PlacedAt(parent, root, rank, top) && PlacedAt(parent, root, rank, parent[top]);
        top, steps := parent[top], steps + 1;
      }
      assert PlacedAt(parent, root, rank, top) && SizedAt(root, rank, componentSize, top);
      Pow2Ascends(steps, rank[top]);
      var current := node;
      rewrites := 0;
      while parent[current] != current
        invariant IndexValid()
        invariant current in parent && current in rank && top in rank && rank[node] + rewrites <= rank[current] <= rank[top]
        invariant current in root && root[current] == top
        decreases rank[top] as int - rank[current]
      {
        assert PlacedAt(parent, root, rank, current) && PlacedAt(parent, root, rank, parent[current]);
        var next := parent[current];
        CompressKeepsForest(parent, root, rank, current);
        parent := parent[current := top];
        assert PlacedAt(parent, root, rank, next);
        current, rewrites := next, rewrites + 1;
      }
      Pow2Ascends(rewrites, rank[top]);
    }

    method EnsureComponentNode(node: Node)
      requires IndexValid()
      modifies `parent, `componentSize, `componentObservations, `componentConfirmedFraud, `root, `rank
      ensures IndexValid() && root == Extend(old(root), node)
      ensures if node in old(root) then
                && parent == old(parent) && componentSize == old(componentSize)
                && componentObservations == old(componentObservations) && componentConfirmedFraud == old(componentConfirmedFraud)
              else
                && parent == old(parent)[node := node] && componentSize == old(componentSize)[node := 1]
                && componentObservations == old(componentObservations)[node := 0]
                && componentConfirmedFraud == old(componentConfirmedFraud)[node := 0]
    {
      assert PlacedAt(parent, root, rank, node);
      if node !in parent {
        EnsureKeepsForest(parent, root, rank, node);
        EnsureKeepsSized(root, rank, componentSize, node);
        EnsureKeepsSummed(root, componentObservations, entityObservations, node);
        EnsureKeepsSummed(root, componentConfirmedFraud, attributed, node);
        parent := parent[node := node];
        componentSize := componentSize[node := 1];
        componentObservations := componentObservations[node := 0];
        componentConfirmedFraud := componentConfirmedFraud[node := 0];
        root, rank := root[node := node], rank[node := 0];
      }
    }

    /** Union by size: the two classes become one, named by one of the two roots. */
    method Union(left: Node, right: Node)
      requires IndexValid() && left in root && right in root
      modifies `parent, `componentSize, `componentObservations, `componentConfirmedFraud, `root, `rank
      ensures IndexValid() && left in root && root[left] in {old(root[left]), old(root[right])}
      ensures root == Collapse(old(root), {old(root[left]), old(root[right])}, root[left])
    {
      var l, _, _ := Find(left);
      var r, _, _ := Find(right);
      ghost var ends := {l, r};
      if l == r {
        CollapseNothing(root, l);
        return;
      }
      if componentSize[l] < componentSize[r] {
        l, r := r, l;
      }
      assert ends == {l, r};
      Link(l, r);
    }

    /** The linking step: the larger root keeps its name and takes over the other's totals. */
    method Link(l: Node, r: Node)
      requires IndexValid() && l != r && IsRoot(root, l) && IsRoot(root, r)
      requires l in componentSize && r in componentSize && componentSize[r] <= componentSize[l]
      modifies `parent, `componentSize, `componentObservations, `componentConfirmedFraud, `root, `rank
      ensures IndexValid() && root == Collapse(old(root), {l, r}, l)
    {
      LinkKeepsForest(parent, root, rank, l, r);
      LinkKeepsSized(root, rank, componentSize, l, r);
      LinkKeepsSummed(root, componentObservations, entityObservations, l, r);
      LinkKeepsSummed(root, componentConfirmedFraud, attributed, l, r);
      ghost var now, ranks := Collapse(root, {l, r}, l), LinkedRank(rank, l, r);
      parent := parent[r := l];
      componentSize := Merge(componentSize, l, r);
      componentObservations := Merge(componentObservations, l, r);
      componentConfirmedFraud := Merge(componentConfirmedFraud, l, r);
      root, rank := now, ranks;
    }

    method SumOver(rs: set<Node>, m: map<Node, nat>) returns (total: nat)
      ensures total == Total(rs, m)
    {
      total := 0;
      var todo := rs;
      while todo != {}
        invariant todo <= rs && total + Total(todo, m) == Total(rs, m)
        decreases todo
      {
        var r :| r in todo;
        TotalRemove(todo, r, m);
        total := total + Get(m, r);
        todo := todo - {r};
      }
    }

    /** Size, observations and confirmations over the union of the components the nodes lie
        in; nodes not in the graph count one each towards the size. */
    method CandidateComponentTotals(ns: seq<Node>) returns (size: nat, observed: nat, confirmed: nat)
      requires IndexValid()
      modifies `parent
      ensures IndexValid()
      ensures size == Absent(ns, root.Keys) + |Members(root, RootsOf(root, Listed(ns)))|
      ensures observed == Total(Members(root, RootsOf(root, Listed(ns))), entityObservations)
      ensures confirmed == Total(Members(root, RootsOf(root, Listed(ns))), attributed)
    {
      var roots: set<Node> := {};
      var unseen := 0;
      for i := 0 to |ns|
        invariant IndexValid()
        invariant roots == RootsOf(root, Listed(ns[..i])) && forall r | r in roots :: IsRoot(root, r)
        invariant unseen == Absent(ns[..i], root.Keys)
      {
        OneMoreNode(ns, i, root);
        assert PlacedAt(parent, root, rank, ns[i]);
        if ns[i] in parent {
          var r, _, _ := Find(ns[i]);
          roots := roots + {r};
        } else {
          unseen := unseen + 1;
        }
      }
      assert ns[..|ns|] == ns;
      SizesAddUp(root, rank, componentSize, roots);
      SumsAddUp(root, componentObservations, entityObservations, roots);
      SumsAddUp(root, componentConfirmedFraud, attributed, roots);
      size := SumOver(roots, componentSize);
      size := unseen + size;
      observed := SumOver(roots, componentObservations);
      confirmed := SumOver(roots, componentConfirmedFraud);
    }

    /** One observation, counted for the node and for its component. */
    method CountObservation(node: Node)
      requires IndexValid() && node in root
      modifies `entityObservations, `parent, `componentObservations
      ensures IndexValid() && entityObservations == Bump(old(entityObservations), node)
    {
      var top, _, _ := Find(node);
      BumpKeepsSummed(root, componentObservations, entityObservations, node);
      var observed, observations := Bump(entityObservations, node), Bump(componentObservations, top);
      assert Indexed(parent, root, rank, componentSize, observations, componentConfirmedFraud, observed, attributed);
      entityObservations, componentObservations := observed, observations;
    }

    /** The first loop of an insertion: label each node, index it, count one observation. */
    method ObserveNodes(ns: seq<Node>)
      requires IndexValid()
      modifies `nodes, `adjacency, `entityObservations
      modifies `parent, `componentSize, `componentObservations, `componentConfirmedFraud, `root, `rank
      ensures IndexValid() && root == ExtendAll(old(root), ns)
      ensures entityObservations == BumpAll(old(entityObservations), ns)
      ensures nodes == LabelAll(old(nodes), ns) && adjacency == AddRows(old(adjacency), ns)
    {
      for i := 0 to |ns|
        invariant IndexValid() && root == ExtendAll(old(root), ns[..i])
        invariant entityObservations == BumpAll(old(entityObservations), ns[..i])
        invariant nodes == LabelAll(old(nodes), ns[..i]) && adjacency == AddRows(old(adjacency), ns[..i])
      {
        assert ns[..i + 1][..i] == ns[..i];
        nodes, adjacency := LabelNode(nodes, ns[i]), AddNode(adjacency, ns[i]);
        EnsureComponentNode(ns[i]);
        CountObservation(ns[i]);
      }
      assert ns[..|ns|] == ns;
    }

    /** One pass of the second loop: an edge from the first node to another, merging two components. */
    method LinkNode(center: Node, node: Node, ghost was: map<Node, Node>, ghost done: seq<Node>)
      requires IndexValid() && node in was && Merged(root, was, center, done)
      modifies `adjacency, `parent, `componentSize, `componentObservations, `componentConfirmedFraud, `root, `rank
      ensures IndexValid() && Merged(root, was, center, done + [node])
      ensures adjacency == AddEdge(old(adjacency), center, node)
    {
      adjacency := AddEdge(adjacency, center, node);
      ghost var before := root;
      MergedKeys(root, was, center, done, node);
      Union(center, node);
      UnionMerges(root, before, was, center, done, node);
    }

    /** The second loop: edges from the first node to the others. */
    method LinkNodes(ns: seq<Node>)
      requires IndexValid() && ns != [] && forall n | n in ns :: n in root
      modifies `adjacency, `parent, `componentSize, `componentObservations, `componentConfirmedFraud, `root, `rank
      ensures IndexValid() && Merged(root, old(root), ns[0], ns)
      ensures adjacency == AddEdges(old(adjacency), ns[0], ns[1..])
    {
      MergedAlone(root, ns[0]);
      assert ns[..1] == [ns[0]];
      for k := 1 to |ns|
        invariant IndexValid()
        invariant Merged(root, old(root), ns[0], ns[..k])
        invariant adjacency == AddEdges(old(adjacency), ns[0], ns[1..k])
      {
        NextTailSlice(ns, k);
        LinkNode(ns[0], ns[k], old(root), ns[..k]);
      }
      SplitAt(ns, |ns|);
    }

    /** Both loops of an insertion. */
    method InsertNodes(ns: seq<Node>)
      requires IndexValid() && ns != []
      modifies `nodes, `adjacency, `entityObservations
      modifies `parent, `componentSize, `componentObservations, `componentConfirmedFraud, `root, `rank
      ensures IndexValid() && Merged(root, ExtendAll(old(root), ns), ns[0], ns)
      ensures adjacency == AddEdges(AddRows(old(adjacency), ns), ns[0], ns[1..])
      ensures nodes == LabelAll(old(nodes), ns) && entityObservations == BumpAll(old(entityObservations), ns)
    {
      ObserveNodes(ns);
      ExtendAllHasAll(old(root), ns);
      LinkNodes(ns);
    }

    /** Inserts an event: five nodes, four edges, five observations, one merged component. */
    method Update(e: PaymentEvent)
      requires Valid()
      modifies `nodes, `adjacency, `entityObservations, `history
      modifies `parent, `componentSize, `componentObservations, `componentConfirmedFraud, `root, `rank
      ensures Valid() && history == old(history) + [Insert(e.Unlabeled())]
    {
      TableByTable();
      ghost var bare := e.Unlabeled();
      assert EventNodes(e) == EventNodes(bare) && EventNodes(bare)[0] == CustomerNode(bare);
      InsertNodes(EventNodes(e));
      InsertKeepsMatch(history, bare, root, old(root), old(adjacency), old(nodes),
                       old(entityObservations), entityConfirmedFraud, attributed);
      history := history + [Insert(bare)];
      NodeByNode();
    }

    /** One entity of a confirmed event: its own count always, its component's if it is known. */
    method ConfirmNode(n: Node)
      requires IndexValid() && (n in nodes <==> n in root)
      modifies `nodes, `entityConfirmedFraud, `parent, `componentConfirmedFraud, `attributed
      ensures IndexValid()
      ensures entityConfirmedFraud == Bump(old(entityConfirmedFraud), n)
      ensures nodes == Mark(old(nodes), entityConfirmedFraud, n)
      ensures attributed == if n in root then Bump(old(attributed), n) else old(attributed)
    {
      entityConfirmedFraud := Bump(entityConfirmedFraud, n);
      if n in nodes {
        nodes := Mark(nodes, entityConfirmedFraud, n);
        var top, _, _ := Find(n);
        BumpKeepsSummed(root, componentConfirmedFraud, attributed, n);
        componentConfirmedFraud := Bump(componentConfirmedFraud, top);
        attributed := Bump(attributed, n);
      }
    }

    method ConfirmNodes(ns: seq<Node>)
      requires IndexValid() && nodes.Keys == root.Keys
      modifies `nodes, `entityConfirmedFraud, `parent, `componentConfirmedFraud, `attributed
      ensures IndexValid()
      ensures entityConfirmedFraud == BumpAll(old(entityConfirmedFraud), ns)
      ensures nodes == MarkAll(old(nodes), old(entityConfirmedFraud), ns)
      ensures attributed == BumpKnown(old(attributed), root.Keys, ns)
    {
      for i := 0 to |ns|
        invariant IndexValid() && nodes.Keys == old(nodes.Keys)
        invariant entityConfirmedFraud == BumpAll(old(entityConfirmedFraud), ns[..i])
        invariant nodes == MarkAll(old(nodes), old(entityConfirmedFraud), ns[..i])
        invariant attributed == BumpKnown(old(attributed), root.Keys, ns[..i])
      {
        assert ns[..i + 1][..i] == ns[..i];
        ConfirmNode(ns[i]);
      }
      assert ns[..|ns|] == ns;
    }

    /** Fraud confirmed on an event. The per-entity counts move even for entities the graph has
        not seen; the component totals and node attributes only for those it has. */
    method ConfirmFraud(e: PaymentEvent)
      requires Valid()
      modifies `nodes, `entityConfirmedFraud, `parent, `componentConfirmedFraud, `attributed, `history
      ensures Valid() && history == old(history) + [Confirm(e.Unlabeled())]
    {
      TableByTable();
      ghost var bare := e.Unlabeled();
      assert EventNodes(e) == EventNodes(bare);
      KnownNodes(root, nodes, history);
      ConfirmNodes(EventNodes(e));
      ConfirmKeepsMatch(history, bare, root, adjacency, old(nodes), entityObservations,
                        old(entityConfirmedFraud), old(attributed));
      history := history + [Confirm(bare)];
      NodeByNode();
    }

    /** The nine features, read from the tables. */
    method ReadFeatures(e: PaymentEvent) returns (features: GraphFeatures)
      requires Valid()
      modifies `parent
      ensures Valid() && features == FeaturesBefore(history, e)
      ensures ReadOffFields(features, Inserted(history), Confirmations(history), e)
    {
      FeaturesReadFields(history, e);
      TableByTable();
      var ns := EventNodes(e);
      var size, observed, confirmed := CandidateComponentTotals(ns);
      NodeByNode();
      TablesGiveFeatures(history, e, root, adjacency, nodes, entityObservations, entityConfirmedFraud, attributed,
                         size, observed, confirmed);
      features := GraphFeatures(
        NeighborCount(adjacency, DeviceNode(e), Customer), NeighborCount(adjacency, IpNode(e), Customer), size,
        Ratio(Get(entityConfirmedFraud, MerchantNode(e)), Get(entityObservations, MerchantNode(e))),
        LargestDegree(adjacency, ns),
        Ratio(confirmed, observed), NeighborCount(adjacency, MerchantNode(e), Customer),
        Get(entityObservations, DeviceNode(e)), Get(entityObservations, IpNode(e)));
    }

    /** The graph part of a feature vector, read before the event is inserted: exactly what the
        history of calls says, whatever shape the index is in. */
    method Compute(e: PaymentEvent, update: bool) returns (snapshot: GraphSnapshot)
      requires Valid()
      modifies `nodes, `adjacency, `entityObservations, `history
      modifies `parent, `componentSize, `componentObservations, `componentConfirmedFraud, `root, `rank
      ensures Valid() && history == old(history) + if update then [Insert(e.Unlabeled())] else []
      ensures snapshot == SnapshotBefore(old(history), e, sizeSignal)
      ensures ReadOffFields(snapshot.features, Inserted(old(history)), Confirmations(old(history)), e)
    {
      var features := ReadFeatures(e);
      snapshot := GraphSnapshot(features, GraphScore(features, sizeSignal));
      if update {
        Update(e);
      }
    }

    /** What the index says about a node, against a traversal of the explicit graph: the parent
        chain ends, within log2 of the component's size, at a root whose entries are the size,
        observations and attributed confirmations of the node's connected component; and the
        node shares it with exactly the nodes it is connected to. */
    lemma IndexIsExact(x: Node) returns (d: nat, r: Node)
      requires Valid() && x in Nodes(Inserted(history))
      ensures r == Climb(parent, x, d) && r in parent && parent[r] == r
      ensures var whole := Component(Inserted(history), x);
              && Pow2(d) <= |whole|
              && r in componentSize && componentSize[r] == |whole|
              && r in componentObservations && componentObservations[r] == Total(whole, CountMap(Inserted(history), whole))
              && r in componentConfirmedFraud && componentConfirmedFraud[r] == Total(whole, AttributedMap(history, whole))
      ensures forall y | y in Nodes(Inserted(history)) :: y in root && (root[y] == r <==> Connected(Inserted(history), x, y))
    {
      TableByTable();
      RootsAreNodes(root, Inserted(history));
      d := DepthBound(parent, root, rank, componentSize, x);
      r := root[x];
      assert PlacedAt(parent, root, rank, x) && SizedAt(root, rank, componentSize, r);
      assert SummedAt(root, componentObservations, entityObservations, r);
      assert SummedAt(root, componentConfirmedFraud, attributed, r);
      ClassIsComponent(root, Inserted(history), x);
      CandidateSums(history, Component(Inserted(history), x), entityObservations, attributed);
      forall y | y in Nodes(Inserted(history))
        ensures root[y] == r <==> Connected(Inserted(history), x, y)
      {
        SameRootIffConnected(root, Inserted(history), x, y);
      }
    }

    /** The keys of the three per-root maps are exactly the nodes that are their own parents. */
    lemma EntriesAreRoots(r: Node)
      requires Valid()
      ensures r in componentSize <==> r in parent && parent[r] == r
      ensures r in componentObservations <==> r in componentSize
      ensures r in componentConfirmedFraud <==> r in componentSize
    {
      assert SoundAt(r);
    }

    /** The investigator export: the ring's nodes with their displayed confirmations, and the
        edges between them, each once, with its customer end first. */
    method SuspiciousSubgraph(minimum: int) returns (ring: map<Node, nat>, edges: set<(Node, Node)>)
      requires Valid()
      ensures forall n :: n in ring <==> InRing(Inserted(history), minimum, n)
      ensures forall n | n in ring :: ring[n] == Displayed(history, n)
      ensures forall x, y :: (x, y) in edges <==> x.kind == Customer && x in ring && y in ring && Linked(Inserted(history), x, y)
      ensures forall x, y | x in ring && y in ring && Linked(Inserted(history), x, y) :: ((x, y) in edges) != ((y, x) in edges)
    {
      TableByTable();
      var suspicious := CollectSuspicious(minimum);
      CollectedRing(Inserted(history), minimum, suspicious);
      RingInGraph(history, minimum, suspicious, nodes);
      ring := map n | n in suspicious && n in nodes :: Shown(nodes[n].confirmedFraud);
      edges := set x, y | x in suspicious && x.kind == Customer && x in adjacency && y in adjacency[x] && y in suspicious :: (x, y);
      forall x, y
        ensures (x, y) in edges <==> x.kind == Customer && x in suspicious && y in suspicious && Linked(Inserted(history), x, y)
      {
        assert EdgeAt(adjacency, Inserted(history), x, y);
      }
      forall x, y | x in ring && y in ring && Linked(Inserted(history), x, y)
        ensures ((x, y) in edges) != ((y, x) in edges)
      {
        EdgesJoinCustomers(Inserted(history), x, y);
        LinkedFacts(Inserted(history), x, y);
      }
    }

    method CollectSuspicious(minimum: int) returns (suspicious: set<Node>)
      requires Valid()
      ensures forall n :: n in suspicious <==>
                || IsHub(Inserted(history), minimum, n)
                || exists hub :: IsHub(Inserted(history), minimum, hub) && n in Neighbors(Inserted(history), hub)
    {
      TableByTable();
      ghost var ins := Inserted(history);
      suspicious := {};
      var todo := nodes.Keys;
      while todo != {}
        invariant todo <= nodes.Keys
        invariant forall n :: n in suspicious <==>
                    || (n in nodes.Keys - todo && IsHub(ins, minimum, n))
                    || exists hub :: hub in nodes.Keys - todo && IsHub(ins, minimum, hub) && n in Neighbors(ins, hub)
        decreases todo
      {
        var n :| n in todo;
        HubTest(nodes, adjacency, history, minimum, n);
        if (nodes[n].kind == Device || nodes[n].kind == Ip) && NeighborCount(adjacency, n, Customer) >= minimum {
          suspicious := suspicious + {n} + adjacency[n].Keys;
        }
        todo := todo - {n};
      }
      forall n
        ensures IsHub(ins, minimum, n) ==> n in nodes
      {
        assert NodeAt(nodes, history, n);
      }
    }
  }
}
