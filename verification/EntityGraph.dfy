/** What the fraud graph means: everything it answers, defined from the history of
    insertions and fraud confirmations, with no index. */
module EntityGraph {
  import opened Domain
  import opened Tally

  // ----- entities of an event -----

  function CustomerNode(e: PaymentEvent): Node { Node(Customer, e.customerId) }
  function CardNode(e: PaymentEvent): Node { Node(Card, e.cardId) }
  function DeviceNode(e: PaymentEvent): Node { Node(Device, e.deviceId) }
  function IpNode(e: PaymentEvent): Node { Node(Ip, e.ipAddress) }
  function MerchantNode(e: PaymentEvent): Node { Node(Merchant, e.merchantId) }

  /** `event_nodes`, in the order the dictionary lists them. */
  function EventNodes(e: PaymentEvent): seq<Node> {
    [CustomerNode(e), CardNode(e), DeviceNode(e), IpNode(e), MerchantNode(e)]
  }

  function NodeSet(e: PaymentEvent): set<Node> {
    {CustomerNode(e), CardNode(e), DeviceNode(e), IpNode(e), MerchantNode(e)}
  }

  lemma EventNodesDistinct(e: PaymentEvent)
    ensures |NodeSet(e)| == 5
    ensures forall i, j | 0 <= i < j < 5 :: EventNodes(e)[i] != EventNodes(e)[j]
    ensures forall n :: n in EventNodes(e) <==> n in NodeSet(e)
  {
    var s := EventNodes(e);
    assert NodeSet(e) == {s[0]} + {s[1]} + {s[2]} + {s[3]} + {s[4]};
  }

  // ----- histories -----

  /** A state-changing call. The event is logged without labels: no operation reads them. */
  datatype Op = Insert(event: PaymentEvent) | Confirm(event: PaymentEvent)

  type History = seq<Op>

  function Inserted(h: History): seq<PaymentEvent> {
    if h == [] then [] else
      var last := h[|h| - 1];
      Inserted(h[..|h| - 1]) + if last.Insert? then [last.event] else []
  }

  function Confirmations(h: History): seq<PaymentEvent> {
    if h == [] then [] else
      var last := h[|h| - 1];
      Confirmations(h[..|h| - 1]) + if last.Confirm? then [last.event] else []
  }

  /** How many of the events involve entity `n`. */
  function Count(events: seq<PaymentEvent>, n: Node): nat {
    if events == [] then 0 else
      Count(events[..|events| - 1], n) + if n in NodeSet(events[|events| - 1]) then 1 else 0
  }

  function Nodes(events: seq<PaymentEvent>): set<Node> {
    if events == [] then {} else Nodes(events[..|events| - 1]) + NodeSet(events[|events| - 1])
  }

  /** How many confirmations reached `n` once it was in the graph: what its component counts. */
  function Attributed(h: History, n: Node): nat {
    if h == [] then 0 else
      var before := h[..|h| - 1];
      var last := h[|h| - 1];
      Attributed(before, n) +
      if last.Confirm? && n in NodeSet(last.event) && n in Nodes(Inserted(before)) then 1 else 0
  }

  /** The `confirmed_fraud` attribute of node `n`: the counter as of the last confirmation
      that found the node in the graph. */
  function Displayed(h: History, n: Node): nat {
    if h == [] then 0 else
      var before := h[..|h| - 1];
      var last := h[|h| - 1];
      if last.Confirm? && n in NodeSet(last.event) && n in Nodes(Inserted(before))
      then Count(Confirmations(h), n)
      else Displayed(before, n)
  }

  lemma {:induction false} HistoryGrows(h: History, op: Op)
    ensures Inserted(h + [op]) == Inserted(h) + if op.Insert? then [op.event] else []
    ensures Confirmations(h + [op]) == Confirmations(h) + if op.Confirm? then [op.event] else []
  {
    assert (h + [op])[..|h|] == h;
  }

  lemma {:induction false} EventsGrow(events: seq<PaymentEvent>, e: PaymentEvent)
    ensures Nodes(events + [e]) == Nodes(events) + NodeSet(e)
    ensures forall n :: Count(events + [e], n) == Count(events, n) + if n in NodeSet(e) then 1 else 0
    ensures forall x, y :: Weight(events + [e], x, y) == Weight(events, x, y) + if Joins(e, x, y) then 1 else 0
  {
    assert (events + [e])[..|events|] == events;
  }

  lemma {:induction false} OneMoreOp(h: History, op: Op, n: Node)
    ensures Attributed(h + [op], n) == Attributed(h, n) +
            if op.Confirm? && n in NodeSet(op.event) && n in Nodes(Inserted(h)) then 1 else 0
    ensures Displayed(h + [op], n) ==
            if op.Confirm? && n in NodeSet(op.event) && n in Nodes(Inserted(h))
            then Count(Confirmations(h) + [op.event], n) else Displayed(h, n)
  {
    assert (h + [op])[..|h|] == h;
    HistoryGrows(h, op);
  }

  lemma {:induction false} OneMoreEdge(events: seq<PaymentEvent>, e: PaymentEvent, x: Node, y: Node)
    ensures Weight(events + [e], x, y) == Weight(events, x, y) + if Joins(e, x, y) then 1 else 0
  {
    assert (events + [e])[..|events|] == events;
  }

  lemma {:induction false} CountedNodes(events: seq<PaymentEvent>, n: Node)
    ensures n in Nodes(events) <==> Count(events, n) > 0
  {
    if events != [] {
      CountedNodes(events[..|events| - 1], n);
    }
  }

  lemma {:induction false} AttributedNodes(h: History, n: Node)
    ensures Attributed(h, n) > 0 || Displayed(h, n) > 0 ==> n in Nodes(Inserted(h))
    ensures Attributed(h, n) <= Count(Confirmations(h), n)
  {
    if h != [] {
      var before, last := h[..|h| - 1], h[|h| - 1];
      AttributedNodes(before, n);
      if last.Insert? {
        OneMoreEvent(Inserted(before), last.event, n);
        assert Confirmations(h) == Confirmations(before);
      } else {
        OneMoreEvent(Confirmations(before), last.event, n);
        assert Inserted(h) == Inserted(before);
      }
    }
  }

  lemma {:induction false} OneMoreEvent(events: seq<PaymentEvent>, e: PaymentEvent, n: Node)
    ensures Nodes(events + [e]) == Nodes(events) + NodeSet(e)
    ensures Count(events + [e], n) == Count(events, n) + if n in NodeSet(e) then 1 else 0
  {
    assert (events + [e])[..|events|] == events;
  }

  // ----- the weighted graph -----

  /** Event `e` adds one observation to the edge between `x` and `y`. */
  predicate Joins(e: PaymentEvent, x: Node, y: Node) {
    || (x == CustomerNode(e) && y in NodeSet(e) - {x})
    || (y == CustomerNode(e) && x in NodeSet(e) - {y})
  }

  /** The `observations` attribute of the edge between `x` and `y`; 0 without one. */
  function Weight(events: seq<PaymentEvent>, x: Node, y: Node): nat {
    if events == [] then 0 else
      Weight(events[..|events| - 1], x, y) + if Joins(events[|events| - 1], x, y) then 1 else 0
  }

  predicate Linked(events: seq<PaymentEvent>, x: Node, y: Node) {
    Weight(events, x, y) > 0
  }

  lemma {:induction false} LinkedFacts(events: seq<PaymentEvent>, x: Node, y: Node)
    ensures Weight(events, x, y) == Weight(events, y, x)
    ensures Linked(events, x, y) ==> x in Nodes(events) && y in Nodes(events)
    ensures Linked(events, x, y) <==> exists e :: e in events && Joins(e, x, y)
  {
    if events != [] {
      var before, last := events[..|events| - 1], events[|events| - 1];
      LinkedFacts(before, x, y);
      assert events == before + [last];
    }
  }

  function Neighbors(events: seq<PaymentEvent>, n: Node): set<Node> {
    set y | y in Nodes(events) && Linked(events, n, y)
  }

  /** The distinct customers that paid with entity `n`. */
  function Sharers(events: seq<PaymentEvent>, n: Node): set<string> {
    set e | e in events && n in NodeSet(e) :: e.customerId
  }

  lemma {:induction false} CustomerNodes(ids: set<string>)
    ensures |set c | c in ids :: Node(Customer, c)| == |ids|
    decreases ids
  {
    if ids != {} {
      var c :| c in ids;
      CustomerNodes(ids - {c});
      var rest := set d | d in ids - {c} :: Node(Customer, d);
      assert (set c | c in ids :: Node(Customer, c)) == rest + {Node(Customer, c)};
    }
  }

  /** Counting the customer neighbors of a non-customer counts the distinct customers that
      used it. */
  lemma NeighborsAreSharers(events: seq<PaymentEvent>, n: Node)
    requires n.kind != Customer
    ensures |set y | y in Neighbors(events, n) && y.kind == Customer| == |Sharers(events, n)|
  {
    var near := set y | y in Neighbors(events, n) && y.kind == Customer;
    var names := set c | c in Sharers(events, n) :: Node(Customer, c);
    forall y | y in near
      ensures y in names
    {
      LinkedFacts(events, n, y);
      var e :| e in events && Joins(e, n, y);
      assert e.customerId in Sharers(events, n);
    }
    forall c | c in Sharers(events, n)
      ensures Node(Customer, c) in near
    {
      var e :| e in events && n in NodeSet(e) && e.customerId == c;
      assert Joins(e, n, Node(Customer, c));
      LinkedFacts(events, n, Node(Customer, c));
    }
    assert near == names;
    CustomerNodes(Sharers(events, n));
  }

  // ----- connectivity -----

  ghost predicate Path(events: seq<PaymentEvent>, p: seq<Node>) {
    p != [] && forall i | 0 <= i < |p| - 1 :: Linked(events, p[i], p[i + 1])
  }

  ghost predicate Connected(events: seq<PaymentEvent>, x: Node, y: Node) {
    exists p :: Path(events, p) && p[0] == x && p[|p| - 1] == y
  }

  lemma ConnectedSelf(events: seq<PaymentEvent>, x: Node)
    ensures Connected(events, x, x)
  {
    assert Path(events, [x]) && [x][0] == x;
  }

  lemma ConnectedLink(events: seq<PaymentEvent>, x: Node, y: Node)
    requires Linked(events, x, y)
    ensures Connected(events, x, y)
  {
    var p := [x, y];
    assert Path(events, p) && p[0] == x && p[|p| - 1] == y;
  }

  lemma ConnectedSymmetric(events: seq<PaymentEvent>, x: Node, y: Node)
    requires Connected(events, x, y)
    ensures Connected(events, y, x)
  {
    var p :| Path(events, p) && p[0] == x && p[|p| - 1] == y;
    var q := seq(|p|, i requires 0 <= i < |p| => p[|p| - 1 - i]);
    forall i | 0 <= i < |q| - 1
      ensures Linked(events, q[i], q[i + 1])
    {
      var j := |p| - 2 - i;
      assert Linked(events, p[j], p[j + 1]);
      LinkedFacts(events, p[j], p[j + 1]);
    }
    assert Path(events, q) && q[0] == y && q[|q| - 1] == x;
  }

  lemma ConnectedTransitive(events: seq<PaymentEvent>, x: Node, y: Node, z: Node)
    requires Connected(events, x, y) && Connected(events, y, z)
    ensures Connected(events, x, z)
  {
    var p :| Path(events, p) && p[0] == x && p[|p| - 1] == y;
    var q :| Path(events, q) && q[0] == y && q[|q| - 1] == z;
    var r := p + q[1..];
    assert Path(events, r) && r[0] == x && r[|r| - 1] == z;
  }

  lemma ConnectedGrows(events: seq<PaymentEvent>, e: PaymentEvent, x: Node, y: Node)
    requires Connected(events, x, y)
    ensures Connected(events + [e], x, y)
  {
    EventsGrow(events, e);
    var p :| Path(events, p) && p[0] == x && p[|p| - 1] == y;
    assert Path(events + [e], p);
  }

  /** A set that no edge leaves contains everything connected to its members. */
  lemma ClosedSetHoldsComponent(events: seq<PaymentEvent>, s: set<Node>, x: Node, y: Node)
    requires x in s && Connected(events, x, y)
    requires forall a, b | a in s && Linked(events, a, b) :: b in s
    ensures y in s
  {
    var p :| Path(events, p) && p[0] == x && p[|p| - 1] == y;
    for i := 0 to |p| - 1
      invariant p[i] in s
    {
      assert Linked(events, p[i], p[i + 1]);
    }
  }

  ghost function Component(events: seq<PaymentEvent>, x: Node): set<Node> {
    set y | y in Nodes(events) && Connected(events, x, y)
  }

  /** The part of the graph an event touches before it is inserted. */
  ghost function Touched(events: seq<PaymentEvent>, e: PaymentEvent): set<Node> {
    set y | y in Nodes(events) && exists n :: n in NodeSet(e) && Connected(events, n, y)
  }

  ghost function Neighborhood(events: seq<PaymentEvent>, e: PaymentEvent): set<Node> {
    NodeSet(e) + Touched(events, e)
  }

  /** The neighborhood read before insertion is the component the insertion makes. */
  lemma NeighborhoodBecomesComponent(events: seq<PaymentEvent>, e: PaymentEvent)
    ensures Component(events + [e], CustomerNode(e)) == Neighborhood(events, e)
  {
    var after, c, near := events + [e], CustomerNode(e), Neighborhood(events, e);
    EventsGrow(events, e);
    forall y | y in near
      ensures Connected(after, c, y)
    {
      forall n | n in NodeSet(e)
        ensures Connected(after, c, n)
      {
        if n == c { ConnectedSelf(after, c); } else { assert Joins(e, c, n); ConnectedLink(after, c, n); }
      }
      if y !in NodeSet(e) {
        var n :| n in NodeSet(e) && Connected(events, n, y);
        ConnectedGrows(events, e, n, y);
        ConnectedTransitive(after, c, n, y);
      }
    }
    forall a, b | a in near && Linked(after, a, b)
      ensures b in near
    {
      if !Joins(e, a, b) {
        LinkedFacts(events, a, b);
        ConnectedLink(events, a, b);
        if a in NodeSet(e) {
        } else {
          var n :| n in NodeSet(e) && Connected(events, n, a);
          ConnectedTransitive(events, n, a, b);
        }
      }
    }
    forall y | y in Nodes(after) && Connected(after, c, y)
      ensures y in near
    {
      ClosedSetHoldsComponent(after, near, c, y);
    }
  }

  /** The neighborhood splits into what the event would add and what it touches. */
  lemma {:induction false} NeighborhoodSize(events: seq<PaymentEvent>, e: PaymentEvent)
    ensures |Neighborhood(events, e)| == |NodeSet(e) - Nodes(events)| + |Touched(events, e)|
  {
    forall n | n in NodeSet(e) && n in Nodes(events)
      ensures n in Touched(events, e)
    {
      ConnectedSelf(events, n);
    }
    assert Neighborhood(events, e) == (NodeSet(e) - Nodes(events)) + Touched(events, e);
  }

  lemma {:induction false} ConnectedInside(events: seq<PaymentEvent>, x: Node, y: Node)
    requires Connected(events, x, y) && y in Nodes(events)
    ensures x in Nodes(events)
  {
    var p :| Path(events, p) && p[0] == x && p[|p| - 1] == y;
    if |p| > 1 {
      assert Linked(events, p[0], p[0 + 1]);
      LinkedFacts(events, p[0], p[1]);
    }
  }

  // ----- what the graph answers about a candidate event -----

  function CountMap(events: seq<PaymentEvent>, s: set<Node>): map<Node, nat> {
    map n | n in s :: Count(events, n)
  }

  function AttributedMap(h: History, s: set<Node>): map<Node, nat> {
    map n | n in s :: Attributed(h, n)
  }

  /** The largest degree among the listed nodes. */
  function MaxDegree(events: seq<PaymentEvent>, ns: seq<Node>): (m: nat)
    ensures forall n | n in ns :: |Neighbors(events, n)| <= m
    ensures ns == [] || exists n :: n in ns && |Neighbors(events, n)| == m
  {
    if ns == [] then 0 else
      var m, d := MaxDegree(events, ns[..|ns| - 1]), |Neighbors(events, ns[|ns| - 1])|;
      if m > d then m else d
  }

  datatype GraphFeatures = GraphFeatures(
    sharedDeviceCustomers: nat, sharedIpCustomers: nat, suspiciousComponentSize: nat,
    merchantFraudConcentration: real, maxEntityDegree: nat, neighborhoodConfirmedFraudRate: real,
    merchantCustomerCount: nat, deviceObservations: nat, ipObservations: nat)

  datatype GraphSnapshot = GraphSnapshot(features: GraphFeatures, graphScore: real)

  function Ratio(part: nat, whole: nat): real {
    part as real / (if whole > 1 then whole else 1) as real
  }

  ghost function FeaturesBefore(h: History, e: PaymentEvent): GraphFeatures {
    var ins, near := Inserted(h), Touched(Inserted(h), e);
    GraphFeatures(
      |Sharers(ins, DeviceNode(e))|,
      |Sharers(ins, IpNode(e))|,
      |Neighborhood(ins, e)|,
      Ratio(Count(Confirmations(h), MerchantNode(e)), Count(ins, MerchantNode(e))),
      MaxDegree(ins, EventNodes(e)),
      Ratio(Total(near, AttributedMap(h, near)), Total(near, CountMap(ins, near))),
      |Sharers(ins, MerchantNode(e))|,
      Count(ins, DeviceNode(e)),
      Count(ins, IpNode(e)))
  }

  function Capped(x: real): real {
    if x < 1.0 then x else 1.0
  }

  function WeightedScore(f: GraphFeatures, sizeSignal: nat -> real): real {
    0.22 * Capped(f.sharedDeviceCustomers as real / 3.0)
    + 0.22 * Capped(f.sharedIpCustomers as real / 3.0)
    + 0.18 * Capped(sizeSignal(f.suspiciousComponentSize))
    + 0.18 * f.merchantFraudConcentration
    + 0.20 * f.neighborhoodConfirmedFraudRate
  }

  /** `graph_score`; `sizeSignal` stands for the logarithm of the component size over log 30. */
  function GraphScore(f: GraphFeatures, sizeSignal: nat -> real): real {
    Capped(WeightedScore(f, sizeSignal))
  }

  ghost function SnapshotBefore(h: History, e: PaymentEvent, sizeSignal: nat -> real): GraphSnapshot {
    var f := FeaturesBefore(h, e);
    GraphSnapshot(f, GraphScore(f, sizeSignal))
  }
}
