/** Laws of the entity graph, over every history of insertions and confirmations. */
module GraphTheorems {
  import opened Domain
  import opened Tally
  import opened EntityGraph
  import opened Sequences

  /** Reading before inserting predicts the future: the component an insertion makes has the
      size read before it, the same confirmations, and exactly five more observations. */
  lemma {:induction false} InsertionPredicted(h: History, e: PaymentEvent)
    ensures var near, h' := Touched(Inserted(h), e), h + [Insert(e)];
            var whole := Component(Inserted(h'), CustomerNode(e));
            && |whole| == FeaturesBefore(h, e).suspiciousComponentSize
            && Total(whole, CountMap(Inserted(h'), whole)) == Total(near, CountMap(Inserted(h), near)) + 5
            && Total(whole, AttributedMap(h', whole)) == Total(near, AttributedMap(h, near))
  {
    var ins, h' := Inserted(h), h + [Insert(e)];
    var near, whole := Touched(ins, e), Component(Inserted(h'), CustomerNode(e));
    HistoryGrows(h, Insert(e));
    NeighborhoodBecomesComponent(ins, e);
    assert whole == Neighborhood(ins, e);
    var unseen := whole - near;
    EventNodesDistinct(e);
    forall n | n in whole
      ensures Get(CountMap(Inserted(h'), whole), n) == Get(CountMap(ins, whole), n) + if n in NodeSet(e) then 1 else 0
      ensures Get(AttributedMap(h', whole), n) == Get(AttributedMap(h, whole), n)
      ensures n in unseen ==> Get(CountMap(ins, whole), n) == 0 && Get(AttributedMap(h, whole), n) == 0
    {
      OneMoreEvent(ins, e, n);
      OneMoreOp(h, Insert(e), n);
      if n in unseen {
        ConnectedSelf(ins, n);
        CountedNodes(ins, n);
        AttributedNodes(h, n);
      }
    }
    TotalRaised(whole, NodeSet(e), CountMap(ins, whole), CountMap(Inserted(h'), whole));
    TotalSame(whole, AttributedMap(h', whole), AttributedMap(h, whole));
    SplitTotal(whole, near, CountMap(ins, whole), CountMap(ins, near));
    SplitTotal(whole, near, AttributedMap(h, whole), AttributedMap(h, near));
  }

  lemma {:induction false} SplitTotal(whole: set<Node>, near: set<Node>, m: map<Node, nat>, m': map<Node, nat>)
    requires near <= whole
    requires forall n | n in whole - near :: Get(m, n) == 0
    requires forall n | n in near :: Get(m, n) == Get(m', n)
    ensures Total(whole, m) == Total(near, m')
  {
    assert whole == near + (whole - near);
    TotalUnion(near, whole - near, m);
    TotalZero(whole - near, m);
    TotalSame(near, m, m');
  }

  // ----- when component confirmations are entity confirmations -----

  /** No confirmation involving `n` came before `n` entered the graph. */
  ghost predicate ConfirmedOnlyOnceKnown(h: History, n: Node) {
    forall k | 0 <= k < |h| && h[k].Confirm? && n in NodeSet(h[k].event) :: n in Nodes(Inserted(h[..k]))
  }

  lemma {:induction false} KnownStep(before: History, last: Op, n: Node)
    ensures ConfirmedOnlyOnceKnown(before + [last], n) <==>
            ConfirmedOnlyOnceKnown(before, n) && (last.Confirm? && n in NodeSet(last.event) ==> n in Nodes(Inserted(before)))
  {
    var h := before + [last];
    forall k | 0 <= k < |before|
      ensures h[..k] == before[..k] && h[k] == before[k]
    {
    }
    assert h[..|before|] == before && h[|before|] == last;
  }

  /** What components count for `n` is its own confirmation count exactly then; a confirmation
      of an entity not yet in the graph is lost to its component for good. */
  lemma {:induction false} AttributionExact(h: History, n: Node)
    ensures Attributed(h, n) == Count(Confirmations(h), n) <==> ConfirmedOnlyOnceKnown(h, n)
  {
    if h != [] {
      var before, last := h[..|h| - 1], h[|h| - 1];
      assert h == before + [last];
      AttributionExact(before, n);
      AttributedNodes(before, n);
      KnownStep(before, last, n);
      if last.Confirm? {
        OneMoreEvent(Confirmations(before), last.event, n);
      } else {
        assert Confirmations(h) == Confirmations(before);
      }
    }
  }

  /** The loss is real: confirm first, insert next, and the component has seen no fraud. */
  lemma {:induction false} EarlyConfirmationIsLost(e: PaymentEvent, n: Node)
    requires n in NodeSet(e)
    ensures var h := [Confirm(e)] + [Insert(e)];
            n in Nodes(Inserted(h)) && Count(Confirmations(h), n) == 1 && Attributed(h, n) == 0
  {
    ConfirmedAlone(e, n);
    OneMoreOp([Confirm(e)], Insert(e), n);
    HistoryGrows([Confirm(e)], Insert(e));
    OneMoreEvent([], e, n);
  }

  lemma {:induction false} ConfirmedAlone(e: PaymentEvent, n: Node)
    requires n in NodeSet(e)
    ensures var h := [Confirm(e)];
            Inserted(h) == [] && Confirmations(h) == [] + [e] && Attributed(h, n) == 0
  {
    assert [Confirm(e)][..0] == [];
  }

  // ----- grounded histories: rates and the score stay in [0, 1] -----

  /** At every moment, each confirmation is of an event inserted at least as often. */
  ghost predicate Grounded(h: History) {
    h == [] || (Grounded(h[..|h| - 1]) && multiset(Confirmations(h)) <= multiset(Inserted(h)))
  }

  lemma {:induction false} GroundedGrows(h: History, op: Op)
    ensures Grounded(h + [op]) <==> Grounded(h) && multiset(Confirmations(h + [op])) <= multiset(Inserted(h + [op]))
  {
    assert (h + [op])[..|h|] == h;
  }

  lemma {:induction false} CountAppend(a: seq<PaymentEvent>, b: seq<PaymentEvent>, n: Node)
    ensures Count(a + b, n) == Count(a, n) + Count(b, n)
  {
    if b == [] {
      assert a + b == a;
    } else {
      var b', last := b[..|b| - 1], b[|b| - 1];
      CountAppend(a, b', n);
      assert a + b == (a + b') + [last] && b == b' + [last];
      OneMoreEvent(a + b', last, n);
      OneMoreEvent(b', last, n);
    }
  }

  lemma {:induction false} CountWithoutOne(events: seq<PaymentEvent>, i: nat, n: Node)
    requires i < |events|
    ensures Count(events, n) == Count(events[..i] + events[i + 1..], n) + if n in NodeSet(events[i]) then 1 else 0
  {
    var l, r := events[..i], events[i + 1..];
    assert events == l + [events[i]] + r;
    OneMoreEvent(l, events[i], n);
    CountAppend(l + [events[i]], r, n);
    CountAppend(l, r, n);
  }

  lemma {:induction false} CountFirst(events: seq<PaymentEvent>, n: Node)
    requires events != []
    ensures Count(events, n) == Count(events[1..], n) + if n in NodeSet(events[0]) then 1 else 0
  {
    CountWithoutOne(events, 0, n);
    WithoutFirst(events);
  }

  lemma {:induction false} CountMonotone(a: seq<PaymentEvent>, b: seq<PaymentEvent>, n: Node)
    requires multiset(a) <= multiset(b)
    ensures Count(a, n) <= Count(b, n)
    decreases |a|
  {
    if a != [] {
      var i := DropCommon(a, b);
      var rest := b[..i] + b[i + 1..];
      CountMonotone(a[1..], rest, n);
      CountFirst(a, n);
      CountWithoutOne(b, i, n);
    }
  }

  lemma {:induction false} EventNodesIncluded(events: seq<PaymentEvent>, e: PaymentEvent)
    requires e in events
    ensures NodeSet(e) <= Nodes(events)
  {
    if e != events[|events| - 1] {
      EventNodesIncluded(events[..|events| - 1], e);
    }
  }

  lemma {:induction false} GroundedIsKnown(h: History, n: Node)
    requires Grounded(h)
    ensures ConfirmedOnlyOnceKnown(h, n)
  {
    if h != [] {
      var before, last := h[..|h| - 1], h[|h| - 1];
      assert h == before + [last];
      GroundedIsKnown(before, n);
      KnownStep(before, last, n);
      if last.Confirm? && n in NodeSet(last.event) {
        HistoryGrows(before, last);
        assert last.event in multiset(Confirmations(h));
        assert Inserted(h) == Inserted(before);
        EventNodesIncluded(Inserted(before), last.event);
      }
    }
  }

  /** In a grounded history every node is confirmed at most as often as observed, and what its
      component counts for it is its own count. */
  lemma {:induction false} GroundedCounts(h: History, n: Node)
    requires Grounded(h)
    ensures Count(Confirmations(h), n) <= Count(Inserted(h), n)
    ensures Attributed(h, n) == Count(Confirmations(h), n)
  {
    CountMonotone(Confirmations(h), Inserted(h), n);
    GroundedIsKnown(h, n);
    AttributionExact(h, n);
  }

  lemma RatioInUnit(part: nat, whole: nat)
    requires part <= whole
    ensures 0.0 <= Ratio(part, whole) <= 1.0
  {
  }

  lemma WeightsInUnit(a: real, b: real, c: real, d: real, r: real)
    requires 0.0 <= a <= 1.0 && 0.0 <= b <= 1.0 && 0.0 <= c <= 1.0 && 0.0 <= d <= 1.0 && 0.0 <= r <= 1.0
    ensures 0.0 <= 0.22 * a + 0.22 * b + 0.18 * c + 0.18 * d + 0.20 * r <= 1.0
  {
  }

  /** The graph features from insertions and confirmations alone, whatever their interleaving. */
  ghost function PointInTime(ins: seq<PaymentEvent>, conf: seq<PaymentEvent>, e: PaymentEvent): GraphFeatures {
    var near := Touched(ins, e);
    GraphFeatures(
      |Sharers(ins, DeviceNode(e))|, |Sharers(ins, IpNode(e))|, |Neighborhood(ins, e)|,
      Ratio(Count(conf, MerchantNode(e)), Count(ins, MerchantNode(e))),
      MaxDegree(ins, EventNodes(e)),
      Ratio(Total(near, CountMap(conf, near)), Total(near, CountMap(ins, near))),
      |Sharers(ins, MerchantNode(e))|, Count(ins, DeviceNode(e)), Count(ins, IpNode(e)))
  }

  /** In a grounded history the order of calls does not matter, only which events they carried. */
  lemma {:induction false} GroundedFeatures(h: History, e: PaymentEvent)
    requires Grounded(h)
    ensures FeaturesBefore(h, e) == PointInTime(Inserted(h), Confirmations(h), e)
  {
    var near := Touched(Inserted(h), e);
    forall n | n in near
      ensures Get(AttributedMap(h, near), n) == Get(CountMap(Confirmations(h), near), n)
    {
      GroundedCounts(h, n);
    }
    TotalSame(near, AttributedMap(h, near), CountMap(Confirmations(h), near));
  }

  lemma RatesInUnit(ins: seq<PaymentEvent>, conf: seq<PaymentEvent>, e: PaymentEvent)
    requires multiset(conf) <= multiset(ins)
    ensures 0.0 <= PointInTime(ins, conf, e).merchantFraudConcentration <= 1.0
    ensures 0.0 <= PointInTime(ins, conf, e).neighborhoodConfirmedFraudRate <= 1.0
  {
    var near := Touched(ins, e);
    CountMonotone(conf, ins, MerchantNode(e));
    RatioInUnit(Count(conf, MerchantNode(e)), Count(ins, MerchantNode(e)));
    forall n | n in near
      ensures Get(CountMap(conf, near), n) <= Get(CountMap(ins, near), n)
    {
      CountMonotone(conf, ins, n);
    }
    TotalAtMost(near, CountMap(conf, near), CountMap(ins, near));
    RatioInUnit(Total(near, CountMap(conf, near)), Total(near, CountMap(ins, near)));
  }

  /** When only inserted events are confirmed, each at most as often as it was inserted, both
      fraud rates and the weighted score lie in [0, 1], so the outer cap never binds. */
  lemma ScoreInUnit(ins: seq<PaymentEvent>, conf: seq<PaymentEvent>, e: PaymentEvent, sizeSignal: nat -> real)
    requires multiset(conf) <= multiset(ins) && sizeSignal(|Neighborhood(ins, e)|) >= 0.0
    ensures var f := PointInTime(ins, conf, e);
            0.0 <= WeightedScore(f, sizeSignal) <= 1.0 && GraphScore(f, sizeSignal) == WeightedScore(f, sizeSignal)
  {
    RatesInUnit(ins, conf, e);
    ScoreFromRates(PointInTime(ins, conf, e), sizeSignal);
  }

  lemma ScoreFromRates(f: GraphFeatures, sizeSignal: nat -> real)
    requires sizeSignal(f.suspiciousComponentSize) >= 0.0
    requires 0.0 <= f.merchantFraudConcentration <= 1.0 && 0.0 <= f.neighborhoodConfirmedFraudRate <= 1.0
    ensures 0.0 <= WeightedScore(f, sizeSignal) <= 1.0
  {
    WeightsInUnit(Capped(f.sharedDeviceCustomers as real / 3.0), Capped(f.sharedIpCustomers as real / 3.0),
                  Capped(sizeSignal(f.suspiciousComponentSize)), f.merchantFraudConcentration, f.neighborhoodConfirmedFraudRate);
  }

  /** The score is full exactly when every one of its five signals is. */
  lemma {:induction false} ScoreSaturates(f: GraphFeatures, sizeSignal: nat -> real)
    requires sizeSignal(f.suspiciousComponentSize) >= 0.0
    requires 0.0 <= f.merchantFraudConcentration <= 1.0 && 0.0 <= f.neighborhoodConfirmedFraudRate <= 1.0
    ensures GraphScore(f, sizeSignal) == 1.0 <==>
            && f.sharedDeviceCustomers >= 3 && f.sharedIpCustomers >= 3 && sizeSignal(f.suspiciousComponentSize) >= 1.0
            && f.merchantFraudConcentration == 1.0 && f.neighborhoodConfirmedFraudRate == 1.0
  {
    OnlyAllFull(Capped(f.sharedDeviceCustomers as real / 3.0), Capped(f.sharedIpCustomers as real / 3.0),
                Capped(sizeSignal(f.suspiciousComponentSize)), f.merchantFraudConcentration, f.neighborhoodConfirmedFraudRate);
    assert Capped(f.sharedDeviceCustomers as real / 3.0) == 1.0 <==> f.sharedDeviceCustomers >= 3;
    assert Capped(f.sharedIpCustomers as real / 3.0) == 1.0 <==> f.sharedIpCustomers >= 3;
  }

  /** What each signal is worth: a third of a sharing weight per customer up to three, the size
      signal up to one, and the two rates in proportion. */
  lemma {:induction false} ScoreShares(f: GraphFeatures, sizeSignal: nat -> real)
    requires sizeSignal(f.suspiciousComponentSize) == 0.0
    requires f.sharedDeviceCustomers <= 3 && f.sharedIpCustomers <= 3
    requires 0.0 <= f.merchantFraudConcentration <= 1.0 && 0.0 <= f.neighborhoodConfirmedFraudRate <= 1.0
    ensures 300.0 * GraphScore(f, sizeSignal) == 22.0 * (f.sharedDeviceCustomers + f.sharedIpCustomers) as real
                                                 + 54.0 * f.merchantFraudConcentration + 60.0 * f.neighborhoodConfirmedFraudRate
    ensures forall larger: nat -> real | larger(f.suspiciousComponentSize) >= 1.0 ::
              GraphScore(f, larger) == GraphScore(f, sizeSignal) + 0.18
  {
    assert Capped(f.sharedDeviceCustomers as real / 3.0) == f.sharedDeviceCustomers as real / 3.0;
    assert Capped(f.sharedIpCustomers as real / 3.0) == f.sharedIpCustomers as real / 3.0;
  }

  lemma {:induction false} OnlyAllFull(a: real, b: real, c: real, d: real, r: real)
    requires 0.0 <= a <= 1.0 && 0.0 <= b <= 1.0 && 0.0 <= c <= 1.0 && 0.0 <= d <= 1.0 && 0.0 <= r <= 1.0
    ensures 0.22 * a + 0.22 * b + 0.18 * c + 0.18 * d + 0.20 * r == 1.0 <==> a == 1.0 && b == 1.0 && c == 1.0 && d == 1.0 && r == 1.0
    ensures 0.22 * a + 0.22 * b + 0.18 * c + 0.18 * d + 0.20 * r <= 1.0
  {
  }

  // ----- weighted edges -----

  function WeightMap(events: seq<PaymentEvent>, x: Node, s: set<Node>): map<Node, nat> {
    map n | n in s :: Weight(events, x, n)
  }

  /** Every edge joins a customer to something else. */
  lemma EdgesJoinCustomers(events: seq<PaymentEvent>, x: Node, y: Node)
    requires Linked(events, x, y)
    ensures (x.kind == Customer) != (y.kind == Customer)
  {
    LinkedFacts(events, x, y);
  }

  function EntityOf(e: PaymentEvent, kind: Kind): Node {
    match kind
    case Customer => CustomerNode(e)
    case Card => CardNode(e)
    case Device => DeviceNode(e)
    case Ip => IpNode(e)
    case Merchant => MerchantNode(e)
  }

  /** Conservation: a customer's edge observations to entities of any one kind add up to the
      customer's own observations. */
  lemma {:induction false} EdgeObservationsAddUp(events: seq<PaymentEvent>, customer: Node, kind: Kind, s: set<Node>)
    requires customer.kind == Customer && kind != Customer
    requires forall n | n in Nodes(events) && n.kind == kind :: n in s
    requires forall n | n in s :: n.kind == kind
    ensures Total(s, WeightMap(events, customer, s)) == Count(events, customer)
  {
    if events == [] {
      TotalZero(s, WeightMap(events, customer, s));
    } else {
      var before, e := events[..|events| - 1], events[|events| - 1];
      EdgeObservationsAddUp(before, customer, kind, s);
      assert EntityOf(e, kind) in NodeSet(e);
      forall n | n in s
        ensures Joins(e, customer, n) <==> customer == CustomerNode(e) && n == EntityOf(e, kind)
      {
      }
      if customer == CustomerNode(e) {
        TotalRaised(s, {EntityOf(e, kind)}, WeightMap(before, customer, s), WeightMap(events, customer, s));
      } else {
        TotalSame(s, WeightMap(before, customer, s), WeightMap(events, customer, s));
      }
    }
  }

  // ----- suspicious rings -----

  predicate IsHub(events: seq<PaymentEvent>, minimum: int, n: Node) {
    n in Nodes(events) && (n.kind == Device || n.kind == Ip) && |Sharers(events, n)| >= minimum
  }

  /** The ring: devices and addresses shared by enough customers, and those customers. */
  ghost predicate InRing(events: seq<PaymentEvent>, minimum: int, n: Node) {
    || IsHub(events, minimum, n)
    || (n.kind == Customer && exists hub :: IsHub(events, minimum, hub) && n.identifier in Sharers(events, hub))
  }

  /** The neighbors of a shared entity are its customers, and nothing else. */
  lemma HubNeighbors(events: seq<PaymentEvent>, hub: Node, n: Node)
    requires hub.kind != Customer
    ensures n in Neighbors(events, hub) <==> n.kind == Customer && n.identifier in Sharers(events, hub)
  {
    LinkedFacts(events, hub, n);
    if n in Neighbors(events, hub) {
      var e :| e in events && Joins(e, hub, n);
      assert e.customerId in Sharers(events, hub);
    }
    if n.kind == Customer && n.identifier in Sharers(events, hub) {
      var e :| e in events && hub in NodeSet(e) && e.customerId == n.identifier;
      assert Joins(e, hub, n);
    }
  }
}
