/** The graph features read off the fields of the payments, with no graph: which payments share
    a device, an address, a merchant, and which hang together by anything they share. */
module EventFields {
  import opened Domain
  import opened Tally
  import opened EntityGraph
  import opened GraphTheorems
  import opened Sequences

  // ----- payments by field -----

  function AtDevice(events: seq<PaymentEvent>, id: string): set<int> {
    set i | 0 <= i < |events| && events[i].deviceId == id
  }

  function AtAddress(events: seq<PaymentEvent>, id: string): set<int> {
    set i | 0 <= i < |events| && events[i].ipAddress == id
  }

  function AtMerchant(events: seq<PaymentEvent>, id: string): set<int> {
    set i | 0 <= i < |events| && events[i].merchantId == id
  }

  function DeviceCustomers(events: seq<PaymentEvent>, id: string): set<string> {
    set f | f in events && f.deviceId == id :: f.customerId
  }

  function AddressCustomers(events: seq<PaymentEvent>, id: string): set<string> {
    set f | f in events && f.ipAddress == id :: f.customerId
  }

  function MerchantCustomers(events: seq<PaymentEvent>, id: string): set<string> {
    set f | f in events && f.merchantId == id :: f.customerId
  }

  function CardCustomers(events: seq<PaymentEvent>, id: string): set<string> {
    set f | f in events && f.cardId == id :: f.customerId
  }

  /** An entity is involved in a payment exactly when the payment's field of its kind names it. */
  lemma {:induction false} NodeByField(e: PaymentEvent, id: string)
    ensures Node(Customer, id) in NodeSet(e) <==> e.customerId == id
    ensures Node(Card, id) in NodeSet(e) <==> e.cardId == id
    ensures Node(Device, id) in NodeSet(e) <==> e.deviceId == id
    ensures Node(Ip, id) in NodeSet(e) <==> e.ipAddress == id
    ensures Node(Merchant, id) in NodeSet(e) <==> e.merchantId == id
  {
  }

  function Involving(events: seq<PaymentEvent>, n: Node): set<int> {
    set i | 0 <= i < |events| && n in NodeSet(events[i])
  }

  lemma {:induction false} CountIsPositions(events: seq<PaymentEvent>, n: Node)
    ensures Count(events, n) == |Involving(events, n)|
  {
    if events != [] {
      var before, k := events[..|events| - 1], |events| - 1;
      CountIsPositions(before, n);
      assert Involving(events, n) == Involving(before, n) + if n in NodeSet(events[k]) then {k} else {};
    }
  }

  lemma {:induction false} CountsByField(events: seq<PaymentEvent>, e: PaymentEvent)
    ensures Count(events, DeviceNode(e)) == |AtDevice(events, e.deviceId)|
    ensures Count(events, IpNode(e)) == |AtAddress(events, e.ipAddress)|
    ensures Count(events, MerchantNode(e)) == |AtMerchant(events, e.merchantId)|
  {
    CountIsPositions(events, DeviceNode(e));
    CountIsPositions(events, IpNode(e));
    CountIsPositions(events, MerchantNode(e));
    assert Involving(events, DeviceNode(e)) == AtDevice(events, e.deviceId);
    assert Involving(events, IpNode(e)) == AtAddress(events, e.ipAddress);
    assert Involving(events, MerchantNode(e)) == AtMerchant(events, e.merchantId);
  }

  lemma {:induction false} SharersByField(events: seq<PaymentEvent>, e: PaymentEvent)
    ensures Sharers(events, DeviceNode(e)) == DeviceCustomers(events, e.deviceId)
    ensures Sharers(events, IpNode(e)) == AddressCustomers(events, e.ipAddress)
    ensures Sharers(events, MerchantNode(e)) == MerchantCustomers(events, e.merchantId)
    ensures Sharers(events, CardNode(e)) == CardCustomers(events, e.cardId)
  {
  }

  /** The sharing counts, the observation counts and the merchant's fraud rate of a candidate
      payment, for any insertions and confirmations. */
  lemma {:induction false} EntityFeatures(ins: seq<PaymentEvent>, conf: seq<PaymentEvent>, e: PaymentEvent)
    ensures var f := PointInTime(ins, conf, e);
            var seen := |AtMerchant(ins, e.merchantId)|;
            && f.sharedDeviceCustomers == |DeviceCustomers(ins, e.deviceId)|
            && f.sharedIpCustomers == |AddressCustomers(ins, e.ipAddress)|
            && f.merchantCustomerCount == |MerchantCustomers(ins, e.merchantId)|
            && f.deviceObservations == |AtDevice(ins, e.deviceId)|
            && f.ipObservations == |AtAddress(ins, e.ipAddress)|
            && f.merchantFraudConcentration == |AtMerchant(conf, e.merchantId)| as real / (if seen > 1 then seen else 1) as real
  {
    CountsByField(ins, e);
    CountsByField(conf, e);
    SharersByField(ins, e);
  }

  /** Whatever the history, only the neighborhood's fraud rate depends on when confirmations came. */
  lemma {:induction false} OnlyTheRateIsHistorical(h: History, e: PaymentEvent)
    ensures FeaturesBefore(h, e).(neighborhoodConfirmedFraudRate := 0.0) ==
            PointInTime(Inserted(h), Confirmations(h), e).(neighborhoodConfirmedFraudRate := 0.0)
  {
  }

  // ----- degrees -----

  function CardsOf(events: seq<PaymentEvent>, customer: string): set<string> {
    set f | f in events && f.customerId == customer :: f.cardId
  }

  function DevicesOf(events: seq<PaymentEvent>, customer: string): set<string> {
    set f | f in events && f.customerId == customer :: f.deviceId
  }

  function AddressesOf(events: seq<PaymentEvent>, customer: string): set<string> {
    set f | f in events && f.customerId == customer :: f.ipAddress
  }

  function MerchantsOf(events: seq<PaymentEvent>, customer: string): set<string> {
    set f | f in events && f.customerId == customer :: f.merchantId
  }

  function Named(kind: Kind, ids: set<string>): set<Node> {
    set id | id in ids :: Node(kind, id)
  }

  lemma {:induction false} NamedSize(kind: Kind, ids: set<string>)
    ensures |Named(kind, ids)| == |ids|
    decreases ids
  {
    if ids != {} {
      var id :| id in ids;
      NamedSize(kind, ids - {id});
      assert Named(kind, ids) == Named(kind, ids - {id}) + {Node(kind, id)};
    }
  }

  lemma {:induction false} FiveKinds(a: set<string>, b: set<string>, c: set<string>, d: set<string>, m: set<string>)
    ensures |Named(Customer, a) + Named(Card, b) + Named(Device, c) + Named(Ip, d) + Named(Merchant, m)| == |a| + |b| + |c| + |d| + |m|
  {
    NamedSize(Customer, a);
    NamedSize(Card, b);
    NamedSize(Device, c);
    NamedSize(Ip, d);
    NamedSize(Merchant, m);
  }

  lemma {:induction false} EntityDegree(events: seq<PaymentEvent>, n: Node)
    requires n.kind != Customer
    ensures |Neighbors(events, n)| == |Sharers(events, n)|
  {
    forall y | y in Neighbors(events, n)
      ensures y.kind == Customer
    {
      HubNeighbors(events, n, y);
    }
    assert Neighbors(events, n) == set y | y in Neighbors(events, n) && y.kind == Customer;
    NeighborsAreSharers(events, n);
  }

  /** Everything the customer's payments used. */
  function Used(events: seq<PaymentEvent>, c: string): set<Node> {
    Named(Customer, {}) + Named(Card, CardsOf(events, c)) + Named(Device, DevicesOf(events, c))
    + Named(Ip, AddressesOf(events, c)) + Named(Merchant, MerchantsOf(events, c))
  }

  lemma {:induction false} UsedIsLinked(events: seq<PaymentEvent>, c: string, y: Node)
    ensures y in Used(events, c) <==> y in Neighbors(events, Node(Customer, c))
  {
    LinkedFacts(events, Node(Customer, c), y);
  }

  lemma {:induction false} CustomerDegree(events: seq<PaymentEvent>, c: string)
    ensures |Neighbors(events, Node(Customer, c))|
            == |CardsOf(events, c)| + |DevicesOf(events, c)| + |AddressesOf(events, c)| + |MerchantsOf(events, c)|
  {
    FiveKinds({}, CardsOf(events, c), DevicesOf(events, c), AddressesOf(events, c), MerchantsOf(events, c));
    assert Used(events, c) == Neighbors(events, Node(Customer, c)) by {
      forall y
        ensures y in Used(events, c) <==> y in Neighbors(events, Node(Customer, c))
      {
        UsedIsLinked(events, c, y);
      }
    }
  }

  /** The largest of five numbers. */
  predicate LargestOf(m: nat, a: nat, b: nat, c: nat, d: nat, f: nat) {
    m >= a && m >= b && m >= c && m >= d && m >= f && (m == a || m == b || m == c || m == d || m == f)
  }

  lemma {:induction false} MaxOfFive(events: seq<PaymentEvent>, ns: seq<Node>)
    requires |ns| == 5
    ensures LargestOf(MaxDegree(events, ns), |Neighbors(events, ns[0])|, |Neighbors(events, ns[1])|, |Neighbors(events, ns[2])|,
                      |Neighbors(events, ns[3])|, |Neighbors(events, ns[4])|)
  {
    var m := MaxDegree(events, ns);
    var n :| n in ns && |Neighbors(events, n)| == m;
    assert n == ns[0] || n == ns[1] || n == ns[2] || n == ns[3] || n == ns[4];
  }

  lemma {:induction false} FiveDegrees(ins: seq<PaymentEvent>, e: PaymentEvent)
    ensures var ns, c := EventNodes(e), e.customerId;
            && |Neighbors(ins, ns[0])| == |CardsOf(ins, c)| + |DevicesOf(ins, c)| + |AddressesOf(ins, c)| + |MerchantsOf(ins, c)|
            && |Neighbors(ins, ns[1])| == |CardCustomers(ins, e.cardId)| && |Neighbors(ins, ns[2])| == |DeviceCustomers(ins, e.deviceId)|
            && |Neighbors(ins, ns[3])| == |AddressCustomers(ins, e.ipAddress)|
            && |Neighbors(ins, ns[4])| == |MerchantCustomers(ins, e.merchantId)|
  {
    CustomerDegree(ins, e.customerId);
    EntityDegree(ins, CardNode(e));
    EntityDegree(ins, DeviceNode(e));
    EntityDegree(ins, IpNode(e));
    EntityDegree(ins, MerchantNode(e));
    SharersByField(ins, e);
  }

  /** The largest degree: of the customer, over the entities it used, and of the four entities,
      over their customers. */
  lemma {:induction false} DegreeFeature(ins: seq<PaymentEvent>, conf: seq<PaymentEvent>, e: PaymentEvent)
    ensures var c := e.customerId;
            LargestOf(PointInTime(ins, conf, e).maxEntityDegree,
                      |CardsOf(ins, c)| + |DevicesOf(ins, c)| + |AddressesOf(ins, c)| + |MerchantsOf(ins, c)|,
                      |CardCustomers(ins, e.cardId)|, |DeviceCustomers(ins, e.deviceId)|,
                      |AddressCustomers(ins, e.ipAddress)|, |MerchantCustomers(ins, e.merchantId)|)
  {
    FiveDegrees(ins, e);
    MaxOfFive(ins, EventNodes(e));
  }

  // ----- payments that hang together -----

  /** Two payments have a customer, card, device, address or merchant in common. */
  predicate Share(a: PaymentEvent, b: PaymentEvent) {
    || a.customerId == b.customerId || a.cardId == b.cardId || a.deviceId == b.deviceId
    || a.ipAddress == b.ipAddress || a.merchantId == b.merchantId
  }

  lemma {:induction false} ShareIsCommonNode(a: PaymentEvent, b: PaymentEvent)
    ensures Share(a, b) <==> exists n :: n in NodeSet(a) && n in NodeSet(b)
  {
    if Share(a, b) {
      assert CustomerNode(a) in NodeSet(a) && CardNode(a) in NodeSet(a) && DeviceNode(a) in NodeSet(a)
             && IpNode(a) in NodeSet(a) && MerchantNode(a) in NodeSet(a);
    }
  }

  /** A chain of payments, each sharing something with the next; all but the first are in `events`. */
  ghost predicate Chain(events: seq<PaymentEvent>, c: seq<PaymentEvent>) {
    |c| >= 2 && forall i | 0 < i < |c| :: c[i] in events && Share(c[i - 1], c[i])
  }

  /** `f` hangs together with the candidate `e`. */
  ghost predicate Related(events: seq<PaymentEvent>, e: PaymentEvent, f: PaymentEvent) {
    exists c :: Chain(events, c) && c[0] == e && c[|c| - 1] == f
  }

  lemma {:induction false} RelatedDirectly(events: seq<PaymentEvent>, e: PaymentEvent, f: PaymentEvent)
    requires f in events && Share(e, f)
    ensures Related(events, e, f)
  {
    assert Chain(events, [e, f]) && [e, f][0] == e;
  }

  lemma {:induction false} RelatedFurther(events: seq<PaymentEvent>, e: PaymentEvent, f: PaymentEvent, g: PaymentEvent)
    requires Related(events, e, f) && g in events && Share(f, g)
    ensures Related(events, e, g)
  {
    var c :| Chain(events, c) && c[0] == e && c[|c| - 1] == f;
    var d := c + [g];
    assert Chain(events, d) && d[0] == e && d[|d| - 1] == g;
  }

  ghost predicate Reached(events: seq<PaymentEvent>, e: PaymentEvent, y: Node) {
    exists f :: f in events && Related(events, e, f) && y in NodeSet(f)
  }

  /** One more edge stays within the payments that hang together with `e`. */
  lemma {:induction false} EdgeStaysRelated(events: seq<PaymentEvent>, e: PaymentEvent, x: Node, y: Node)
    requires Linked(events, x, y) && (x in NodeSet(e) || Reached(events, e, x))
    ensures Reached(events, e, y)
  {
    LinkedFacts(events, x, y);
    var g :| g in events && Joins(g, x, y);
    if x in NodeSet(e) {
      ShareIsCommonNode(e, g);
      RelatedDirectly(events, e, g);
    } else {
      var f :| f in events && Related(events, e, f) && x in NodeSet(f);
      ShareIsCommonNode(f, g);
      RelatedFurther(events, e, f, g);
    }
  }

  lemma {:induction false} PathStaysRelated(events: seq<PaymentEvent>, e: PaymentEvent, x: Node, y: Node)
    requires x in NodeSet(e) && Connected(events, x, y)
    ensures y in NodeSet(e) || Reached(events, e, y)
  {
    var p :| Path(events, p) && p[0] == x && p[|p| - 1] == y;
    for i := 0 to |p| - 1
      invariant p[i] in NodeSet(e) || Reached(events, e, p[i])
    {
      assert Linked(events, p[i], p[i + 1]);
      EdgeStaysRelated(events, e, p[i], p[i + 1]);
    }
  }

  /** The entities of one inserted payment are connected. */
  lemma {:induction false} OnePaymentConnects(events: seq<PaymentEvent>, f: PaymentEvent, x: Node, y: Node)
    requires f in events && x in NodeSet(f) && y in NodeSet(f)
    ensures Connected(events, x, y)
  {
    ToCustomer(events, f, x);
    ToCustomer(events, f, y);
    ConnectedSymmetric(events, y, CustomerNode(f));
    ConnectedTransitive(events, x, CustomerNode(f), y);
  }

  lemma {:induction false} ToCustomer(events: seq<PaymentEvent>, f: PaymentEvent, x: Node)
    requires f in events && x in NodeSet(f)
    ensures Connected(events, x, CustomerNode(f))
  {
    if x == CustomerNode(f) {
      ConnectedSelf(events, x);
    } else {
      assert Joins(f, x, CustomerNode(f));
      LinkedFacts(events, x, CustomerNode(f));
      ConnectedLink(events, x, CustomerNode(f));
    }
  }

  /** Every entity of a payment related to `e` is connected to an entity of `e`. */
  lemma {:induction false} ChainConnects(events: seq<PaymentEvent>, c: seq<PaymentEvent>, k: nat, y: Node) returns (n: Node)
    requires Chain(events, c) && 0 < k < |c| && y in NodeSet(c[k])
    ensures n in NodeSet(c[0]) && Connected(events, n, y)
  {
    ShareIsCommonNode(c[k - 1], c[k]);
    var m :| m in NodeSet(c[k - 1]) && m in NodeSet(c[k]);
    OnePaymentConnects(events, c[k], m, y);
    if k == 1 {
      n := m;
    } else {
      n := ChainConnects(events, c, k - 1, m);
      ConnectedTransitive(events, n, m, y);
    }
  }

  /** What the graph touches is what the related payments involve. */
  lemma {:induction false} TouchedIsReached(events: seq<PaymentEvent>, e: PaymentEvent, y: Node)
    ensures y in Touched(events, e) <==> Reached(events, e, y)
  {
    if y in Touched(events, e) {
      var n :| n in NodeSet(e) && Connected(events, n, y);
      PathStaysRelated(events, e, n, y);
      if y in NodeSet(e) {
        NodeOfSomeEvent(events, y);
        var f :| f in events && y in NodeSet(f);
        ShareIsCommonNode(e, f);
        RelatedDirectly(events, e, f);
      }
    }
    if Reached(events, e, y) {
      var f :| f in events && Related(events, e, f) && y in NodeSet(f);
      EventNodesIncluded(events, f);
      var c :| Chain(events, c) && c[0] == e && c[|c| - 1] == f;
      var n := ChainConnects(events, c, |c| - 1, y);
    }
  }

  lemma {:induction false} NodeOfSomeEvent(events: seq<PaymentEvent>, y: Node)
    requires y in Nodes(events)
    ensures exists f :: f in events && y in NodeSet(f)
  {
    if y in NodeSet(events[|events| - 1]) {
      assert events[|events| - 1] in events;
    } else {
      NodeOfSomeEvent(events[..|events| - 1], y);
      var f :| f in events[..|events| - 1] && y in NodeSet(f);
      assert f in events;
    }
  }

  /** Customers of two inserted payments are in one component exactly when the payments hang together. */
  lemma {:induction false} ComponentsAreGroups(events: seq<PaymentEvent>, e: PaymentEvent, f: PaymentEvent)
    requires e in events && f in events
    ensures Connected(events, Node(Customer, e.customerId), Node(Customer, f.customerId)) <==> Related(events, e, f)
  {
    var x, y := CustomerNode(e), CustomerNode(f);
    EventNodesIncluded(events, f);
    if Connected(events, x, y) {
      TouchedIsReached(events, e, y);
      var g :| g in events && Related(events, e, g) && y in NodeSet(g);
      ShareIsCommonNode(g, f);
      RelatedFurther(events, e, g, f);
    }
    if Related(events, e, f) {
      var c :| Chain(events, c) && c[0] == e && c[|c| - 1] == f;
      var n := ChainConnects(events, c, |c| - 1, y);
      OnePaymentConnects(events, e, x, n);
      ConnectedTransitive(events, x, n, y);
    }
  }

  // ----- the group of a candidate -----

  ghost function Group(events: seq<PaymentEvent>, e: PaymentEvent): set<PaymentEvent> {
    set f | f in events && Related(events, e, f)
  }

  /** The number of distinct customers, cards, devices, addresses and merchants among payments. */
  function Distinct(fs: set<PaymentEvent>): nat {
    |set f | f in fs :: f.customerId| + |set f | f in fs :: f.cardId| + |set f | f in fs :: f.deviceId|
    + |set f | f in fs :: f.ipAddress| + |set f | f in fs :: f.merchantId|
  }

  /** The entities of a set of payments. */
  function Entities(fs: set<PaymentEvent>): set<Node> {
    Named(Customer, set f | f in fs :: f.customerId) + Named(Card, set f | f in fs :: f.cardId)
    + Named(Device, set f | f in fs :: f.deviceId) + Named(Ip, set f | f in fs :: f.ipAddress)
    + Named(Merchant, set f | f in fs :: f.merchantId)
  }

  lemma {:induction false} EntitiesCounted(fs: set<PaymentEvent>)
    ensures |Entities(fs)| == Distinct(fs)
  {
    FiveKinds(set f | f in fs :: f.customerId, set f | f in fs :: f.cardId, set f | f in fs :: f.deviceId,
              set f | f in fs :: f.ipAddress, set f | f in fs :: f.merchantId);
  }

  lemma {:induction false} OwnEntity(fs: set<PaymentEvent>, f: PaymentEvent, y: Node)
    requires f in fs && y in NodeSet(f)
    ensures y in Entities(fs)
  {
    NodeByField(f, y.identifier);
  }

  lemma {:induction false} EntityOwner(fs: set<PaymentEvent>, y: Node) returns (f: PaymentEvent)
    requires y in Entities(fs)
    ensures f in fs && y in NodeSet(f)
  {
    match y.kind {
      case Customer => f :| f in fs && f.customerId == y.identifier;
      case Card => f :| f in fs && f.cardId == y.identifier;
      case Device => f :| f in fs && f.deviceId == y.identifier;
      case Ip => f :| f in fs && f.ipAddress == y.identifier;
      case Merchant => f :| f in fs && f.merchantId == y.identifier;
    }
    NodeByField(f, y.identifier);
  }

  lemma {:induction false} NeighborhoodByField(ins: seq<PaymentEvent>, e: PaymentEvent, y: Node)
    ensures y in Neighborhood(ins, e) <==> y in Entities(Group(ins, e) + {e})
  {
    var fs := Group(ins, e) + {e};
    TouchedIsReached(ins, e, y);
    if y in NodeSet(e) {
      OwnEntity(fs, e, y);
    } else if Reached(ins, e, y) {
      var f :| f in ins && Related(ins, e, f) && y in NodeSet(f);
      OwnEntity(fs, f, y);
    }
    if y in Entities(fs) {
      var f := EntityOwner(fs, y);
    }
  }

  /** The component size read before insertion: the distinct entities of the candidate and of the
      payments that hang together with it. */
  lemma {:induction false} SizeFeature(ins: seq<PaymentEvent>, conf: seq<PaymentEvent>, e: PaymentEvent)
    ensures PointInTime(ins, conf, e).suspiciousComponentSize == Distinct(Group(ins, e) + {e})
  {
    SameEntities(ins, e);
    EntitiesCounted(Group(ins, e) + {e});
  }

  lemma {:induction false} SameEntities(ins: seq<PaymentEvent>, e: PaymentEvent)
    ensures Neighborhood(ins, e) == Entities(Group(ins, e) + {e})
  {
    forall y
      ensures y in Neighborhood(ins, e) <==> y in Entities(Group(ins, e) + {e})
    {
      NeighborhoodByField(ins, e, y);
    }
  }

  /** How many of the listed payments are in a set of payments. */
  function In(events: seq<PaymentEvent>, fs: set<PaymentEvent>): set<int> {
    set i | 0 <= i < |events| && events[i] in fs
  }

  lemma {:induction false} FiveMore(events: seq<PaymentEvent>, s: set<Node>, whole: bool)
    requires events != []
    requires var last := events[|events| - 1]; if whole then NodeSet(last) <= s else NodeSet(last) !! s
    ensures var before := events[..|events| - 1];
            Total(s, CountMap(events, s)) == Total(s, CountMap(before, s)) + if whole then 5 else 0
  {
    var before, last := events[..|events| - 1], events[|events| - 1];
    if whole {
      EventNodesDistinct(last);
      TotalRaised(s, NodeSet(last), CountMap(before, s), CountMap(events, s));
    } else {
      TotalSame(s, CountMap(before, s), CountMap(events, s));
    }
  }

  lemma {:induction false} OneMoreIn(events: seq<PaymentEvent>, fs: set<PaymentEvent>)
    requires events != []
    ensures |In(events, fs)| == |In(events[..|events| - 1], fs)| + if events[|events| - 1] in fs then 1 else 0
  {
    var before, k := events[..|events| - 1], |events| - 1;
    assert In(events, fs) == In(before, fs) + if events[k] in fs then {k} else {};
  }

  /** Each payment counts at five entities of the set, or at none. */
  lemma {:induction false} FiveEach(events: seq<PaymentEvent>, s: set<Node>, fs: set<PaymentEvent>)
    requires forall f | f in events :: if f in fs then NodeSet(f) <= s else NodeSet(f) !! s
    ensures Total(s, CountMap(events, s)) == 5 * |In(events, fs)|
  {
    if events == [] {
      TotalZero(s, CountMap(events, s));
    } else {
      var last := events[|events| - 1];
      assert last in events;
      FiveEach(events[..|events| - 1], s, fs);
      FiveMore(events, s, last in fs);
      OneMoreIn(events, fs);
    }
  }

  lemma {:induction false} GroupOwnsItsEntities(ins: seq<PaymentEvent>, e: PaymentEvent, f: PaymentEvent)
    requires f in ins
    ensures if f in Group(ins, e) then NodeSet(f) <= Touched(ins, e) else NodeSet(f) !! Touched(ins, e)
  {
    forall y | y in NodeSet(f)
      ensures y in Touched(ins, e) <==> f in Group(ins, e)
    {
      TouchedIsReached(ins, e, y);
      if Reached(ins, e, y) {
        var g :| g in ins && Related(ins, e, g) && y in NodeSet(g);
        ShareIsCommonNode(g, f);
        RelatedFurther(ins, e, g, f);
      }
    }
  }

  lemma {:induction false} FiveCancel(c: nat, n: nat)
    requires c == 0 || n > 0
    ensures Ratio(5 * c, 5 * n) == c as real / (if n > 1 then n else 1) as real
  {
    if n > 0 {
      assert (5 * c) as real / (5 * n) as real == c as real / n as real;
    }
  }

  lemma {:induction false} Included(conf: seq<PaymentEvent>, ins: seq<PaymentEvent>, f: PaymentEvent)
    requires multiset(conf) <= multiset(ins) && f in conf
    ensures f in ins
  {
    assert multiset(conf)[f] <= multiset(ins)[f];
    assert f in multiset(conf);
  }

  lemma {:induction false} NoneWithout(conf: seq<PaymentEvent>, ins: seq<PaymentEvent>, fs: set<PaymentEvent>)
    requires multiset(conf) <= multiset(ins) && In(conf, fs) != {}
    ensures In(ins, fs) != {}
  {
    var i :| i in In(conf, fs);
    Included(conf, ins, conf[i]);
    var j :| 0 <= j < |ins| && ins[j] == conf[i];
    assert j in In(ins, fs);
  }

  /** The neighborhood's fraud rate, counted entity by entity, is the share of the related payments
      that is confirmed. */
  lemma {:induction false} RateFeature(ins: seq<PaymentEvent>, conf: seq<PaymentEvent>, e: PaymentEvent)
    requires multiset(conf) <= multiset(ins)
    ensures var fs := Group(ins, e);
            var seen := |In(ins, fs)|;
            PointInTime(ins, conf, e).neighborhoodConfirmedFraudRate == |In(conf, fs)| as real / (if seen > 1 then seen else 1) as real
  {
    var fs, near := Group(ins, e), Touched(ins, e);
    forall f | f in ins
      ensures if f in fs then NodeSet(f) <= near else NodeSet(f) !! near
    {
      GroupOwnsItsEntities(ins, e, f);
    }
    forall f | f in conf
      ensures f in ins
    {
      Included(conf, ins, f);
    }
    FiveEach(ins, near, fs);
    FiveEach(conf, near, fs);
    if In(conf, fs) != {} {
      NoneWithout(conf, ins, fs);
    }
    FiveCancel(|In(conf, fs)|, |In(ins, fs)|);
  }

  /** Eight of the nine features, as facts about payment fields. */
  ghost predicate ReadOffFields(f: GraphFeatures, ins: seq<PaymentEvent>, conf: seq<PaymentEvent>, e: PaymentEvent) {
    var seen, c := |AtMerchant(ins, e.merchantId)|, e.customerId;
    && f.sharedDeviceCustomers == |DeviceCustomers(ins, e.deviceId)|
    && f.sharedIpCustomers == |AddressCustomers(ins, e.ipAddress)|
    && f.suspiciousComponentSize == Distinct(Group(ins, e) + {e})
    && f.merchantFraudConcentration == |AtMerchant(conf, e.merchantId)| as real / (if seen > 1 then seen else 1) as real
    && LargestOf(f.maxEntityDegree,
                 |CardsOf(ins, c)| + |DevicesOf(ins, c)| + |AddressesOf(ins, c)| + |MerchantsOf(ins, c)|,
                 |CardCustomers(ins, e.cardId)|, |DeviceCustomers(ins, e.deviceId)|,
                 |AddressCustomers(ins, e.ipAddress)|, |MerchantCustomers(ins, e.merchantId)|)
    && f.merchantCustomerCount == |MerchantCustomers(ins, e.merchantId)|
    && f.deviceObservations == |AtDevice(ins, e.deviceId)|
    && f.ipObservations == |AtAddress(ins, e.ipAddress)|
  }

  lemma {:induction false} PointInTimeReadsFields(ins: seq<PaymentEvent>, conf: seq<PaymentEvent>, e: PaymentEvent)
    ensures ReadOffFields(PointInTime(ins, conf, e), ins, conf, e)
  {
    EntityFeatures(ins, conf, e);
    SizeFeature(ins, conf, e);
    DegreeFeature(ins, conf, e);
  }

  /** They hold after any history, whenever its confirmations came. */
  lemma {:induction false} FeaturesReadFields(h: History, e: PaymentEvent)
    ensures ReadOffFields(FeaturesBefore(h, e), Inserted(h), Confirmations(h), e)
  {
    PointInTimeReadsFields(Inserted(h), Confirmations(h), e);
    OnlyTheRateIsHistorical(h, e);
    SameFields(FeaturesBefore(h, e), PointInTime(Inserted(h), Confirmations(h), e), Inserted(h), Confirmations(h), e);
  }

  lemma {:induction false} SameFields(f: GraphFeatures, g: GraphFeatures, ins: seq<PaymentEvent>, conf: seq<PaymentEvent>, e: PaymentEvent)
    requires f.(neighborhoodConfirmedFraudRate := 0.0) == g.(neighborhoodConfirmedFraudRate := 0.0) && ReadOffFields(g, ins, conf, e)
    ensures ReadOffFields(f, ins, conf, e)
  {
  }

  // ----- the exported ring -----

  /** A device or address is in the ring exactly when enough customers used it; cards and merchants
      never are. */
  lemma {:induction false} RingByField(events: seq<PaymentEvent>, minimum: int, id: string)
    ensures InRing(events, minimum, Node(Device, id)) <==>
            (exists f :: f in events && f.deviceId == id) && |DeviceCustomers(events, id)| >= minimum
    ensures InRing(events, minimum, Node(Ip, id)) <==>
            (exists f :: f in events && f.ipAddress == id) && |AddressCustomers(events, id)| >= minimum
    ensures !InRing(events, minimum, Node(Card, id)) && !InRing(events, minimum, Node(Merchant, id))
  {
    HubsByField(events, minimum, id);
  }

  /** A payment at a device or address that enough customers used. */
  predicate AtHub(events: seq<PaymentEvent>, minimum: int, f: PaymentEvent) {
    |DeviceCustomers(events, f.deviceId)| >= minimum || |AddressCustomers(events, f.ipAddress)| >= minimum
  }

  /** A customer is in the ring exactly when one of its payments is at such a device or address. */
  lemma {:induction false} RingCustomers(events: seq<PaymentEvent>, minimum: int, id: string)
    ensures InRing(events, minimum, Node(Customer, id)) <==> exists f :: f in events && f.customerId == id && AtHub(events, minimum, f)
  {
    if InRing(events, minimum, Node(Customer, id)) {
      var hub :| IsHub(events, minimum, hub) && id in Sharers(events, hub);
      var f :| f in events && hub in NodeSet(f) && f.customerId == id;
      HubsByField(events, minimum, hub.identifier);
      NodeByField(f, hub.identifier);
      assert AtHub(events, minimum, f);
    }
    if f :| f in events && f.customerId == id && AtHub(events, minimum, f) {
      HubsByField(events, minimum, f.deviceId);
      HubsByField(events, minimum, f.ipAddress);
      assert id in Sharers(events, Node(Device, f.deviceId)) && id in Sharers(events, Node(Ip, f.ipAddress));
    }
  }

  lemma {:induction false} HubsByField(events: seq<PaymentEvent>, minimum: int, id: string)
    ensures IsHub(events, minimum, Node(Device, id)) <==>
            (exists f :: f in events && f.deviceId == id) && |DeviceCustomers(events, id)| >= minimum
    ensures IsHub(events, minimum, Node(Ip, id)) <==>
            (exists f :: f in events && f.ipAddress == id) && |AddressCustomers(events, id)| >= minimum
  {
    KnownByField(events, Node(Device, id));
    KnownByField(events, Node(Ip, id));
    assert Sharers(events, Node(Device, id)) == DeviceCustomers(events, id);
    assert Sharers(events, Node(Ip, id)) == AddressCustomers(events, id);
  }

  lemma {:induction false} KnownByField(events: seq<PaymentEvent>, n: Node)
    ensures n in Nodes(events) <==> exists f :: f in events && n in NodeSet(f)
  {
    if n in Nodes(events) {
      NodeOfSomeEvent(events, n);
    }
    if f :| f in events && n in NodeSet(f) {
      EventNodesIncluded(events, f);
    }
  }

  /** The displayed confirmations of an entity are all of them, unless one came before the entity
      was first inserted. */
  lemma {:induction false} DisplayedIsCount(h: History, n: Node)
    requires ConfirmedOnlyOnceKnown(h, n)
    ensures Displayed(h, n) == |Involving(Confirmations(h), n)|
  {
    CountIsPositions(Confirmations(h), n);
    DisplayedCounts(h, n);
  }

  lemma {:induction false} DisplayedCounts(h: History, n: Node)
    requires ConfirmedOnlyOnceKnown(h, n)
    ensures Displayed(h, n) == Count(Confirmations(h), n)
  {
    if h != [] {
      var before, last := h[..|h| - 1], h[|h| - 1];
      SplitLast(h);
      KnownStep(before, last, n);
      DisplayedCounts(before, n);
      OneMoreOp(before, last, n);
      HistoryGrows(before, last);
      if last.Confirm? {
        OneMoreEvent(Confirmations(before), last.event, n);
      } else {
        assert Confirmations(before) + [] == Confirmations(before);
      }
    }
  }
}
