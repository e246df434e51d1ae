/** The payment event and the small vocabularies around it. */
module Domain {
  import opened Clock

  datatype Option<+T> = None | Some(value: T)

  datatype AuthenticationMethod = ChipPin | Contactless | ThreeDs | Wallet | CardNotPresent

  datatype Decision = Approve | Review | Decline

  // ----- graph entities -----

  datatype Kind = Customer | Card | Device | Ip | Merchant {
    function Label(): string {
      match this
      case Customer => "customer"
      case Card => "card"
      case Device => "device"
      case Ip => "ip"
      case Merchant => "merchant"
    }
  }

  /** A graph node. The code names it by the text `kind:identifier`. */
  datatype Node = Node(kind: Kind, identifier: string) {
    function Name(): string {
      kind.Label() + (":" + identifier)
    }
  }

  predicate StartsWith(s: string, prefix: string) {
    prefix <= s
  }

  /** No identifier, however odd, gives two nodes one name. */
  lemma NodeNameInjective(m: Node, n: Node)
    requires m.Name() == n.Name()
    ensures m == n
  {
    var s, t := m.Name(), n.Name();
    assert s[0] == m.kind.Label()[0] && s[1] == m.kind.Label()[1];
    assert t[0] == n.kind.Label()[0] && t[1] == n.kind.Label()[1];
    assert m.kind == n.kind;
    assert s[|m.kind.Label()| + 1..] == m.identifier && t[|n.kind.Label()| + 1..] == n.identifier;
  }

  /** The name prefix `kind:` is a test of the kind. */
  lemma NamePrefixIsKind(n: Node, kind: Kind)
    ensures StartsWith(n.Name(), kind.Label() + ":") <==> n.kind == kind
  {
    var s, p := n.Name(), kind.Label() + ":";
    assert s[0] == n.kind.Label()[0] && s[1] == n.kind.Label()[1];
    assert p[0] == kind.Label()[0] && p[1] == kind.Label()[1];
    if n.kind == kind {
      assert s == p + n.identifier;
    }
  }

  datatype PaymentEvent = PaymentEvent(
    transactionId: string, traceId: string, eventTime: Instant,
    customerId: string, cardId: string, merchantId: string,
    amount: real, currency: string, country: string,
    ipAddress: string, deviceId: string, merchantCategory: string,
    authenticationMethod: AuthenticationMethod, authenticationSuccessful: bool,
    latitude: real, longitude: real,
    isFraud: Option<bool>, fraudPattern: Option<string>)
  {
    function At(): int {
      eventTime
    }

    /** The facts available at authorization time: the event without its labels. */
    function Unlabeled(): PaymentEvent {
      this.(isFraud := None, fraudPattern := None)
    }

    predicate Fraud() {
      isFraud == Some(true)
    }
  }

  function Unlabel(events: seq<PaymentEvent>): (bare: seq<PaymentEvent>)
    ensures |bare| == |events|
    ensures forall i | 0 <= i < |events| :: bare[i] == events[i].Unlabeled()
  {
    seq(|events|, i requires 0 <= i < |events| => events[i].Unlabeled())
  }
}
