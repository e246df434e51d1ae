/** The online feature store: per-customer state that evicts as it reads. */
module FeatureStore {
  import opened Domain
  import opened Clock
  import opened TemporalSpec

  /** What a `CustomerState` object holds. */
  datatype Holding = Holding(rows: seq<Row>, running: Running)

  /** An accepted call on a customer's state: evict, then write unless the call is a peek. */
  function Called(h: Holding, e: PaymentEvent, update: bool): Holding {
    var kept := Drop(h.rows, Leading(h.rows, e.At() - DAY));
    if update then Holding(kept + [RowOf(e)], Include(h.running, e)) else Holding(kept, h.running)
  }

  class CustomerState {
    var transactions: seq<Row>
    var totalAmount: real
    var totalCount: nat
    var latitudeSum: real
    var longitudeSum: real
    var devices: set<string>
    var merchants: set<string>
    var lastEventTime: Option<int>

    ghost const owner: string

    constructor (ghost owner: string)
      ensures Held() == Holding([], RunningOf([])) && this.owner == owner
    {
      this.owner := owner;
      transactions, totalAmount, totalCount, latitudeSum, longitudeSum := [], 0.0, 0, 0.0, 0.0;
      devices, merchants, lastEventTime := {}, {}, None;
    }

    function Aggregates(): Running
      reads this
    {
      Running(totalAmount, totalCount, latitudeSum, longitudeSum, devices, merchants, lastEventTime)
    }

    function Held(): Holding
      reads this
    {
      Holding(transactions, Aggregates())
    }

    /** The eviction loop: rows before the cutoff leave from the front. */
    method Evict(cutoff: int)
      modifies `transactions
      ensures transactions == Drop(old(transactions), Leading(old(transactions), cutoff))
    {
      ghost var gone := 0;
      while transactions != [] && transactions[0].at < cutoff
        invariant gone <= |old(transactions)| && transactions == old(transactions)[gone..]
        invariant gone + Leading(transactions, cutoff) == Leading(old(transactions), cutoff)
        decreases |transactions|
      {
        transactions := transactions[1..];
        gone := gone + 1;
      }
    }

    /** The write half of `compute`. */
    method Append(e: PaymentEvent)
      modifies this
      ensures Held() == Holding(old(transactions) + [RowOf(e)], Include(old(Aggregates()), e))
    {
      transactions := transactions + [RowOf(e)];
      totalAmount := totalAmount + e.amount;
      totalCount := totalCount + 1;
      latitudeSum := latitudeSum + e.latitude;
      longitudeSum := longitudeSum + e.longitude;
      devices := devices + {e.deviceId};
      merchants := merchants + {e.merchantId};
      lastEventTime := Some(e.At());
    }

    /** An accepted call: evict, read the features, and write unless it is a peek. */
    method Accept(e: PaymentEvent, update: bool, distance: Distance) returns (features: TemporalFeatures)
      modifies this
      ensures Held() == Called(old(Held()), e, update)
      ensures features == Vector(e, Called(old(Held()), e, false).rows, old(Aggregates()), distance)
    {
      Evict(e.At() - DAY);
      features := Vector(e, transactions, Aggregates(), distance);
      if update {
        Append(e);
      }
    }
  }

  // ----- a customer's holding against the log -----

  /** The holding of a customer whose log is `past` and whose deque has advanced to `cursor`. */
  ghost predicate Tracks(h: Holding, past: seq<PaymentEvent>, cursor: Cursor) {
    && Chronological(past) && Reachable(past, cursor)
    && (h.running.last.Some? ==> h.running.last.value <= cursor.peak)
    && h == Holding(Drop(Rows(past), cursor.gone), RunningOf(past))
  }

  lemma EvictedRows(rows: seq<Row>, past: seq<PaymentEvent>, cursor: Cursor, now: int)
    requires Chronological(past) && cursor.gone <= |past| && rows == Drop(Rows(past), cursor.gone)
    ensures Drop(rows, Leading(rows, now - DAY)) == Drop(Rows(past), Advance(past, Some(cursor), now).gone)
  {
    EvictDeque(past, cursor.gone, now - DAY);
  }

  lemma EvictTracks(h: Holding, past: seq<PaymentEvent>, cursor: Cursor, e: PaymentEvent)
    requires Tracks(h, past, cursor)
    ensures Tracks(Called(h, e, false), past, Advance(past, Some(cursor), e.At()))
  {
    AdvanceReachable(past, cursor, e.At());
    EvictedRows(h.rows, past, cursor, e.At());
  }

  lemma CallTracks(h: Holding, past: seq<PaymentEvent>, cursor: Cursor, e: PaymentEvent)
    requires Tracks(h, past, cursor) && !Regresses(past, e)
    ensures Tracks(Called(h, e, true), past + [e], Advance(past, Some(cursor), e.At()))
  {
    EvictTracks(h, past, cursor, e);
    AppendTracks(Called(h, e, false), past, Advance(past, Some(cursor), e.At()), e);
  }

  lemma AppendTracks(h: Holding, past: seq<PaymentEvent>, cursor: Cursor, e: PaymentEvent)
    requires Tracks(h, past, cursor) && !Regresses(past, e) && e.At() <= cursor.peak
    ensures Tracks(Holding(h.rows + [RowOf(e)], Include(h.running, e)), past + [e], cursor)
  {
    ChronologicalGrows(past, e);
    DropGrows(past, e, cursor.gone);
    RunningGrows(past, e);
  }

  /** The holding of one customer, for the store's ghost tables. */
  ghost predicate TrackedAt(log: seq<PaymentEvent>, cursors: map<string, Cursor>, holdings: map<string, Holding>, c: string) {
    && (c in holdings <==> c in cursors)
    && (c in holdings ==> Tracks(holdings[c], Past(log, c), cursors[c]))
    && (c !in holdings ==> Past(log, c) == [])
  }

  ghost predicate AllTracked(log: seq<PaymentEvent>, cursors: map<string, Cursor>, holdings: map<string, Holding>) {
    forall c {:trigger TrackedAt(log, cursors, holdings, c)} :: TrackedAt(log, cursors, holdings, c)
  }

  function Logged(log: seq<PaymentEvent>, e: PaymentEvent, update: bool): seq<PaymentEvent> {
    if update then log + [e.Unlabeled()] else log
  }

  lemma CalledUnlabeled(h: Holding, e: PaymentEvent, update: bool)
    ensures Called(h, e, update) == Called(h, e.Unlabeled(), update)
  {
  }

  lemma {:induction false} OwnCallTracks(h: Holding, log: seq<PaymentEvent>, cursor: Cursor, e: PaymentEvent, update: bool)
    requires Tracks(h, Past(log, e.customerId), cursor) && !Regresses(Past(log, e.customerId), e)
    ensures Tracks(Called(h, e, update), Past(Logged(log, e, update), e.customerId),
                   Advance(Past(log, e.customerId), Some(cursor), e.At()))
  {
    if update {
      CalledUnlabeled(h, e, update);
      CallTracks(h, Past(log, e.customerId), cursor, e.Unlabeled());
      PastGrows(log, e.Unlabeled(), e.customerId);
    } else {
      EvictTracks(h, Past(log, e.customerId), cursor, e);
    }
  }

  /** An accepted call keeps every customer tracked, its own and the others. */
  lemma {:induction false} CallKeepsTracked(log: seq<PaymentEvent>, cursors: map<string, Cursor>, holdings: map<string, Holding>,
                         e: PaymentEvent, update: bool)
    requires AllTracked(log, cursors, holdings) && e.customerId in holdings && e.customerId in cursors
    requires !Regresses(Past(log, e.customerId), e)
    ensures AllTracked(Logged(log, e, update),
                       cursors[e.customerId := Advance(Past(log, e.customerId), Some(cursors[e.customerId]), e.At())],
                       holdings[e.customerId := Called(holdings[e.customerId], e, update)])
  {
    var c, now := e.customerId, Advance(Past(log, e.customerId), Some(cursors[e.customerId]), e.At());
    var log', cursors', holdings' := Logged(log, e, update), cursors[c := now], holdings[c := Called(holdings[c], e, update)];
    assert TrackedAt(log, cursors, holdings, c);
    OwnCallTracks(holdings[c], log, cursors[c], e, update);
    forall d
      ensures TrackedAt(log', cursors', holdings', d)
    {
      if d != c {
        assert TrackedAt(log, cursors, holdings, d);
        PastGrows(log, e.Unlabeled(), d);
      }
    }
  }

  lemma {:induction false} KnownLast(log: seq<PaymentEvent>, cursors: map<string, Cursor>, holdings: map<string, Holding>, c: string)
    requires AllTracked(log, cursors, holdings) && c in holdings
    ensures c in cursors && holdings[c].running.last == LastTime(Past(log, c))
  {
    assert TrackedAt(log, cursors, holdings, c);
    RunningMeaning(Past(log, c));
  }

  lemma NewCustomerTracked(log: seq<PaymentEvent>, cursors: map<string, Cursor>, holdings: map<string, Holding>, c: string, now: int)
    requires AllTracked(log, cursors, holdings) && c !in holdings
    ensures AllTracked(log, cursors[c := Cursor(0, now)], holdings[c := Holding([], RunningOf([]))])
  {
    var cursors', holdings' := cursors[c := Cursor(0, now)], holdings[c := Holding([], RunningOf([]))];
    forall d
      ensures TrackedAt(log, cursors', holdings', d)
    {
      assert TrackedAt(log, cursors, holdings, d);
    }
  }

  /** No peek ran ahead of the log: each customer's latest accepted call is its latest payment. */
  ghost predicate PeekFree(log: seq<PaymentEvent>, cursors: map<string, Cursor>) {
    forall c {:trigger PeekFreeAt(log, cursors, c)} :: PeekFreeAt(log, cursors, c)
  }

  ghost predicate PeekFreeAt(log: seq<PaymentEvent>, cursors: map<string, Cursor>, c: string) {
    c in cursors ==> LastTime(Past(log, c)) == Some(cursors[c].peak)
  }

  /** Without peeks every answer is the recomputation from the log, and logging keeps it so. */
  lemma {:induction false} PeekFreeCall(log: seq<PaymentEvent>, cursors: map<string, Cursor>, holdings: map<string, Holding>,
                     e: PaymentEvent, distance: Distance)
    requires AllTracked(log, cursors, holdings) && PeekFree(log, cursors) && !Regresses(Past(log, e.customerId), e)
    ensures var past, was := Past(log, e.customerId), if e.customerId in cursors then Some(cursors[e.customerId]) else None;
            && Answer(past, was, e, distance) == Accepted(FromScratch(past, e, distance))
            && PeekFree(log + [e.Unlabeled()], cursors[e.customerId := Advance(past, was, e.At())])
  {
    var c, past := e.customerId, Past(log, e.customerId);
    var was := if c in cursors then Some(cursors[c]) else None;
    var cursors' := cursors[c := Advance(past, was, e.At())];
    assert TrackedAt(log, cursors, holdings, c) && PeekFreeAt(log, cursors, c);
    InOrderIsExact(past, was, e, distance);
    forall d
      ensures PeekFreeAt(log + [e.Unlabeled()], cursors', d)
    {
      assert PeekFreeAt(log, cursors, d);
      PastGrows(log, e.Unlabeled(), d);
    }
  }

  class OnlineFeatureStore {
    const distance: Distance
    var states: map<string, CustomerState>

    ghost var owned: set<CustomerState>
    ghost var log: seq<PaymentEvent>
    ghost var cursors: map<string, Cursor>
    ghost var holdings: map<string, Holding>

    /** Each customer's state mirrors that customer's part of the log. */
    ghost predicate Valid()
      reads this, owned
    {
      && AllTracked(log, cursors, holdings)
      && (forall c {:trigger SyncedAt(c)} :: SyncedAt(c))
    }

    ghost predicate SyncedAt(c: string)
      reads this, owned
    {
      && (c in states <==> c in holdings)
      && (c in states ==> states[c] in owned && states[c].owner == c && states[c].Held() == holdings[c])
    }

    ghost function CursorOf(customer: string): Option<Cursor>
      reads this
    {
      if customer in cursors then Some(cursors[customer]) else None
    }

    constructor (distance: Distance)
      ensures Valid() && log == [] && cursors == map[] && owned == {} && this.distance == distance
    {
      this.distance := distance;
      states, owned, log, cursors, holdings := map[], {}, [], map[], map[];
    }

    /** The state of a customer, made on first use as the defaulting dictionary does. */
    method StateOf(customer: string, now: int) returns (state: CustomerState)
      requires Valid()
      modifies `states, `owned, `cursors, `holdings
      ensures Valid() && customer in states && state == states[customer] && customer in holdings
      ensures if customer in old(states) then states == old(states) && owned == old(owned) && cursors == old(cursors)
              else && fresh(state) && owned == old(owned) + {state}
                   && states == old(states)[customer := state] && cursors == old(cursors)[customer := Cursor(0, now)]
      ensures customer in cursors
      ensures Advance(Past(log, customer), Some(cursors[customer]), now) == Advance(Past(log, customer), old(CursorOf(customer)), now)
      ensures customer !in old(states) ==> Past(log, customer) == []
    {
      assert SyncedAt(customer) && TrackedAt(log, cursors, holdings, customer);
      if customer in states {
        state := states[customer];
      } else {
        state := new CustomerState(customer);
        NewCustomerTracked(log, cursors, holdings, customer, now);
        states, owned := states[customer := state], owned + {state};
        cursors, holdings := cursors[customer := Cursor(0, now)], holdings[customer := Holding([], RunningOf([]))];
        forall c
          ensures SyncedAt(c)
        {
          assert old(SyncedAt(c));
        }
      }
    }

    /** An accepted call, once the state exists. */
    method Serve(e: PaymentEvent, update: bool, state: CustomerState) returns (features: TemporalFeatures)
      requires Valid() && e.customerId in states && state == states[e.customerId] && e.customerId in cursors && e.customerId in holdings
      requires !Regresses(Past(log, e.customerId), e)
      modifies `cursors, `holdings, `log, state
      ensures Valid() && log == Logged(old(log), e, update)
      ensures cursors == old(cursors)[e.customerId := Advance(Past(old(log), e.customerId), Some(old(cursors[e.customerId])), e.At())]
      ensures features == VectorAfter(Past(old(log), e.customerId), cursors[e.customerId].gone, e, distance)
    {
      assert TrackedAt(log, cursors, holdings, e.customerId) && SyncedAt(e.customerId);
      CallKeepsTracked(log, cursors, holdings, e, update);
      EvictTracks(holdings[e.customerId], Past(log, e.customerId), cursors[e.customerId], e);
      features := state.Accept(e, update, distance);
      holdings := holdings[e.customerId := Called(holdings[e.customerId], e, update)];
      cursors := cursors[e.customerId := Advance(Past(log, e.customerId), Some(cursors[e.customerId]), e.At())];
      log := Logged(log, e, update);
      forall c
        ensures SyncedAt(c)
      {
        assert old(SyncedAt(c));
      }
    }

    /** Read before write. The answer is what the customer's log and cursor define. An accepted
        call advances the cursor, and logs the event unless it was a peek; a rejected one
        changes nothing. */
    method Compute(e: PaymentEvent, update: bool) returns (answer: Temporal)
      requires Valid()
      modifies `states, `owned, `cursors, `holdings, `log, owned
      ensures Valid() && fresh(owned - old(owned))
      ensures answer == Answer(Past(old(log), e.customerId), old(CursorOf(e.customerId)), e, distance)
      ensures answer.OutOfOrder? ==> log == old(log) && cursors == old(cursors)
      ensures answer.Accepted? ==> log == Logged(old(log), e, update)
      ensures answer.Accepted? ==>
        cursors == old(cursors)[e.customerId := Advance(Past(old(log), e.customerId), old(CursorOf(e.customerId)), e.At())]
    {
      var state := StateOf(e.customerId, e.At());
      KnownLast(log, cursors, holdings, e.customerId);
      assert SyncedAt(e.customerId);
      if state.lastEventTime.Some? && e.At() < state.lastEventTime.value {
        return OutOfOrder;
      }
      var features := Serve(e, update, state);
      answer := Accepted(features);
    }
  }
}
