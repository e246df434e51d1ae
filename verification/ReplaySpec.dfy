/** Point-in-time records: what offline replay must produce, event by event, with no state. */
module ReplaySpec {
  import opened Domain
  import opened EntityGraph
  import opened GraphTheorems
  import opened TemporalSpec
  import opened Sequences
  import Text

  /** What a model sees of a payment. */
  datatype Features = Features(temporal: TemporalFeatures, graph: GraphFeatures, graphScore: real)

  datatype FeatureRecord<F> = FeatureRecord(event: PaymentEvent, features: F, fraudLabel: nat)

  /** Features as a function of the bare events inserted so far, those confirmed as fraud, and
      the bare event being scored. */
  type Extractor<!F> = (seq<PaymentEvent>, seq<PaymentEvent>, PaymentEvent) -> F

  // ----- the sort key -----

  /** `(event_time, transaction_id)`, compared as a tuple. */
  predicate Precedes(a: PaymentEvent, b: PaymentEvent) {
    a.At() < b.At() || (a.At() == b.At() && Text.Less(a.transactionId, b.transactionId))
  }

  function InsertSorted(s: seq<PaymentEvent>, e: PaymentEvent): seq<PaymentEvent> {
    if s != [] && Precedes(e, s[|s| - 1]) then InsertSorted(s[..|s| - 1], e) + [s[|s| - 1]] else s + [e]
  }

  /** `sorted(events, key=...)`: stable, so events with equal keys keep their order. */
  function Sort(events: seq<PaymentEvent>): seq<PaymentEvent> {
    if events == [] then [] else InsertSorted(Sort(events[..|events| - 1]), events[|events| - 1])
  }

  /** No event precedes its predecessor. */
  predicate Ordered(s: seq<PaymentEvent>) {
    s == [] || (Ordered(s[..|s| - 1]) && (|s| > 1 ==> !Precedes(s[|s| - 1], s[|s| - 2])))
  }

  lemma PrecedesOneWay(a: PaymentEvent, b: PaymentEvent)
    requires Precedes(a, b)
    ensures !Precedes(b, a)
  {
    if Text.Less(a.transactionId, b.transactionId) && Text.Less(b.transactionId, a.transactionId) {
      Text.LessTransitive(a.transactionId, b.transactionId, a.transactionId);
      Text.LessIrreflexive(a.transactionId);
    }
  }

  lemma {:induction false} InsertSortedLast(s: seq<PaymentEvent>, e: PaymentEvent)
    ensures |InsertSorted(s, e)| == |s| + 1
    ensures InsertSorted(s, e)[|s|] == if s != [] && Precedes(e, s[|s| - 1]) then s[|s| - 1] else e
  {
    if s != [] && Precedes(e, s[|s| - 1]) {
      InsertSortedLast(s[..|s| - 1], e);
    }
  }

  lemma {:induction false} OrderedGrows(s: seq<PaymentEvent>, e: PaymentEvent)
    ensures Ordered(s + [e]) <==> Ordered(s) && (s != [] ==> !Precedes(e, s[|s| - 1]))
  {
    assert (s + [e])[..|s|] == s;
  }

  lemma {:induction false} InsertSortedOrdered(s: seq<PaymentEvent>, e: PaymentEvent)
    requires Ordered(s)
    ensures Ordered(InsertSorted(s, e))
  {
    if s != [] && Precedes(e, s[|s| - 1]) {
      var before, last := s[..|s| - 1], s[|s| - 1];
      InsertSortedOrdered(before, e);
      InsertSortedLast(before, e);
      PrecedesOneWay(e, last);
      OrderedGrows(InsertSorted(before, e), last);
    } else {
      OrderedGrows(s, e);
    }
  }

  lemma {:induction false} InsertSortedKeeps(s: seq<PaymentEvent>, e: PaymentEvent)
    ensures multiset(InsertSorted(s, e)) == multiset(s) + multiset{e}
  {
    if s != [] && Precedes(e, s[|s| - 1]) {
      InsertSortedKeeps(s[..|s| - 1], e);
      LastCounted(s);
    }
  }

  /** The result is in key order. */
  lemma {:induction false} SortOrders(events: seq<PaymentEvent>)
    ensures Ordered(Sort(events))
  {
    if events != [] {
      SortOrders(events[..|events| - 1]);
      InsertSortedOrdered(Sort(events[..|events| - 1]), events[|events| - 1]);
    }
  }

  /** The result holds the same events. */
  lemma {:induction false} SortKeeps(events: seq<PaymentEvent>)
    ensures multiset(Sort(events)) == multiset(events)
  {
    if events != [] {
      SortKeeps(events[..|events| - 1]);
      InsertSortedKeeps(Sort(events[..|events| - 1]), events[|events| - 1]);
      LastCounted(events);
    }
  }

  lemma {:induction false} SortLength(events: seq<PaymentEvent>)
    ensures |Sort(events)| == |events|
  {
    if events != [] {
      SortLength(events[..|events| - 1]);
      InsertSortedLast(Sort(events[..|events| - 1]), events[|events| - 1]);
    }
  }

  lemma {:induction false} SortOfOrdered(s: seq<PaymentEvent>)
    requires Ordered(s)
    ensures Sort(s) == s
  {
    if s != [] {
      SortOfOrdered(s[..|s| - 1]);
      assert s == s[..|s| - 1] + [s[|s| - 1]];
    }
  }

  lemma {:induction false} OrderedPrefix(s: seq<PaymentEvent>, k: nat)
    requires Ordered(s) && k <= |s|
    ensures Ordered(s[..k])
  {
    if k < |s| {
      OrderedPrefix(s[..|s| - 1], k);
      assert s[..|s| - 1][..k] == s[..k];
    } else {
      assert s[..k] == s;
    }
  }

  lemma {:induction false} OrderedTimes(s: seq<PaymentEvent>, i: nat, j: nat)
    requires Ordered(s) && i <= j < |s|
    ensures s[i].At() <= s[j].At()
  {
    if i < j {
      OrderedPrefix(s, j + 1);
      var t := s[..j + 1];
      assert t[|t| - 1] == s[j] && t[|t| - 2] == s[j - 1];
      OrderedTimes(s, i, j - 1);
    }
  }

  // ----- labels known in time -----

  /** The events labelled fraud, in order. */
  function Frauds(s: seq<PaymentEvent>): seq<PaymentEvent> {
    if s == [] then [] else Frauds(s[..|s| - 1]) + if s[|s| - 1].Fraud() then [s[|s| - 1]] else []
  }

  /** Those whose label has arrived by `now`. */
  function Arrived(s: seq<PaymentEvent>, now: int, delay: int): seq<PaymentEvent> {
    if s == [] then [] else
      Arrived(s[..|s| - 1], now, delay) + if now - s[|s| - 1].At() >= delay then [s[|s| - 1]] else []
  }

  /** The confirmed set when an event at `now` is scored after `prior`: the earlier fraud events
      at least `delay` old. */
  function Due(prior: seq<PaymentEvent>, now: int, delay: int): seq<PaymentEvent> {
    Arrived(Frauds(prior), now, delay)
  }

  // ----- records -----

  /** The features of a bare event after the bare events `ins`, with `conf` confirmed: temporal
      ones recomputed from the customer's payments, graph ones from the entities of `ins`. */
  ghost function FeaturesFrom(ins: seq<PaymentEvent>, conf: seq<PaymentEvent>, e: PaymentEvent,
                              distance: Distance, sizeSignal: nat -> real): Features
  {
    var graph := PointInTime(ins, conf, e);
    Features(FromScratch(Past(ins, e.customerId), e, distance), graph, GraphScore(graph, sizeSignal))
  }

  ghost function EngineFeatures(distance: Distance, sizeSignal: nat -> real): Extractor<Features> {
    (ins, conf, e) => FeaturesFrom(ins, conf, e, distance, sizeSignal)
  }

  /** The record of `e` after `prior`: the facts of `prior` and the labels due by now. */
  function RecordOf<F>(prior: seq<PaymentEvent>, e: PaymentEvent, delay: int, f: Extractor<F>): FeatureRecord<F> {
    FeatureRecord(e, f(Unlabel(prior), Unlabel(Due(prior, e.At(), delay)), e.Unlabeled()), if e.Fraud() then 1 else 0)
  }

  /** Each event, seen with those before it. */
  function Scan<T>(s: seq<PaymentEvent>, f: (seq<PaymentEvent>, PaymentEvent) -> T): (r: seq<T>)
    ensures |r| == |s|
  {
    if s == [] then [] else Scan(s[..|s| - 1], f) + [f(s[..|s| - 1], s[|s| - 1])]
  }

  lemma {:induction false} ScanAt<T>(s: seq<PaymentEvent>, f: (seq<PaymentEvent>, PaymentEvent) -> T, i: nat)
    requires i < |s|
    ensures Scan(s, f)[i] == f(s[..i], s[i])
  {
    if i < |s| - 1 {
      ScanAt(s[..|s| - 1], f, i);
      assert s[..|s| - 1][..i] == s[..i];
    }
  }

  lemma {:induction false} ScanPrefix<T>(s: seq<PaymentEvent>, f: (seq<PaymentEvent>, PaymentEvent) -> T, k: nat)
    requires k <= |s|
    ensures Scan(s[..k], f) == Scan(s, f)[..k]
  {
    if k < |s| {
      ScanPrefix(s[..|s| - 1], f, k);
      assert s[..|s| - 1][..k] == s[..k];
    } else {
      assert s[..k] == s;
    }
  }

  function Recorder<F>(delay: int, f: Extractor<F>): (seq<PaymentEvent>, PaymentEvent) -> FeatureRecord<F> {
    (prior, e) => RecordOf(prior, e, delay, f)
  }

  function Records<F>(s: seq<PaymentEvent>, delay: int, f: Extractor<F>): (r: seq<FeatureRecord<F>>)
    ensures |r| == |s|
  {
    Scan(s, Recorder(delay, f))
  }

  /** The dataset of a list of events, in any order. */
  function Replay<F>(events: seq<PaymentEvent>, delay: int, f: Extractor<F>): seq<FeatureRecord<F>> {
    Records(Sort(events), delay, f)
  }

  function EventsOf<F>(records: seq<FeatureRecord<F>>): (events: seq<PaymentEvent>)
    ensures |events| == |records|
    ensures forall i | 0 <= i < |events| :: events[i] == records[i].event
  {
    seq(|records|, i requires 0 <= i < |records| => records[i].event)
  }

  /** The label of a record is one for a payment known to be fraud, and zero otherwise. */
  predicate Labelled<F>(r: FeatureRecord<F>) {
    r.fraudLabel == if r.event.isFraud == Some(true) then 1 else 0
  }

  predicate AllLabelled<F>(records: seq<FeatureRecord<F>>) {
    forall i | 0 <= i < |records| :: Labelled(records[i])
  }

  lemma {:induction false} RecordsLabelled<F>(s: seq<PaymentEvent>, delay: int, f: Extractor<F>)
    ensures AllLabelled(Records(s, delay, f))
    ensures EventsOf(Records(s, delay, f)) == s
  {
    forall i | 0 <= i < |s|
      ensures Records(s, delay, f)[i].event == s[i] && Labelled(Records(s, delay, f)[i])
    {
      ScanAt(s, Recorder(delay, f), i);
    }
  }

  /** A dataset holds the given events, each once, in key order, each with its own label. */
  lemma {:induction false} ReplayKeepsEvents<F>(events: seq<PaymentEvent>, delay: int, f: Extractor<F>)
    ensures var records := Replay(events, delay, f);
            && AllLabelled(records) && multiset(EventsOf(records)) == multiset(events) && Ordered(EventsOf(records))
  {
    SortKeeps(events);
    SortOrders(events);
    RecordsLabelled(Sort(events), delay, f);
  }

  // ----- what the key order means -----

  lemma {:induction false} NotLessTransitive(a: string, b: string, c: string)
    requires !Text.Less(b, a) && !Text.Less(c, b)
    ensures !Text.Less(c, a)
  {
    Text.LessTotal(a, b);
    Text.LessTotal(b, c);
    if Text.Less(c, a) {
      if a != b {
        Text.LessTransitive(c, a, b);
      }
    }
  }

  /** Between any two positions: earlier time first, and at one time the smaller transaction id first. */
  lemma {:induction false} OrderedByKey(s: seq<PaymentEvent>, i: nat, j: nat)
    requires Ordered(s) && i <= j < |s|
    ensures s[i].At() < s[j].At() || (s[i].At() == s[j].At() && !Text.Less(s[j].transactionId, s[i].transactionId))
  {
    if i == j {
      Text.LessIrreflexive(s[i].transactionId);
    } else {
      OrderedByKey(s, i, j - 1);
      OrderedPrefix(s, j + 1);
      var t := s[..j + 1];
      assert t[|t| - 1] == s[j] && t[|t| - 2] == s[j - 1];
      if s[i].At() == s[j].At() {
        NotLessTransitive(s[i].transactionId, s[j - 1].transactionId, s[j].transactionId);
      }
    }
  }

  /** The events with one key, in the order they are listed. */
  function WithKey(s: seq<PaymentEvent>, at: int, id: string): seq<PaymentEvent> {
    if s == [] then [] else
      var last := s[|s| - 1];
      WithKey(s[..|s| - 1], at, id) + if last.At() == at && last.transactionId == id then [last] else []
  }

  lemma {:induction false} InsertIsStable(s: seq<PaymentEvent>, e: PaymentEvent, at: int, id: string)
    ensures WithKey(InsertSorted(s, e), at, id) == WithKey(s, at, id) + if e.At() == at && e.transactionId == id then [e] else []
  {
    if s != [] && Precedes(e, s[|s| - 1]) {
      var before, last := s[..|s| - 1], s[|s| - 1];
      InsertIsStable(before, e, at, id);
      KeyGrows(InsertSorted(before, e), last, at, id);
      Text.LessIrreflexive(e.transactionId);
      if e.At() == at && e.transactionId == id {
        assert WithKey(s, at, id) == WithKey(before, at, id) + [];
        InAppended(WithKey(before, at, id), e, e);
        InAppended(WithKey(before, at, id) + [e], e, e);
      } else {
        InAppended(WithKey(before, at, id), e, e);
        InAppended(WithKey(s, at, id), e, e);
      }
    } else {
      KeyGrows(s, e, at, id);
    }
  }

  lemma {:induction false} KeyGrows(s: seq<PaymentEvent>, e: PaymentEvent, at: int, id: string)
    ensures WithKey(s + [e], at, id) == WithKey(s, at, id) + if e.At() == at && e.transactionId == id then [e] else []
  {
    assert (s + [e])[..|s|] == s;
  }

  /** Events with equal keys keep the order of the input. */
  lemma {:induction false} SortIsStable(events: seq<PaymentEvent>, at: int, id: string)
    ensures WithKey(Sort(events), at, id) == WithKey(events, at, id)
  {
    if events != [] {
      SortIsStable(events[..|events| - 1], at, id);
      InsertIsStable(Sort(events[..|events| - 1]), events[|events| - 1], at, id);
    }
  }

  // ----- which labels are known -----

  /** The payments known to be fraud at `now`: labelled so at least `delay` before. */
  function KnownFrauds(prior: seq<PaymentEvent>, now: int, delay: int): set<int> {
    set i | 0 <= i < |prior| && prior[i].isFraud == Some(true) && now - prior[i].At() >= delay
  }

  lemma {:induction false} KnownGrows(prior: seq<PaymentEvent>, now: int, delay: int)
    requires prior != []
    ensures var k := |prior| - 1;
            KnownFrauds(prior, now, delay) == KnownFrauds(prior[..k], now, delay)
                                              + if prior[k].isFraud == Some(true) && now - prior[k].At() >= delay then {k} else {}
  {
  }

  /** The confirmed set of an event: each of those payments, once. */
  lemma {:induction false} DueByLabel(prior: seq<PaymentEvent>, now: int, delay: int)
    ensures |Due(prior, now, delay)| == |KnownFrauds(prior, now, delay)|
    ensures forall p :: p in Due(prior, now, delay) <==> p in prior && p.isFraud == Some(true) && now - p.At() >= delay
  {
    if prior != [] {
      var before, last := prior[..|prior| - 1], prior[|prior| - 1];
      DueByLabel(before, now, delay);
      SplitLast(prior);
      DueGrows(before, last, now, delay);
      KnownGrows(prior, now, delay);
    }
  }

  lemma {:induction false} DueGrows(prior: seq<PaymentEvent>, e: PaymentEvent, now: int, delay: int)
    ensures Due(prior + [e], now, delay) == Due(prior, now, delay) + if e.isFraud == Some(true) && now - e.At() >= delay then [e] else []
  {
    assert (prior + [e])[..|prior|] == prior;
    var fs := Frauds(prior);
    assert (fs + [e])[..|fs|] == fs;
    InAppended(fs, e, e);
    InAppended(Arrived(fs, now, delay), e, e);
  }

  /** Dropping the labels drops the two label fields and nothing else. */
  lemma {:induction false} UnlabeledMeans(a: PaymentEvent, b: PaymentEvent)
    ensures a.Unlabeled() == b.Unlabeled() <==>
            && a.transactionId == b.transactionId && a.traceId == b.traceId && a.eventTime == b.eventTime
            && a.customerId == b.customerId && a.cardId == b.cardId && a.merchantId == b.merchantId
            && a.amount == b.amount && a.currency == b.currency && a.country == b.country
            && a.ipAddress == b.ipAddress && a.deviceId == b.deviceId && a.merchantCategory == b.merchantCategory
            && a.authenticationMethod == b.authenticationMethod && a.authenticationSuccessful == b.authenticationSuccessful
            && a.latitude == b.latitude && a.longitude == b.longitude
  {
  }

  // ----- no leakage -----

  lemma UnlabelPrefix(s: seq<PaymentEvent>, k: nat)
    requires k <= |s|
    ensures Unlabel(s[..k]) == Unlabel(s)[..k]
  {
  }

  lemma UnlabelGrows(s: seq<PaymentEvent>, e: PaymentEvent)
    ensures Unlabel(s + [e]) == Unlabel(s) + [e.Unlabeled()]
  {
  }

  /** In key order no payment precedes the last one of its customer. */
  lemma {:induction false} LastBefore(s: seq<PaymentEvent>, k: nat, i: nat)
    requires Ordered(s) && k <= i < |s|
    ensures !Regresses(Past(Unlabel(s[..k]), s[i].customerId), s[i])
  {
    if k > 0 {
      LastBefore(s, k - 1, i);
      OrderedTimes(s, k - 1, i);
      assert s[..k] == s[..k - 1] + [s[k - 1]];
      UnlabelGrows(s[..k - 1], s[k - 1]);
      PastGrows(Unlabel(s[..k - 1]), s[k - 1].Unlabeled(), s[i].customerId);
    }
  }

  /** The labels of two runs agree on every event old enough to have been confirmed by `now`. */
  ghost predicate SameKnownLabels(s: seq<PaymentEvent>, t: seq<PaymentEvent>, now: int, delay: int) {
    |s| == |t| && forall j | 0 <= j < |s| && s[j].Fraud() != t[j].Fraud() :: now - s[j].At() < delay
  }

  lemma {:induction false} DueFromKnownLabels(s: seq<PaymentEvent>, t: seq<PaymentEvent>, now: int, delay: int)
    requires Unlabel(s) == Unlabel(t) && SameKnownLabels(s, t, now, delay)
    ensures Unlabel(Due(s, now, delay)) == Unlabel(Due(t, now, delay))
  {
    if s != [] {
      var k := |s| - 1;
      UnlabelPrefix(s, k);
      UnlabelPrefix(t, k);
      DueFromKnownLabels(s[..k], t[..k], now, delay);
      assert s[k].Unlabeled() == Unlabel(s)[k] == t[k].Unlabeled();
      DueStep(s, now, delay);
      DueStep(t, now, delay);
    }
  }

  lemma DueStep(s: seq<PaymentEvent>, now: int, delay: int)
    requires s != []
    ensures var last, due := s[|s| - 1], Unlabel(Due(s[..|s| - 1], now, delay));
            Unlabel(Due(s, now, delay)) == if last.Fraud() && now - last.At() >= delay then due + [last.Unlabeled()] else due
  {
    var before, last := Frauds(s[..|s| - 1]), s[|s| - 1];
    if last.Fraud() {
      assert (before + [last])[..|before|] == before;
    } else {
      assert before + [] == before;
    }
    assert Arrived(before, now, delay) + [] == Arrived(before, now, delay);
  }

  /** Non-interference. Two runs over the same facts, whose labels differ only on events younger
      than the confirmation delay when event `i` is scored, give it the same features. */
  lemma NoLabelLeakage<F>(s: seq<PaymentEvent>, t: seq<PaymentEvent>, i: nat, delay: int, f: Extractor<F>)
    requires Unlabel(s) == Unlabel(t) && i < |s|
    requires SameKnownLabels(s[..i], t[..i], s[i].At(), delay)
    ensures |s| == |t|
    ensures Records(s, delay, f)[i].features == Records(t, delay, f)[i].features
  {
    ScanAt(s, Recorder(delay, f), i);
    ScanAt(t, Recorder(delay, f), i);
    assert s[i].Unlabeled() == Unlabel(s)[i] == t[i].Unlabeled();
    UnlabelPrefix(s, i);
    UnlabelPrefix(t, i);
    DueFromKnownLabels(s[..i], t[..i], s[i].At(), delay);
  }

  lemma {:induction false} InsertSortedUnlabeled(s: seq<PaymentEvent>, e: PaymentEvent)
    ensures Unlabel(InsertSorted(s, e)) == InsertSorted(Unlabel(s), e.Unlabeled())
  {
    var bare := Unlabel(s);
    if s != [] && Precedes(e, s[|s| - 1]) {
      var before := s[..|s| - 1];
      InsertSortedUnlabeled(before, e);
      UnlabelPrefix(s, |s| - 1);
      assert Precedes(e.Unlabeled(), bare[|s| - 1]);
      UnlabelGrows(InsertSorted(before, e), s[|s| - 1]);
    } else {
      assert s != [] ==> !Precedes(e.Unlabeled(), bare[|s| - 1]);
      UnlabelGrows(s, e);
    }
  }

  /** The order of replay does not depend on labels either. */
  lemma {:induction false} SortIgnoresLabels(events: seq<PaymentEvent>)
    ensures Unlabel(Sort(events)) == Sort(Unlabel(events))
  {
    if events != [] {
      var k := |events| - 1;
      SortIgnoresLabels(events[..k]);
      InsertSortedUnlabeled(Sort(events[..k]), events[k]);
      UnlabelPrefix(events, k);
      assert Unlabel(events)[k] == events[k].Unlabeled();
    }
  }

  lemma {:induction false} SameOrder(events: seq<PaymentEvent>, others: seq<PaymentEvent>)
    requires Unlabel(events) == Unlabel(others)
    ensures Unlabel(Sort(events)) == Unlabel(Sort(others)) && |Sort(events)| == |Sort(others)| == |events|
  {
    SortIgnoresLabels(events);
    SortIgnoresLabels(others);
    SortLength(events);
    SortLength(others);
  }

  lemma RecordedEvent<F>(s: seq<PaymentEvent>, i: nat, delay: int, f: Extractor<F>)
    requires i < |s|
    ensures Records(s, delay, f)[i].event == s[i]
  {
    ScanAt(s, Recorder(delay, f), i);
  }

  /** Non-interference of whole datasets: `i` counts in replay order, which both runs share. */
  lemma {:induction false} NoLeakageAcrossDatasets<F>(events: seq<PaymentEvent>, others: seq<PaymentEvent>, i: nat,
                                                        delay: int, f: Extractor<F>)
    requires Unlabel(events) == Unlabel(others) && i < |Sort(events)| && i < |Sort(others)|
    requires SameKnownLabels(Sort(events)[..i], Sort(others)[..i], Sort(events)[i].At(), delay)
    ensures Replay(events, delay, f)[i].event.Unlabeled() == Replay(others, delay, f)[i].event.Unlabeled()
    ensures Replay(events, delay, f)[i].features == Replay(others, delay, f)[i].features
  {
    var s, t := Sort(events), Sort(others);
    SameOrder(events, others);
    NoLabelLeakage(s, t, i, delay, f);
    RecordedEvent(s, i, delay, f);
    RecordedEvent(t, i, delay, f);
    assert s[i].Unlabeled() == Unlabel(s)[i] == Unlabel(t)[i] == t[i].Unlabeled();
  }

  /** No future leaks back: the first records are those of the first events replayed alone. */
  lemma {:induction false} PrefixReplay<F>(events: seq<PaymentEvent>, k: nat, delay: int, f: Extractor<F>)
    requires k <= |Sort(events)|
    ensures |Replay(events, delay, f)| >= k
    ensures Replay(Sort(events)[..k], delay, f) == Replay(events, delay, f)[..k]
  {
    var s := Sort(events);
    SortOrders(events);
    OrderedPrefix(s, k);
    SortOfOrdered(s[..k]);
    ScanPrefix(s, Recorder(delay, f), k);
  }

  // ----- confirmations never outrun observations -----

  lemma {:induction false} FraudsIncluded(s: seq<PaymentEvent>)
    ensures multiset(Unlabel(Frauds(s))) <= multiset(Unlabel(s))
  {
    if s != [] {
      var before, last := s[..|s| - 1], s[|s| - 1];
      FraudsIncluded(before);
      assert s == before + [last];
      UnlabelGrows(before, last);
      if last.Fraud() {
        UnlabelGrows(Frauds(before), last);
      } else {
        assert Frauds(s) == Frauds(before);
      }
    }
  }

  lemma {:induction false} ArrivedIncluded(s: seq<PaymentEvent>, now: int, delay: int)
    ensures multiset(Unlabel(Arrived(s, now, delay))) <= multiset(Unlabel(s))
  {
    if s != [] {
      var before, last := s[..|s| - 1], s[|s| - 1];
      ArrivedIncluded(before, now, delay);
      assert s == before + [last];
      UnlabelGrows(before, last);
      if now - last.At() >= delay {
        UnlabelGrows(Arrived(before, now, delay), last);
      } else {
        assert Arrived(s, now, delay) == Arrived(before, now, delay);
      }
    }
  }

  /** In every replayed record both fraud rates and the graph score lie in [0, 1]. */
  lemma RecordInUnit(prior: seq<PaymentEvent>, e: PaymentEvent, delay: int, distance: Distance, sizeSignal: nat -> real)
    requires forall n :: sizeSignal(n) >= 0.0
    ensures var r := RecordOf(prior, e, delay, EngineFeatures(distance, sizeSignal));
            && 0.0 <= r.features.graph.merchantFraudConcentration <= 1.0
            && 0.0 <= r.features.graph.neighborhoodConfirmedFraudRate <= 1.0
            && 0.0 <= r.features.graphScore <= 1.0 && r.features.graphScore == WeightedScore(r.features.graph, sizeSignal)
  {
    var ins, conf := Unlabel(prior), Unlabel(Due(prior, e.At(), delay));
    FraudsIncluded(prior);
    ArrivedIncluded(Frauds(prior), e.At(), delay);
    RatesInUnit(ins, conf, e.Unlabeled());
    ScoreInUnit(ins, conf, e.Unlabeled(), sizeSignal);
  }
}
