/** Offline replay through the same feature store and graph as online inference. */
module Dataset {
  import opened Domain
  import opened EntityGraph
  import opened GraphTheorems
  import opened FraudGraphs
  import opened TemporalSpec
  import opened FeatureStore
  import opened ReplaySpec
  import opened Sequences

  // ----- the label queue -----

  predicate AllDue(fs: seq<PaymentEvent>, now: int, delay: int) {
    fs == [] || (AllDue(fs[..|fs| - 1], now, delay) && now - fs[|fs| - 1].At() >= delay)
  }

  lemma {:induction false} AllDueGrows(fs: seq<PaymentEvent>, e: PaymentEvent, now: int, delay: int)
    ensures AllDue(fs + [e], now, delay) <==> AllDue(fs, now, delay) && now - e.At() >= delay
  {
    assert (fs + [e])[..|fs|] == fs;
  }

  /** What was due stays due. */
  lemma {:induction false} AllDueLater(fs: seq<PaymentEvent>, now: int, later: int, delay: int)
    requires AllDue(fs, now, delay) && now <= later
    ensures AllDue(fs, later, delay)
  {
    if fs != [] {
      AllDueLater(fs[..|fs| - 1], now, later, delay);
    }
  }

  lemma {:induction false} AllDueTogether(a: seq<PaymentEvent>, b: seq<PaymentEvent>, now: int, delay: int)
    requires AllDue(a, now, delay) && AllDue(b, now, delay)
    ensures AllDue(a + b, now, delay)
  {
    if b == [] {
      assert a + b == a;
    } else {
      var b', last := b[..|b| - 1], b[|b| - 1];
      AllDueTogether(a, b', now, delay);
      AllDueGrows(a + b', last, now, delay);
      assert a + b == a + b' + [last];
    }
  }

  lemma {:induction false} ArrivedSplits(a: seq<PaymentEvent>, b: seq<PaymentEvent>, now: int, delay: int)
    ensures Arrived(a + b, now, delay) == Arrived(a, now, delay) + Arrived(b, now, delay)
  {
    if b == [] {
      assert a + b == a;
    } else {
      ArrivedSplits(a, b[..|b| - 1], now, delay);
      PeelLast(a, b);
    }
  }

  lemma {:induction false} ArrivedAll(fs: seq<PaymentEvent>, now: int, delay: int)
    requires AllDue(fs, now, delay)
    ensures Arrived(fs, now, delay) == fs
  {
    if fs != [] {
      ArrivedAll(fs[..|fs| - 1], now, delay);
      assert fs == fs[..|fs| - 1] + [fs[|fs| - 1]];
    }
  }

  /** In a time-ordered queue, a head that is not due stands for the whole queue. */
  lemma {:induction false} ArrivedNone(fs: seq<PaymentEvent>, now: int, delay: int)
    requires Chronological(fs) && (fs != [] ==> now - fs[0].At() < delay)
    ensures Arrived(fs, now, delay) == []
  {
    if fs != [] {
      ChronologicalPairs(fs, 0, |fs| - 1);
      ArrivedNone(fs[..|fs| - 1], now, delay);
    }
  }

  lemma {:induction false} ChronologicalSuffix(fs: seq<PaymentEvent>, k: nat)
    requires Chronological(fs) && k <= |fs|
    ensures Chronological(fs[k..])
  {
    if k < |fs| {
      var before := fs[..|fs| - 1];
      ChronologicalSuffix(before, k);
      assert fs[k..] == before[k..] + [fs[|fs| - 1]];
      ChronologicalGrows(before[k..], fs[|fs| - 1]);
      if before[k..] != [] {
        assert before[k..][|before[k..]| - 1] == before[|before| - 1];
      }
    }
  }

  lemma {:induction false} FraudsAmong(s: seq<PaymentEvent>)
    ensures forall f | f in Frauds(s) :: f in s
  {
    if s != [] {
      FraudsAmong(s[..|s| - 1]);
    }
  }

  lemma {:induction false} OrderedBound(s: seq<PaymentEvent>, k: nat, e: PaymentEvent)
    requires Ordered(s) && k < |s| && e in s[..k]
    ensures e.At() <= s[k].At()
  {
    var i :| 0 <= i < k && s[i] == e;
    OrderedTimes(s, i, k);
  }

  lemma {:induction false} FraudsChronological(s: seq<PaymentEvent>)
    requires Ordered(s)
    ensures Chronological(Frauds(s))
  {
    if s != [] {
      var k := |s| - 1;
      FraudsChronological(s[..k]);
      FraudsAmong(s[..k]);
      var fs := Frauds(s[..k]);
      ChronologicalGrows(fs, s[k]);
      if fs != [] {
        OrderedBound(s, k, fs[|fs| - 1]);
      }
      if !s[k].Fraud() {
        assert Frauds(s) == fs;
      }
    }
  }

  /** Popping only due heads confirms exactly the fraud events that are due. */
  lemma {:induction false} PoppedIsDue(prior: seq<PaymentEvent>, confirmed: seq<PaymentEvent>, rest: seq<PaymentEvent>,
                                          now: int, delay: int)
    requires Ordered(prior) && Frauds(prior) == confirmed + rest
    requires AllDue(confirmed, now, delay) && (rest != [] ==> now - rest[0].At() < delay)
    ensures Due(prior, now, delay) == confirmed
  {
    FraudsChronological(prior);
    ChronologicalSuffix(Frauds(prior), |confirmed|);
    assert Frauds(prior)[|confirmed|..] == rest;
    ArrivedSplits(confirmed, rest, now, delay);
    ArrivedAll(confirmed, now, delay);
    ArrivedNone(rest, now, delay);
  }

  // ----- steps -----

  lemma {:induction false} GroundedInsert(h: History, e: PaymentEvent)
    requires Grounded(h)
    ensures Grounded(h + [Insert(e)])
  {
    HistoryGrows(h, Insert(e));
    assert Confirmations(h) + [] == Confirmations(h);
    GroundedGrows(h, Insert(e));
  }

  /** The queue can be confirmed to its end without outrunning the insertions. */
  ghost predicate Covered(h: History, pending: seq<PaymentEvent>) {
    multiset(Confirmations(h) + Unlabel(pending)) <= multiset(Inserted(h))
  }

  lemma UnlabelConcat(a: seq<PaymentEvent>, b: seq<PaymentEvent>)
    ensures Unlabel(a + b) == Unlabel(a) + Unlabel(b)
  {
  }

  lemma OneMoreConfirmed(base: seq<PaymentEvent>, done: seq<PaymentEvent>, e: PaymentEvent)
    ensures (base + Unlabel(done)) + [e.Unlabeled()] == base + Unlabel(done + [e])
  {
    UnlabelGrows(done, e);
    Associate(base, Unlabel(done), [e.Unlabeled()]);
  }

  /** The history after confirming the listed events. */
  function Confirming(h: History, done: seq<PaymentEvent>): History {
    if done == [] then h else Confirming(h, done[..|done| - 1]) + [Confirm(done[|done| - 1].Unlabeled())]
  }

  lemma {:induction false} ConfirmNext(h: History, done: seq<PaymentEvent>, e: PaymentEvent)
    ensures Confirming(h, done + [e]) == Confirming(h, done) + [Confirm(e.Unlabeled())]
  {
    assert (done + [e])[..|done|] == done;
  }

  lemma CoveredPrefix(h: History, done: seq<PaymentEvent>, rest: seq<PaymentEvent>)
    requires Covered(h, done + rest)
    ensures Covered(h, done)
  {
    UnlabelConcat(done, rest);
    Associate(Confirmations(h), Unlabel(done), Unlabel(rest));
    PrefixIncluded(Confirmations(h) + Unlabel(done), Unlabel(rest), multiset(Inserted(h)));
  }

  lemma {:induction false} ConfirmingAdds(h: History, done: seq<PaymentEvent>)
    ensures Inserted(Confirming(h, done)) == Inserted(h)
    ensures Confirmations(Confirming(h, done)) == Confirmations(h) + Unlabel(done)
  {
    if done != [] {
      var before, last := done[..|done| - 1], done[|done| - 1];
      ConfirmingAdds(h, before);
      HistoryGrows(Confirming(h, before), Confirm(last.Unlabeled()));
      OneMoreConfirmed(Confirmations(h), before, last);
      assert done == before + [last];
    }
  }

  lemma {:induction false} ConfirmingIsGrounded(h: History, done: seq<PaymentEvent>)
    requires Grounded(h) && Covered(h, done)
    ensures Grounded(Confirming(h, done))
  {
    if done != [] {
      var before, last := done[..|done| - 1], done[|done| - 1];
      SplitAt(done, |before|);
      CoveredPrefix(h, before, done[|before|..]);
      ConfirmingIsGrounded(h, before);
      ConfirmingAdds(h, done);
      GroundedGrows(Confirming(h, before), Confirm(last.Unlabeled()));
    }
  }

  /** How many events at the head of the queue are due. */
  function DueHeads(fs: seq<PaymentEvent>, now: int, delay: int): (k: nat)
    ensures k <= |fs|
  {
    if fs != [] && now - fs[0].At() >= delay then 1 + DueHeads(fs[1..], now, delay) else 0
  }

  lemma {:induction false} DueHeadsAreDue(fs: seq<PaymentEvent>, now: int, delay: int)
    ensures var k := DueHeads(fs, now, delay);
            AllDue(fs[..k], now, delay) && (k < |fs| ==> now - fs[k].At() < delay)
  {
    if fs != [] && now - fs[0].At() >= delay {
      var k := DueHeads(fs[1..], now, delay);
      DueHeadsAreDue(fs[1..], now, delay);
      HeadSlice(fs, k);
      AllDueTogether([fs[0]], fs[1..][..k], now, delay);
    }
  }

  /** The confirmation loop: pop and confirm while the head of the queue is due. */
  method ConfirmDue(graph: FraudGraph, pending: seq<PaymentEvent>, now: int, delay: int) returns (rest: seq<PaymentEvent>)
    requires graph.Valid()
    modifies graph
    ensures graph.Valid() && graph.history == Confirming(old(graph.history), pending[..DueHeads(pending, now, delay)])
    ensures rest == pending[DueHeads(pending, now, delay)..]
  {
    rest := pending;
    ghost var k := 0;
    while rest != [] && now - rest[0].At() >= delay
      invariant k <= |pending| && rest == pending[k..]
      invariant k + DueHeads(rest, now, delay) == DueHeads(pending, now, delay)
      invariant graph.Valid() && graph.history == Confirming(old(graph.history), pending[..k])
      decreases |rest|
    {
      RestSlice(pending, k);
      ConfirmNext(old(graph.history), pending[..k], rest[0]);
      graph.ConfirmFraud(rest[0]);
      rest, k := rest[1..], k + 1;
    }
  }

  lemma ScratchUnlabeled(past: seq<PaymentEvent>, e: PaymentEvent, distance: Distance)
    ensures FromScratch(past, e, distance) == FromScratch(past, e.Unlabeled(), distance)
  {
  }

  /** One payment through a feature store that no peek has disturbed: refused when it is before
      the customer's last one, else answered as if recomputed from the log. */
  method ObserveTemporal(store: OnlineFeatureStore, e: PaymentEvent) returns (answer: Temporal)
    requires store.Valid() && PeekFree(store.log, store.cursors)
    modifies store, store.owned
    ensures store.Valid() && PeekFree(store.log, store.cursors)
    ensures fresh(store.owned - old(store.owned))
    ensures var past := Past(old(store.log), e.customerId);
            if Regresses(past, e) then answer == OutOfOrder && store.log == old(store.log)
            else answer == Accepted(FromScratch(past, e, store.distance)) && store.log == old(store.log) + [e.Unlabeled()]
  {
    if !Regresses(Past(store.log, e.customerId), e) {
      PeekFreeCall(store.log, store.cursors, store.holdings, e, store.distance);
    }
    answer := store.Compute(e, true);
  }

  /** One payment through both stores, read before write. */
  method Observe(store: OnlineFeatureStore, graph: FraudGraph, e: PaymentEvent) returns (features: Features)
    requires store.Valid() && graph.Valid() && PeekFree(store.log, store.cursors)
    requires !Regresses(Past(store.log, e.customerId), e)
    modifies store, store.owned, graph
    ensures store.Valid() && graph.Valid() && PeekFree(store.log, store.cursors)
    ensures fresh(store.owned - old(store.owned))
    ensures store.log == old(store.log) + [e.Unlabeled()]
    ensures graph.history == old(graph.history) + [Insert(e.Unlabeled())]
    ensures features == FeaturesNow(old(store.log), old(graph.history), e, store.distance, graph.sizeSignal)
  {
    var temporal := ObserveTemporal(store, e);
    var snapshot := graph.Compute(e, true);
    features := Features(temporal.features, snapshot.features, snapshot.graphScore);
  }

  /** What the two stores answer, from the log of one and the history of the other. */
  ghost function FeaturesNow(log: seq<PaymentEvent>, h: History, e: PaymentEvent, distance: Distance, sizeSignal: nat -> real): Features {
    var graph := SnapshotBefore(h, e, sizeSignal);
    Features(FromScratch(Past(log, e.customerId), e, distance), graph.features, graph.graphScore)
  }

  lemma {:induction false} GroundedFeaturesNow(h: History, e: PaymentEvent, distance: Distance, sizeSignal: nat -> real)
    requires Grounded(h)
    ensures FeaturesNow(Inserted(h), h, e, distance, sizeSignal) ==
            FeaturesFrom(Inserted(h), Confirmations(h), e.Unlabeled(), distance, sizeSignal)
  {
    GroundedFeatures(h, e.Unlabeled());
    BareFeatures(h, e);
    ScratchUnlabeled(Past(Inserted(h), e.customerId), e, distance);
  }

  lemma BareFeatures(h: History, e: PaymentEvent)
    ensures FeaturesBefore(h, e) == FeaturesBefore(h, e.Unlabeled())
  {
    assert NodeSet(e) == NodeSet(e.Unlabeled()) && EventNodes(e) == EventNodes(e.Unlabeled());
    assert Touched(Inserted(h), e) == Touched(Inserted(h), e.Unlabeled());
  }

  /** The history holds the facts of `prior`; the confirmed and the queued frauds together are
      those of `prior`, in order. */
  ghost predicate InReplay(h: History, prior: seq<PaymentEvent>, confirmed: seq<PaymentEvent>, pending: seq<PaymentEvent>) {
    && Inserted(h) == Unlabel(prior) && Grounded(h)
    && Confirmations(h) == Unlabel(confirmed) && Frauds(prior) == confirmed + pending
  }

  lemma {:induction false} QueueCovered(h: History, prior: seq<PaymentEvent>, confirmed: seq<PaymentEvent>, pending: seq<PaymentEvent>)
    requires Inserted(h) == Unlabel(prior) && Confirmations(h) == Unlabel(confirmed) && Frauds(prior) == confirmed + pending
    ensures Covered(h, pending)
  {
    FraudsIncluded(prior);
    UnlabelConcat(confirmed, pending);
  }

  lemma NextPrefix(s: seq<PaymentEvent>, i: nat, confirmed: seq<PaymentEvent>, pending: seq<PaymentEvent>)
    requires i < |s| && Frauds(s[..i]) == confirmed + pending
    ensures Unlabel(s[..i + 1]) == Unlabel(s[..i]) + [s[i].Unlabeled()]
    ensures Frauds(s[..i + 1]) == confirmed + if s[i].Fraud() then pending + [s[i]] else pending
  {
    assert s[..i + 1] == s[..i] + [s[i]] && s[..i + 1][..i] == s[..i];
    UnlabelGrows(s[..i], s[i]);
    Associate(confirmed, pending, [s[i]]);
  }

  /** After the confirmation loop, exactly the due labels are confirmed. */
  lemma {:induction false} ConfirmedInTime(h: History, ordered: seq<PaymentEvent>, i: nat, confirmed: seq<PaymentEvent>,
                        done: seq<PaymentEvent>, rest: seq<PaymentEvent>, delay: int)
    requires Ordered(ordered) && i < |ordered| && InReplay(h, ordered[..i], confirmed, done + rest)
    requires AllDue(confirmed, ordered[i].At(), delay) && AllDue(done, ordered[i].At(), delay)
    requires rest != [] ==> ordered[i].At() - rest[0].At() < delay
    ensures InReplay(Confirming(h, done), ordered[..i], confirmed + done, rest)
    ensures Due(ordered[..i], ordered[i].At(), delay) == confirmed + done
    ensures AllDue(confirmed + done, ordered[i].At(), delay)
  {
    QueueCovered(h, ordered[..i], confirmed, done + rest);
    CoveredPrefix(h, done, rest);
    ConfirmingIsGrounded(h, done);
    ConfirmingAdds(h, done);
    UnlabelConcat(confirmed, done);
    Associate(confirmed, done, rest);
    AllDueTogether(confirmed, done, ordered[i].At(), delay);
    OrderedPrefix(ordered, i);
    PoppedIsDue(ordered[..i], confirmed + done, rest, ordered[i].At(), delay);
  }

  lemma InsertedInReplay(h: History, ordered: seq<PaymentEvent>, i: nat, confirmed: seq<PaymentEvent>, pending: seq<PaymentEvent>)
    requires i < |ordered| && InReplay(h, ordered[..i], confirmed, pending)
    ensures InReplay(h + [Insert(ordered[i].Unlabeled())], ordered[..i + 1], confirmed,
                     if ordered[i].Fraud() then pending + [ordered[i]] else pending)
  {
    var e := ordered[i].Unlabeled();
    NextPrefix(ordered, i, confirmed, pending);
    HistoryGrows(h, Insert(e));
    GroundedInsert(h, e);
    assert Confirmations(h) + [] == Confirmations(h);
  }

  /** How far a replay has come: the graph's history, the frauds confirmed and those queued. */
  datatype Progress = Progress(history: History, confirmed: seq<PaymentEvent>, pending: seq<PaymentEvent>)

  /** The history just before `e` is scored. */
  function Confirmed(p: Progress, e: PaymentEvent, delay: int): History {
    Confirming(p.history, p.pending[..DueHeads(p.pending, e.At(), delay)])
  }

  function Advanced(p: Progress, e: PaymentEvent, delay: int): Progress {
    var k := DueHeads(p.pending, e.At(), delay);
    Progress(Confirmed(p, e, delay) + [Insert(e.Unlabeled())], p.confirmed + p.pending[..k],
             if e.Fraud() then p.pending[k..] + [e] else p.pending[k..])
  }

  function ProgressOf(s: seq<PaymentEvent>, delay: int): Progress {
    if s == [] then Progress([], [], []) else Advanced(ProgressOf(s[..|s| - 1], delay), s[|s| - 1], delay)
  }

  lemma {:induction false} NextProgress(s: seq<PaymentEvent>, i: nat, delay: int)
    requires i < |s|
    ensures ProgressOf(s[..i + 1], delay) == Advanced(ProgressOf(s[..i], delay), s[i], delay)
  {
    assert s[..i + 1][..i] == s[..i];
  }

  /** A replay in step: its queue matches its history, and everything confirmed is due. */
  ghost predicate InStep(p: Progress, prior: seq<PaymentEvent>, now: int, delay: int) {
    InReplay(p.history, prior, p.confirmed, p.pending) && AllDue(p.confirmed, now, delay)
  }

  lemma {:induction false} HeadsConfirmed(p: Progress, ordered: seq<PaymentEvent>, i: nat, delay: int)
    requires Ordered(ordered) && i < |ordered| && InStep(p, ordered[..i], ordered[i].At(), delay)
    ensures var k := DueHeads(p.pending, ordered[i].At(), delay);
            && InReplay(Confirmed(p, ordered[i], delay), ordered[..i], p.confirmed + p.pending[..k], p.pending[k..])
            && Due(ordered[..i], ordered[i].At(), delay) == p.confirmed + p.pending[..k]
            && AllDue(p.confirmed + p.pending[..k], ordered[i].At(), delay)
  {
    var k := DueHeads(p.pending, ordered[i].At(), delay);
    var done, rest := p.pending[..k], p.pending[k..];
    DueHeadsAreDue(p.pending, ordered[i].At(), delay);
    SplitAt(p.pending, k);
    ConfirmedInTime(p.history, ordered, i, p.confirmed, done, rest, delay);
  }

  lemma {:induction false} AdvancedInStep(p: Progress, ordered: seq<PaymentEvent>, j: nat, delay: int)
    requires Ordered(ordered) && j + 1 < |ordered| && InStep(p, ordered[..j], ordered[j].At(), delay)
    ensures InStep(Advanced(p, ordered[j], delay), ordered[..j + 1], ordered[j + 1].At(), delay)
  {
    var k := DueHeads(p.pending, ordered[j].At(), delay);
    HeadsConfirmed(p, ordered, j, delay);
    InsertedInReplay(Confirmed(p, ordered[j], delay), ordered, j, p.confirmed + p.pending[..k], p.pending[k..]);
    OrderedTimes(ordered, j, j + 1);
    AllDueLater(p.confirmed + p.pending[..k], ordered[j].At(), ordered[j + 1].At(), delay);
  }

  /** Every replay is in step at every event. */
  lemma {:induction false} ReplayInStep(ordered: seq<PaymentEvent>, i: nat, delay: int)
    requires Ordered(ordered) && i < |ordered|
    ensures InStep(ProgressOf(ordered[..i], delay), ordered[..i], ordered[i].At(), delay)
  {
    if i > 0 {
      ReplayInStep(ordered, i - 1, delay);
      AdvancedInStep(ProgressOf(ordered[..i - 1], delay), ordered, i - 1, delay);
      NextProgress(ordered, i - 1, delay);
    }
  }

  /** When event `i` is scored, the confirmed events are exactly the due ones, and the features
      are those of the point-in-time record. */
  lemma {:induction false} IterationIsExact(ordered: seq<PaymentEvent>, i: nat, delay: int, distance: Distance, sizeSignal: nat -> real)
    requires Ordered(ordered) && i < |ordered|
    ensures var h := Confirmed(ProgressOf(ordered[..i], delay), ordered[i], delay);
            && Confirmations(h) == Unlabel(Due(ordered[..i], ordered[i].At(), delay))
            && FeaturesNow(Unlabel(ordered[..i]), h, ordered[i], distance, sizeSignal)
               == RecordOf(ordered[..i], ordered[i], delay, EngineFeatures(distance, sizeSignal)).features
  {
    var p := ProgressOf(ordered[..i], delay);
    ReplayInStep(ordered, i, delay);
    HeadsConfirmed(p, ordered, i, delay);
    GroundedFeaturesNow(Confirmed(p, ordered[i], delay), ordered[i], distance, sizeSignal);
  }

  /** Confirm what is due, then score and insert: what one iteration does to the two stores. */
  method ConfirmAndObserve(store: OnlineFeatureStore, graph: FraudGraph, e: PaymentEvent, pending: seq<PaymentEvent>, delay: int,
                           ghost p: Progress)
    returns (features: Features, rest: seq<PaymentEvent>)
    requires store.Valid() && graph.Valid() && PeekFree(store.log, store.cursors)
    requires !Regresses(Past(store.log, e.customerId), e) && graph.history == p.history && pending == p.pending
    modifies store, store.owned, graph
    ensures store.Valid() && graph.Valid() && PeekFree(store.log, store.cursors)
    ensures fresh(store.owned - old(store.owned))
    ensures store.log == old(store.log) + [e.Unlabeled()] && graph.history == Advanced(p, e, delay).history
    ensures rest == p.pending[DueHeads(p.pending, e.At(), delay)..]
    ensures features == FeaturesNow(old(store.log), Confirmed(p, e, delay), e, store.distance, graph.sizeSignal)
  {
    rest := ConfirmDue(graph, pending, e.At(), delay);
    features := Observe(store, graph, e);
  }

  lemma NextRecord<F>(s: seq<PaymentEvent>, i: nat, delay: int, f: Extractor<F>)
    requires i < |s|
    ensures Records(s[..i + 1], delay, f) == Records(s[..i], delay, f) + [RecordOf(s[..i], s[i], delay, f)]
  {
    assert s[..i + 1][..i] == s[..i];
  }

  lemma NextLog(s: seq<PaymentEvent>, i: nat)
    requires i < |s|
    ensures Unlabel(s[..i + 1]) == Unlabel(s[..i]) + [s[i].Unlabeled()]
  {
  }

  /** Both stores as a replay of the first `i` events leaves them. */
  ghost predicate StoresAt(store: OnlineFeatureStore, graph: FraudGraph, s: seq<PaymentEvent>, i: nat, delay: int)
    requires i <= |s|
    reads store, store.owned, graph
  {
    && store.Valid() && graph.Valid() && PeekFree(store.log, store.cursors)
    && store.log == Unlabel(s[..i]) && graph.history == ProgressOf(s[..i], delay).history
  }

  /** One iteration, on the two stores and the queue. */
  method ReplayOne(store: OnlineFeatureStore, graph: FraudGraph, s: seq<PaymentEvent>, i: nat, pending: seq<PaymentEvent>, delay: int)
    returns (record: FeatureRecord<Features>, rest: seq<PaymentEvent>)
    requires Ordered(s) && i < |s| && StoresAt(store, graph, s, i, delay) && pending == ProgressOf(s[..i], delay).pending
    modifies store, store.owned, graph
    ensures fresh(store.owned - old(store.owned))
    ensures StoresAt(store, graph, s, i + 1, delay) && rest == ProgressOf(s[..i + 1], delay).pending
    ensures record == RecordOf(s[..i], s[i], delay, EngineFeatures(store.distance, graph.sizeSignal))
  {
    LastBefore(s, i, i);
    IterationIsExact(s, i, delay, store.distance, graph.sizeSignal);
    NextProgress(s, i, delay);
    NextLog(s, i);
    var features;
    features, rest := ConfirmAndObserve(store, graph, s[i], pending, delay, ProgressOf(s[..i], delay));
    record := FeatureRecord(s[i], features, if s[i].Fraud() then 1 else 0);
    rest := if s[i].Fraud() then rest + [s[i]] else rest;
  }

  /** Replays events in time order through new stores; labels reach the graph only after the
      delay. The dataset is the point-in-time one. */
  method BuildPointInTimeDataset(events: seq<PaymentEvent>, delay: int, distance: Distance, sizeSignal: nat -> real)
    returns (records: seq<FeatureRecord<Features>>)
    ensures records == Replay(events, delay, EngineFeatures(distance, sizeSignal))
    ensures AllLabelled(records) && multiset(EventsOf(records)) == multiset(events) && Ordered(EventsOf(records))
  {
    var store := new OnlineFeatureStore(distance);
    var graph := new FraudGraph(sizeSignal);
    var pending: seq<PaymentEvent> := [];
    records := [];
    SortOrders(events);
    var ordered := Sort(events);
    for i := 0 to |ordered|
      invariant fresh(store) && fresh(graph) && fresh(store.owned)
      invariant StoresAt(store, graph, ordered, i, delay) && pending == ProgressOf(ordered[..i], delay).pending
      invariant records == Records(ordered[..i], delay, EngineFeatures(distance, sizeSignal))
    {
      NextRecord(ordered, i, delay, EngineFeatures(distance, sizeSignal));
      var record;
      record, pending := ReplayOne(store, graph, ordered, i, pending, delay);
      records := records + [record];
    }
    SplitAt(ordered, |ordered|);
    ReplayKeepsEvents(events, delay, EngineFeatures(distance, sizeSignal));
  }
}
