/** The decision service object: a store, a feature store, a graph and an engine, kept in step. */
module Service {
  import opened Domain
  import opened Clock
  import opened EntityGraph
  import opened GraphTheorems
  import opened FraudGraphs
  import opened TemporalSpec
  import opened FeatureStore
  import opened ReplaySpec
  import opened Dataset
  import opened Journal
  import opened Storage
  import opened ServiceSpec
  import opened Sequences
  import D = Decisioning

  /** The graph history of a service: insertions only. */
  function Inserts(log: seq<PaymentEvent>): History {
    if log == [] then [] else Inserts(log[..|log| - 1]) + [Insert(log[|log| - 1])]
  }

  lemma {:induction false} InsertStaysGrounded(h: History, e: PaymentEvent)
    requires Confirmations(h) == [] && Grounded(h)
    ensures var h' := h + [Insert(e)]; Inserted(h') == Inserted(h) + [e] && Confirmations(h') == [] && Grounded(h')
  {
    HistoryGrows(h, Insert(e));
    GroundedInsert(h, e);
  }

  lemma {:induction false} InsertsGrounded(log: seq<PaymentEvent>)
    ensures Inserted(Inserts(log)) == log && Confirmations(Inserts(log)) == [] && Grounded(Inserts(log))
  {
    if log != [] {
      var before, last := log[..|log| - 1], log[|log| - 1];
      InsertsGrounded(before);
      InsertStaysGrounded(Inserts(before), last);
      SplitLast(log);
    }
  }

  lemma {:induction false} NextInsert(log: seq<PaymentEvent>, e: PaymentEvent)
    ensures Inserts(log + [e]) == Inserts(log) + [Insert(e)]
  {
    assert (log + [e])[..|log|] == log;
  }

  /** What the two stores answer of a service's history is what the state machine says. */
  lemma {:induction false} BasisNow(k: Setting, log: seq<PaymentEvent>, e: AuthorizationRequest)
    ensures FeaturesNow(log, Inserts(log), e, k.distance, k.sizeSignal) == Basis(k, log, e)
  {
    InsertsGrounded(log);
    GroundedFeaturesNow(Inserts(log), e, k.distance, k.sizeSignal);
  }

  class FraudDecisionService {
    const champion: Features -> real
    const challenger: Features -> real
    const validation: seq<FeatureRecord<Features>>
    const engine: D.DecisionEngine
    const store: AuthorizationStore
    const featureStore: OnlineFeatureStore
    const graph: FraudGraph

    function Fixed(): Setting {
      Setting(champion, challenger, featureStore.distance, graph.sizeSignal, store.allowedLateness, validation)
    }

    ghost function Abstract(): State
      reads engine, store, featureStore
    {
      State(store.journal, featureStore.log, engine.assumptions, engine.thresholds)
    }

    /** The feature store and the graph have counted the same payments, in the same order. */
    ghost predicate InMemoryValid()
      reads featureStore, featureStore.owned, graph
    {
      && featureStore.Valid() && PeekFree(featureStore.log, featureStore.cursors)
      && graph.Valid() && graph.history == Inserts(featureStore.log)
    }

    ghost predicate Valid()
      reads store, featureStore, featureStore.owned, graph
    {
      store.Valid() && InMemoryValid()
    }

    /** A process starts with empty features and graph, on whatever the journal holds. */
    constructor (champion: Features -> real, challenger: Features -> real, engine: D.DecisionEngine,
                 validation: seq<FeatureRecord<Features>>, store: AuthorizationStore, distance: Distance, sizeSignal: nat -> real)
      requires store.Valid()
      ensures Valid() && Abstract() == State(store.journal, [], engine.assumptions, engine.thresholds)
      ensures forall before: State | before.journal == store.journal ::
                Abstract() == Step(Fixed(), before, Restart(engine.assumptions, engine.thresholds)).state
      ensures Fixed() == Setting(champion, challenger, distance, sizeSignal, store.allowedLateness, validation)
      ensures this.store == store && this.engine == engine && fresh(featureStore) && fresh(featureStore.owned) && fresh(graph)
    {
      this.champion, this.challenger, this.engine, this.validation, this.store := champion, challenger, engine, validation, store;
      featureStore := new OnlineFeatureStore(distance);
      graph := new FraudGraph(sizeSignal);
    }

    /** The graph's half of an observation, which leaves the feature store alone. */
    method ObserveGraph(e: AuthorizationRequest, ghost log: seq<PaymentEvent>) returns (snapshot: GraphSnapshot)
      requires graph.Valid() && graph.history == Inserts(log) && featureStore.Valid()
      modifies graph
      ensures graph.Valid() && graph.history == Inserts(log + [e]) && featureStore.Valid()
      ensures snapshot == SnapshotBefore(Inserts(log), e, graph.sizeSignal)
    {
      snapshot := graph.Compute(e, true);
      NextInsert(log, e);
    }

    /** Features and graph of a payment, read before they count it. */
    method Observed(e: AuthorizationRequest) returns (basis: Option<Features>)
      requires InMemoryValid()
      modifies featureStore, featureStore.owned, graph
      ensures InMemoryValid() && fresh(featureStore.owned - old(featureStore.owned))
      ensures if Regresses(Past(old(featureStore.log), e.customerId), e)
              then basis == None && featureStore.log == old(featureStore.log)
              else basis == Some(Basis(Fixed(), old(featureStore.log), e)) && featureStore.log == old(featureStore.log) + [e]
    {
      ghost var log := featureStore.log;
      var temporal := ObserveTemporal(featureStore, e);
      if temporal.OutOfOrder? {
        basis := None;
      } else {
        var snapshot := ObserveGraph(e, log);
        BasisNow(Fixed(), log, e);
        basis := Some(Features(temporal.features, snapshot.features, snapshot.graphScore));
      }
    }

    /** The cache, then the watermark. */
    method Admit(e: AuthorizationRequest) returns (refusal: Option<Reply>)
      requires store.Valid()
      ensures match LookUp(store.journal, e)
              case Hit(response) => refusal == Some(Cached(response))
              case Clash => refusal == Some(Conflict)
              case Unseen => refusal == if Late(store.journal, store.allowedLateness, e) then Some(LateRejected) else None
    {
      var found := store.CachedResponse(e);
      if found.Hit? {
        return Some(Cached(found.response));
      }
      if found.Clash? {
        return Some(Conflict);
      }
      var late := store.RejectIfLate(e);
      refusal := if late then Some(LateRejected) else None;
    }

    /** The models and the engine on what was observed. */
    method Answer(basis: Features, e: AuthorizationRequest, stamp: Stamp) returns (response: AuthorizationResponse)
      ensures response == Respond(Fixed(), engine.thresholds, basis, e, stamp)
    {
      var risk, shadow := champion(basis), challenger(basis);
      response := AuthorizationResponse(engine.Decide(risk), risk, basis, stamp.timestamp, e.traceId, stamp.latencyMs,
                                        shadow, engine.Decide(shadow));
    }

    /** The save, which leaves memory alone. */
    method Commit(e: AuthorizationRequest, response: AuthorizationResponse, fault: Fault) returns (reply: Reply)
      requires Valid() && Find(store.journal, e.transactionId).None?
      modifies store
      ensures Valid() && Abstract() == old(Abstract()).(journal := store.journal)
      ensures store.journal == old(store.journal) + if fault.NoFault? then [Entry(e, response)] else []
      ensures reply == if fault.NoFault? then Responded(response) else SaveFailed
    {
      var saved := store.Save(e, response, fault);
      reply := if saved then Responded(response) else SaveFailed;
    }

    /** What follows the three gates: answer and save. */
    method Finish(e: AuthorizationRequest, basis: Features, stamp: Stamp, fault: Fault, ghost was: State) returns (reply: Reply)
      requires Valid() && Abstract() == was.(log := was.log + [e]) && basis == Basis(Fixed(), was.log, e)
      requires LookUp(was.journal, e).Unseen? && !Late(was.journal, store.allowedLateness, e) && !Regresses(Past(was.log, e.customerId), e)
      modifies store
      ensures Valid()
      ensures Stepped(Abstract(), reply) == AuthorizeStep(Fixed(), was, e, stamp, !fault.NoFault?)
    {
      var response := Answer(basis, e, stamp);
      PastTheGates(Fixed(), was, e, stamp, !fault.NoFault?, response);
      reply := Commit(e, response, fault);
    }

    /** What follows the first two gates; `fault` says where the save fails. */
    method Proceed(e: AuthorizationRequest, stamp: Stamp, fault: Fault) returns (reply: Reply)
      requires Valid() && LookUp(store.journal, e).Unseen? && !Late(store.journal, store.allowedLateness, e)
      modifies store, featureStore, featureStore.owned, graph
      ensures Valid() && fresh(featureStore.owned - old(featureStore.owned))
      ensures Stepped(Abstract(), reply) == AuthorizeStep(Fixed(), old(Abstract()), e, stamp, !fault.NoFault?)
    {
      ghost var was := Abstract();
      var basis := Observed(e);
      if basis.None? {
        reply := OrderRejected;
      } else {
        reply := Finish(e, basis.value, stamp, fault, was);
      }
    }

    /** One authorization, gate by gate as the service takes them. */
    method Authorize(e: AuthorizationRequest, stamp: Stamp, fault: Fault) returns (reply: Reply)
      requires Valid()
      modifies store, featureStore, featureStore.owned, graph
      ensures Valid() && fresh(featureStore.owned - old(featureStore.owned))
      ensures Stepped(Abstract(), reply) == AuthorizeStep(Fixed(), old(Abstract()), e, stamp, !fault.NoFault?)
      ensures reply.Responded? ==> ChampionDecides(Fixed(), engine.thresholds, reply.response)
    {
      ghost var was := Abstract();
      var refusal := Admit(e);
      if refusal.Some? {
        reply := refusal.value;
      } else {
        reply := Proceed(e, stamp, fault);
        if reply.Responded? {
          AnswersAreTheChampions(Fixed(), was, e, stamp, !fault.NoFault?);
        }
      }
    }

    /** New assumptions, then new thresholds from the validation records. */
    method UpdateCosts(assumptions: D.CostAssumptions) returns (reply: Reply)
      requires Valid()
      modifies engine
      ensures Valid()
      ensures Stepped(Abstract(), reply) == UpdateCostsStep(Fixed(), old(Abstract()), assumptions)
    {
      engine.assumptions := assumptions;
      var previous := engine.thresholds;
      var outcome := engine.Optimize(ValidationScores(Fixed()), ValidationLabels(Fixed()), ValidationAmounts(Fixed()), GRID_SIZE);
      reply := if outcome.Failed? then CostsFailed(outcome.error) else CostsUpdated(previous, outcome.value);
    }
  }

  /** A service nobody configured: a new store, the default engine, the default lateness policy. */
  method DefaultService(champion: Features -> real, challenger: Features -> real, validation: seq<FeatureRecord<Features>>,
                        distance: Distance, sizeSignal: nat -> real)
    returns (service: FraudDecisionService)
    ensures service.Valid() && fresh(service)
    ensures service.Abstract() == State([], [], D.Costs(1.0, 35.0, 8.0, 4.0, 0.05, 0.80, 0.05), D.Cutoffs(0.45, 0.75))
    ensures service.Fixed() == Setting(champion, challenger, distance, sizeSignal, 5 * MINUTE, validation)
  {
    DigestExists();
    var store := new AuthorizationStore(PayloadHash, 5 * MINUTE);
    var engine := new D.DecisionEngine(None, None);
    service := new FraudDecisionService(champion, challenger, engine, validation, store, distance, sizeSignal);
  }
}
