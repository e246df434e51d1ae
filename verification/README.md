# Fraud decision core: a Dafny model

This project models the stateful decision core of the fraud engine and proves what the rest of
the system relies on:

- the incremental entity graph, whose union-by-size, path-compressed component index must agree
  with the explicit graph it replaces (`EntityGraph`, `ComponentIndex`, `GraphTheorems`, `FraudGraph`), with its answers read off the
  payments' own fields (`EventFields`);
- the online feature store, whose evicting per-customer deque must answer as a recomputation over
  the whole log (`TemporalSpec`, `FeatureStore`);
- offline point-in-time replay through both, with its queue of delayed fraud labels
  (`ReplaySpec`, `Dataset`), and the chronological split (`Split`);
- the cost-based threshold search and the accounting reported about it (`Decisioning`, `Metrics`);
- the authorization journal with its two tables, and the service that puts cache, watermark,
  features, graph, models and journal in one order (`Journal`, `Storage`, `ServiceSpec`, `Service`);
- the ISO 8601 text the watermark table compares (`Text`, `Clock`).

Code that changes state is a class whose methods are proved against a specification. The graph
class keeps a ghost history of insertions and confirmations, the feature store a ghost log, the
store a ghost journal; everything they answer is a function of those. The laws are lemmas over
every history, log, journal or run of calls. The service is a state machine `Step` over
authorizations (with or without a failing save), cost changes and restarts; the class refines it
and the theorems quantify over arbitrary runs.

Lemmas that Dafny would attack with automatic induction carry `{:induction false}`, so every
inductive proof rests on its body alone.

`dafny verify dfyconfig.toml` checks the whole project.

## Where the code says something else than its documentation

- The five-minute lateness policy is not the acceptance window. Over every run, with restarts and
  failed saves, a new payment is taken exactly when it is not before the last payment this process
  counted for the customer or, if it counted none, at most the allowed lateness behind the
  watermark (`AcceptanceRule`). A process that started on an empty journal and failed no save thus
  has no tolerance at all (`NoToleranceInProcess`). After a restart a customer's first payment gets
  all of it (`ToleranceAfterRestart`), and later ones keep what that payment left: three minutes
  behind the watermark can be followed by two minutes behind it (`CountedCustomerKeepsTolerance`).
- "Events strictly earlier than the current event" (`features.py:57`) means earlier in processing
  order: a payment with the same timestamp that was processed before is counted
  (`EqualTimeIsCounted`). The documented reading and the code agree exactly when the customer's
  last payment is not at the event's own time (`OnlyEarlierCount`, `EqualTimesMatter`).
- The order check of the feature store reads the last *updating* call, while peeks
  (`update=False`) also evict. A peek into the future makes the next payment lose part of its
  day window (`PeekCanEvict`); the answer is exact under precisely the condition of
  `ExactUnlessOverEvicted`.
- Confirming fraud of an entity the graph does not hold yet raises the entity's own counter but
  never its component's (`EarlyConfirmationIsLost`); the two agree exactly under the condition of
  `AttributionExact`, which every replay meets.
- Split fractions that pass the check can still leave an empty part (`ValidationCanBeEmpty`);
  `PartsFilled` says exactly when each part, and when all three, hold a record.
- A failed save leaves memory ahead of the journal, and its retry is counted a second time
  (`FailedSaveCountsTwice`), as `docs/limitations.md` accepts.

## Model

| member | source | states |
|---|---|---|
| `Domain.NodeNameInjective` | src/fraud_engine/graph.py:25-26 | node names `kind:identifier` are equal only for equal kinds and identifiers, whatever characters the identifiers hold |
| `Domain.NamePrefixIsKind` | src/fraud_engine/graph.py:94-97 | testing a name for the prefix `kind:` is testing the node's kind |
| `EntityGraph.NeighborsAreSharers` | src/fraud_engine/graph.py:94-97 | the customer neighbors of a non-customer node are as many as the distinct customers that used it |
| `EntityGraph.NeighborhoodBecomesComponent` | src/fraud_engine/graph.py:129-156 | the event's nodes with everything connected to them before insertion are exactly the customer's component after it |
| `EntityGraph.LinkedFacts` | src/fraud_engine/graph.py:150-155 | edges are symmetric, join known nodes, and exist exactly if some inserted event joins the two nodes |
| `GraphTheorems.InsertionPredicted` | src/fraud_engine/graph.py:129-156 | the totals read before an insertion are the size and confirmed count of the customer's component after it, and its observations are five more |
| `GraphTheorems.AttributionExact` | src/fraud_engine/graph.py:158-163 | the confirmations components count for an entity are the entity's own count if and only if no confirmation of it came before its first insertion |
| `GraphTheorems.EarlyConfirmationIsLost` | src/fraud_engine/graph.py:158-163 | confirming before inserting leaves the entity's counter at one and its component's at zero |
| `GraphTheorems.GroundedCounts` | src/fraud_engine/graph.py:158-163 | when every confirmed event was inserted at least as often, no entity is confirmed more often than observed, and component counts are entity counts |
| `GraphTheorems.GroundedFeatures` | src/fraud_engine/graph.py:61-92 | in such a history the features depend only on which events were inserted and confirmed, not on the interleaving |
| `GraphTheorems.RatesInUnit` | src/fraud_engine/graph.py:75-77 | both fraud rates then lie in [0, 1] |
| `GraphTheorems.ScoreInUnit` | src/fraud_engine/graph.py:82-89 | the weighted graph score then lies in [0, 1] and the outer cap changes nothing |
| `GraphTheorems.ScoreSaturates` | src/fraud_engine/graph.py:82-89 | the score is 1 exactly when both sharing counts reach 3, the size signal reaches 1 and both fraud rates are 1 |
| `GraphTheorems.ScoreShares` | src/fraud_engine/graph.py:82-89 | what each signal adds: 22/300 per sharing customer up to three, 0.18 for a full size signal, 0.18 and 0.20 per unit of the merchant and neighborhood rates |
| `GraphTheorems.EdgesJoinCustomers` | src/fraud_engine/graph.py:150-155 | every edge joins a customer to a non-customer |
| `GraphTheorems.EdgeObservationsAddUp` | src/fraud_engine/graph.py:143-156 | for each customer and each other kind, the observations on edges to that kind sum to the customer's own observations |
| `GraphTheorems.HubNeighbors` | src/fraud_engine/graph.py:165-173 | the neighbors of a shared entity are its customers and nothing else |
| `EventFields.NodeByField` | src/fraud_engine/graph.py:51-59 | a customer, card, device, ip or merchant node belongs to an event exactly when the event's field of that kind holds its identifier |
| `EventFields.EntityFeatures` | src/fraud_engine/graph.py:62-81 | sharing counts are distinct customers of payments with the same device, address or merchant field, observations are positions with it, and the merchant's rate is confirmed over observed payments with it |
| `EventFields.ComponentsAreGroups` | src/fraud_engine/graph.py:99-156 | two customers are in one component exactly when a chain of inserted payments links theirs, each sharing a customer, card, device, address or merchant with the next |
| `EventFields.SizeFeature` | src/fraud_engine/graph.py:65-74 | the component size is the number of distinct customers, cards, devices, addresses and merchants among the payments so linked to the candidate, and its own |
| `EventFields.RateFeature` | src/fraud_engine/graph.py:65-77 | the neighborhood's fraud rate, summed entity by entity, is the share of the linked payments that is confirmed |
| `EventFields.DegreeFeature` | src/fraud_engine/graph.py:68-76 | the largest degree is the largest of the entities the customer used and of the customers of each of the four entities |
| `EventFields.FeaturesReadFields` | src/fraud_engine/graph.py:62-81 | after every history, whenever its confirmations came, all features but the neighborhood's rate are those facts about payment fields |
| `EventFields.RingByField` | src/fraud_engine/graph.py:165-173 | a device or address is exported exactly when enough customers used it, a card or merchant never |
| `EventFields.RingCustomers` | src/fraud_engine/graph.py:165-173 | a customer is exported exactly when one of its payments is at such a device or address |
| `EventFields.DisplayedIsCount` | src/fraud_engine/graph.py:158-163 | the displayed confirmations of an entity are all of its confirmations, unless one came before its first insertion |
| `ComponentIndex.DepthBound` | src/fraud_engine/graph.py:99-127 | a node at depth d lies in a class of at least 2^d members |
| `ComponentIndex.CompressKeepsForest` | src/fraud_engine/graph.py:99-107 | pointing a node at its root keeps the forest and every node's root |
| `ComponentIndex.LinkKeepsForest` | src/fraud_engine/graph.py:116-122 | hanging the smaller root under the larger one keeps the forest and its depth bound |
| `ComponentIndex.LinkKeepsSized` | src/fraud_engine/graph.py:120-123 | after a union the size table again holds, at roots and only there, the number of members |
| `ComponentIndex.LinkKeepsSummed` | src/fraud_engine/graph.py:124-127 | after a union an aggregate table again holds, at roots and only there, the sum over the members |
| `ComponentIndex.SizesAddUp` | src/fraud_engine/graph.py:137-138 | the sizes stored at a set of roots sum to the number of nodes under them |
| `ComponentIndex.SumsAddUp` | src/fraud_engine/graph.py:139-140 | the aggregates stored at a set of roots sum to the entity counters of the nodes under them |
| `FraudGraphs.SameRootIffConnected` | src/fraud_engine/graph.py:99-127 | two nodes have one root if and only if a path in the explicit graph connects them |
| `FraudGraphs.FraudGraph.constructor` | src/fraud_engine/graph.py:42-49 | an empty graph satisfies the invariant, with an empty history |
| `FraudGraphs.FraudGraph.Find` | src/fraud_engine/graph.py:99-107 | returns the node's root, changes no root while it rewrites parents, and either pass takes s steps only if the component has at least 2^s members |
| `FraudGraphs.FraudGraph.EnsureComponentNode` | src/fraud_engine/graph.py:109-114 | a new node becomes its own root with size one and zero aggregates; a known node changes nothing |
| `FraudGraphs.FraudGraph.Union` | src/fraud_engine/graph.py:116-127 | exactly the two classes are merged, under one of their two roots, and all three aggregate tables stay right |
| `FraudGraphs.FraudGraph.CandidateComponentTotals` | src/fraud_engine/graph.py:129-141 | unseen nodes plus members of the touched components, and the sums of both entity counters over those members |
| `FraudGraphs.FraudGraph.Update` | src/fraud_engine/graph.py:143-156 | keeps the whole invariant and appends the insertion to the history |
| `FraudGraphs.FraudGraph.ConfirmFraud` | src/fraud_engine/graph.py:158-163 | keeps the whole invariant and appends the confirmation to the history, known nodes or not |
| `FraudGraphs.FraudGraph.Compute` | src/fraud_engine/graph.py:61-92 | answers what the history before the call defines, with eight of the nine features stated by the payments' own fields, and inserts the event only when asked to |
| `FraudGraphs.FraudGraph.ReadFeatures` | src/fraud_engine/graph.py:61-81 | the nine features, read from index, counters and edges, are those the history defines by connectivity, and eight of them are stated by the payments' own fields |
| `FraudGraphs.FraudGraph.IndexIsExact` | src/fraud_engine/graph.py:99-163 | in every reachable state the parents of a node lead to a root at which size, observations and confirmations are those of the node's component in the explicit graph, and exactly the connected nodes share that root |
| `FraudGraphs.FraudGraph.EntriesAreRoots` | src/fraud_engine/graph.py:109-127 | the keys of all three aggregate tables are exactly the nodes that are their own parent |
| `FraudGraphs.FraudGraph.SuspiciousSubgraph` | src/fraud_engine/graph.py:165-185 | exports exactly the devices and addresses with enough customers plus those customers, each with its displayed confirmation count, and exactly the edges among them, each once, customer end first |
| `TemporalSpec.DayWindowIsExact` | src/fraud_engine/features.py:70-76 | a deque evicted at one day before the event gives the features recomputed from the whole log |
| `TemporalSpec.ExactUnlessOverEvicted` | src/fraud_engine/features.py:65-111 | the answer equals recomputation from the whole log if and only if everything evicted so far is more than a day older than the event |
| `TemporalSpec.InOrderIsExact` | src/fraud_engine/features.py:65-111 | while a customer's accepted calls, peeks included, do not go back in time, every answer equals the recomputation |
| `TemporalSpec.PeekCanEvict` | src/fraud_engine/features.py:66-72 | a peek one day and one microsecond ahead makes the next payment's answer differ from the recomputation |
| `TemporalSpec.RunningMeaning` | src/fraud_engine/features.py:112-122 | the running aggregates are the sums, count, device set, merchant set and last time of the log |
| `TemporalSpec.FeaturesMean` | src/fraud_engine/features.py:73-111 | counts, spend, failures and novelty, recomputed from the log, are those of the customer's payments in inclusive windows, one by one |
| `TemporalSpec.AveragesMean` | src/fraud_engine/features.py:77-111 | average, typical place and time since the last payment are those of the whole history, with the event itself as its own typical payment when there is none |
| `TemporalSpec.PaymentFacts` | src/fraud_engine/features.py:77-104 | for any log and evicted prefix: the amount, its ratio to the average (at least 1), failed authentication, card-not-present and high-risk category are those of the payment itself |
| `TemporalSpec.OnlyEarlierCount` | src/fraud_engine/features.py:57-58 | recomputing from strictly earlier payments alone gives the same features if and only if every payment of the log is strictly earlier |
| `TemporalSpec.EqualTimesMatter` | src/fraud_engine/features.py:57-69 | for an accepted payment that is so if and only if the customer's last payment is not at the same time |
| `TemporalSpec.EqualTimeIsCounted` | src/fraud_engine/features.py:57-69 | one payment at the same time, processed before, raises the one-minute count from zero to one |
| `TemporalSpec.WindowsNest` | src/fraud_engine/features.py:84-111 | 1m ≤ 1h ≤ 1d ≤ history counts, and failures within the hour count, for any evicted prefix |
| `TemporalSpec.AdvanceReachable` | src/fraud_engine/features.py:70-72 | an eviction removes no more rows than were appended, and only rows a day older than the latest call |
| `FeatureStore.CustomerState.Evict` | src/fraud_engine/features.py:70-72 | exactly the leading rows before the cutoff leave the deque |
| `FeatureStore.CustomerState.Accept` | src/fraud_engine/features.py:70-123 | an accepted call evicts, reads the features before writing, and writes unless it is a peek |
| `FeatureStore.OnlineFeatureStore.Compute` | src/fraud_engine/features.py:64-123 | rejects exactly a payment before its customer's last one, changing neither log nor cursors; otherwise answers from the log and cursor, and logs the event unless it is a peek |
| `FeatureStore.PeekFreeCall` | src/fraud_engine/features.py:64-123 | without peeks every accepted answer is the recomputation from the log |
| `ReplaySpec.SortOrders` | src/fraud_engine/dataset.py:32 | the replay order is by time, then transaction id |
| `ReplaySpec.SortKeeps` | src/fraud_engine/dataset.py:32 | sorting neither loses nor adds an event |
| `ReplaySpec.OrderedByKey` | src/fraud_engine/dataset.py:32 | between any two positions the earlier time comes first, and at one time the smaller transaction id |
| `ReplaySpec.SortIsStable` | src/fraud_engine/dataset.py:32 | events with equal keys keep the order of the input |
| `ReplaySpec.SortIgnoresLabels` | src/fraud_engine/dataset.py:32 | the replay order does not depend on labels |
| `ReplaySpec.UnlabeledMeans` | src/fraud_engine/domain.py:24-50 | dropping labels drops exactly the two label fields |
| `ReplaySpec.DueByLabel` | src/fraud_engine/dataset.py:34-50 | the confirmed set is exactly the earlier payments whose own label is true, at least the delay before, each once |
| `ReplaySpec.ReplayKeepsEvents` | src/fraud_engine/dataset.py:41-50 | a dataset holds the given events, each once and in key order, with label 1 exactly for a payment whose own label is true |
| `ReplaySpec.NoLabelLeakage` | src/fraud_engine/dataset.py:32-50 | two runs over the same facts, whose labels differ only on events younger than the delay, give event i the same features and graph score |
| `ReplaySpec.NoLeakageAcrossDatasets` | src/fraud_engine/dataset.py:20-51 | the same for whole datasets in any list order |
| `ReplaySpec.PrefixReplay` | src/fraud_engine/dataset.py:32-51 | the records of the first k sorted events are the replay of those events alone |
| `ReplaySpec.RecordInUnit` | src/fraud_engine/dataset.py:33-50 | in every record both fraud rates and the graph score lie in [0, 1] |
| `Dataset.PoppedIsDue` | src/fraud_engine/dataset.py:34-38 | popping only due heads of the queue confirms exactly the earlier frauds at least the delay old |
| `Dataset.ConfirmDue` | src/fraud_engine/dataset.py:34-38 | the loop confirms the due heads in order and keeps the rest of the queue |
| `Dataset.ReplayInStep` | src/fraud_engine/dataset.py:33-50 | at every event the confirmed and the queued frauds together are the earlier frauds in order, everything confirmed is due, and no confirmation outruns an insertion |
| `Dataset.IterationIsExact` | src/fraud_engine/dataset.py:34-48 | when event i is scored the confirmed set is exactly the due one, and the features are those of the point-in-time record |
| `Dataset.BuildPointInTimeDataset` | src/fraud_engine/dataset.py:20-51 | driving the mutable feature store, graph and queue yields, record by record, the dataset defined without any state: the given events, each once, in key order, with label 1 exactly for a payment whose own label is true |
| `Split.SplitIsChronological` | src/fraud_engine/dataset.py:54-61 | the three parts make up the dataset in order, and no event of a part is later than one of a following part |
| `Split.FractionsAccepted` | src/fraud_engine/dataset.py:57-58 | fractions are refused exactly when one is not positive or nothing is left for the test part |
| `Split.CutsLie` | src/fraud_engine/dataset.py:59-61 | the training part, and training and validation together, are the largest whole numbers of records within their fractions |
| `Split.PartsFilled` | src/fraud_engine/dataset.py:57-61 | the training part is non-empty exactly when its fraction comes to a whole record, the validation part exactly when a whole number lies between the two cut points, the test part exactly when there are records; all three exactly under the first two conditions |
| `Split.ValidationCanBeEmpty` | src/fraud_engine/dataset.py:57-61 | accepted fractions leave the validation part of a two-record dataset empty |
| `Decisioning.DecisionEngine.constructor` | src/fraud_engine/decisioning.py:55-61 | given or default assumptions and thresholds |
| `Decisioning.DecisionEngine.Decide` | src/fraud_engine/decisioning.py:63-68 | approve exactly below the review threshold, decline exactly from the decline threshold on |
| `Decisioning.DecisionEngine.Evaluate` | src/fraud_engine/decisioning.py:96-123 | the accumulating loop yields, item by item, unit costs times the sizes and amounts of the decision classes; lists of different lengths fail |
| `Decisioning.TimesIsProduct` | src/fraud_engine/decisioning.py:106-122 | n charges of a unit are n times the unit |
| `Decisioning.DecisionEngine.Optimize` | src/fraud_engine/decisioning.py:70-94 | the nested search returns what `Search` finds or the error it meets, and changes the thresholds only on success; on non-empty data of equal lengths it leaves the first cheapest pair of evenly spaced points from 0.02 to 0.98 whose share of scores in between is within the cap, or the old thresholds |
| `Decisioning.CandidatesAreGridPairs` | src/fraud_engine/decisioning.py:78-83 | the loops visit exactly the pairs of grid points with review below decline |
| `Decisioning.LinspaceEnds` | src/fraud_engine/decisioning.py:78 | the grid starts at 0.02, ends at 0.98 and is evenly spaced |
| `Decisioning.CandidatesAreEvenlySpaced` | src/fraud_engine/decisioning.py:78-83 | the candidates are exactly the ordered pairs of those evenly spaced points |
| `Decisioning.SearchChoosesRight` | src/fraud_engine/decisioning.py:78-94 | the result is the first cheapest such pair with no more than the capped share of scores from its review point up to its decline point, or the prior thresholds |
| `Decisioning.SearchFails` | src/fraud_engine/decisioning.py:78-89 | the search fails exactly on a negative grid, on a grid of at least two points without scores, or with lists of different lengths and some pair within the cap |
| `Decisioning.FoundIsOptimal` | src/fraud_engine/decisioning.py:79-94 | on non-empty data the result is the one and only first cheapest grid pair, by review then decline, whose review rate is within the cap; the prior thresholds when no pair is |
| `Decisioning.ChosenUnique` | src/fraud_engine/decisioning.py:90-94 | only one pair can be that choice |
| `Decisioning.FoundIsValid` | src/fraud_engine/decisioning.py:32-34 | whatever the search returns satisfies the threshold invariant |
| `Decisioning.SearchAgain` | src/fraud_engine/decisioning.py:78-94 | searching again from the result returns the result |
| `Decisioning.RaisedPriceLowersLoad` | src/fraud_engine/decisioning.py:90-92 | when prices rise by a positive multiple of a load, the new choice carries no more load, and equal load means the same choice, by the strict comparison |
| `Decisioning.DearerDeclinesRaiseDecline` | src/fraud_engine/decisioning.py:78-94 | raising only the false-positive decline cost never lowers the decline threshold, for all data, starting thresholds and grid sizes |
| `Decisioning.DearerReviewsReviewLess` | src/fraud_engine/decisioning.py:78-94 | raising only the manual review cost never sends more payments to review |
| `Decisioning.DearerFraudLosesLess` | src/fraud_engine/decisioning.py:78-94 | raising only the fraud loss rate never lets more fraud amount through |
| `Decisioning.OperationalCostIsNeutral` | src/fraud_engine/decisioning.py:108-108 | the operational cost has no influence on the thresholds |
| `Decisioning.SearchOrderFree` | src/fraud_engine/decisioning.py:70-123 | permuting the validation rows jointly does not change the result |
| `Metrics.AmountsReconcile` | src/fraud_engine/metrics.py:39-48 | captured, reviewed and approved fraud amounts sum to the fraud total; false positives are the good payments reviewed or declined |
| `Metrics.AccountsMean` | src/fraud_engine/metrics.py:39-75 | captured fraud, false positives and reviews are counted by label and by score against the two thresholds, and the two rates are their shares |
| `Metrics.BreakdownReconciles` | src/fraud_engine/metrics.py:39-49 | the reported amounts and counts, with the reviewed fraud and good payments, reproduce all four items of the cost breakdown and their sum for the same thresholds |
| `Metrics.RatesInUnit` | src/fraud_engine/metrics.py:71-75 | the fraud capture rate and the review rate lie in [0, 1] |
| `Metrics.ExactlyOneBin` | src/fraud_engine/metrics.py:50-55 | each score in [0, 1] falls in exactly one calibration bin: the tenths it reaches, or the last bin at 1 |
| `Metrics.CalibrationError` | src/fraud_engine/metrics.py:51-59 | the loop yields the sum over bins of the absolute total miss, divided by the number of rows |
| `Metrics.CalibrationBounds` | src/fraud_engine/metrics.py:50-59 | the calibration error is at most the mean absolute score–label difference and at least the difference of the means |
| `Metrics.BusinessMetrics` | src/fraud_engine/metrics.py:39-59 | reports those accounts, the engine's own evaluation and the calibration error, and fails exactly on lists of different lengths |
| `Clock.BeforeIsInstantOrder` | src/fraud_engine/storage.py:100-101 | comparing UTC datetimes field by field is comparing instants, and an instant names one datetime |
| `Clock.FieldsOf` | src/fraud_engine/storage.py:133 | every instant of the years 1 to 9999 has valid calendar fields, and they name that instant |
| `Clock.FractionOrder` | src/fraud_engine/storage.py:133 | fractions with six digits or none sort by value, because '+' sorts before '.' |
| `Clock.IsoOrder` | src/fraud_engine/storage.py:128-133 | the text order of `isoformat` output is the time order, for UTC years 1 to 9999 |
| `Clock.IsoLayout` | src/fraud_engine/storage.py:133 | the printed text has the ISO 8601 layout, digit by digit and separator by separator |
| `Clock.ParsePrinted` | src/fraud_engine/storage.py:100 | parsing a printed datetime gives it back |
| `Journal.WatermarkIsMax` | src/fraud_engine/storage.py:126-134 | a watermark is the maximum committed event time of the customer, and is absent exactly without commits |
| `Journal.WatermarkNeverFalls` | src/fraud_engine/storage.py:128-133 | commits never lower a watermark |
| `Journal.FoundForever` | src/fraud_engine/storage.py:80-91 | what is committed under a transaction id stays found under it |
| `Storage.UpsertRaises` | src/fraud_engine/storage.py:126-134 | the text-comparing upsert keeps every stored watermark equal to the printed maximum |
| `Storage.DigestExists` | src/fraud_engine/storage.py:76-78 | there are digests that tell all payloads apart, so the store's invariant can be met |
| `Storage.AuthorizationStore.constructor` | src/fraud_engine/storage.py:30-60 | an empty store satisfies the invariant |
| `Storage.AuthorizationStore.CachedResponse` | src/fraud_engine/storage.py:80-91 | a stored response for the very same request, a conflict for another one of its id, nothing for a new id |
| `Storage.AuthorizationStore.RejectIfLate` | src/fraud_engine/storage.py:93-104 | late exactly when more than the allowed lateness before the maximum committed time of the customer |
| `Storage.AuthorizationStore.Save` | src/fraud_engine/storage.py:106-134 | one entry is committed to both tables, or both tables are as before; it fails exactly on a fault or a known id |
| `Storage.AuthorizationStore.Write` | src/fraud_engine/storage.py:107-134 | the two statements in place; when they are done both tables match the journal with the new entry |
| `ServiceSpec.RefusalsLeaveNoTrace` | src/fraud_engine/service.py:134-141 | deleting any retries, conflicts, late and out-of-order rejections from any run leaves every other reply and the final state unchanged |
| `ServiceSpec.AnswersAreTheChampions` | src/fraud_engine/service.py:138-170 | a fresh answer declines exactly from the champion score's decline threshold on and approves exactly below review, reports the challenger's decision as shadow only, and carries the features, clock and trace of its own call |
| `ServiceSpec.ChallengerHasNoSay` | src/fraud_engine/service.py:145-169 | replacing the challenger changes nothing in any run but the shadow fields |
| `ServiceSpec.RetryIsStable` | src/fraud_engine/service.py:134-136 | after an answer, and any later calls, failed saves and restarts, the same request gets the stored response and another request of its id a conflict |
| `ServiceSpec.AnsweredAtMostOnce` | src/fraud_engine/service.py:131-179 | no transaction id is answered afresh twice in a run |
| `ServiceSpec.CountsAddUp` | src/fraud_engine/service.py:138-178 | within a process rows added are answers given, payments counted are answers plus failed saves, and the two agree exactly when no save failed |
| `ServiceSpec.FailedSaveCountsTwice` | src/fraud_engine/service.py:138-178 | after any failed save an immediate retry is accepted, counted a second time, and scored with its own first count in sight |
| `ServiceSpec.WatermarkSafety` | src/fraud_engine/service.py:131-179 | over any calls, failed saves and restarts, no watermark falls |
| `ServiceSpec.MemoryBehindWatermark` | src/fraud_engine/service.py:137-138 | without failed saves, over any restarts, the remembered last time never exceeds the watermark |
| `ServiceSpec.MemoryIsWatermark` | src/fraud_engine/service.py:137-138 | a process that started on an empty journal and failed no save remembers exactly every watermark |
| `ServiceSpec.MemoryNearWatermark` | src/fraud_engine/service.py:137-138 | over every run, restarts and failed saves included, the remembered last time is at most the allowed lateness behind the watermark |
| `ServiceSpec.AcceptanceRule` | src/fraud_engine/service.py:134-138 | over every run, a new payment is taken exactly when not before the last one counted for its customer, or with none counted at most the allowed lateness behind the watermark; and which gate refuses it otherwise |
| `ServiceSpec.NoToleranceInProcess` | src/fraud_engine/service.py:134-138 | a process that started on an empty journal and failed no save takes a new payment exactly when it is not before the watermark, and says which gate refuses it otherwise |
| `ServiceSpec.ToleranceAfterRestart` | src/fraud_engine/service.py:134-138 | a customer's first payment counted by a process is taken exactly when within the allowed lateness |
| `ServiceSpec.CountedCustomerKeepsTolerance` | src/fraud_engine/service.py:134-138 | after a restart, a payment three minutes behind the watermark and then one two minutes behind it, of the same customer, are both answered |
| `ServiceSpec.UpdateCostsIdempotent` | src/fraud_engine/service.py:181-198 | repeating a cost change leaves the state as it is and reports the same thresholds, or the same failure |
| `ServiceSpec.CostsMean` | src/fraud_engine/service.py:181-198 | a cost change sets the assumptions, reports the old and the new thresholds, and searches with the champion's scores of the validation records, their labels and amounts; without records it fails and keeps the thresholds |
| `ServiceSpec.TrainingServingParity` | src/fraud_engine/service.py:134-150 | an ordered stream with distinct ids on a fresh service is never refused, and shows the model what offline replay of the same payments records when no label is known in time |
| `Service.FraudDecisionService.constructor` | src/fraud_engine/service.py:60-70 | a process starts with empty features and graph on whatever the journal holds, which is the state a restart leads to |
| `Service.DefaultService` | src/fraud_engine/service.py:60-70 | a service with a new store, the default engine and a five-minute policy satisfies the invariant, with nothing journaled or counted |
| `Service.FraudDecisionService.Authorize` | src/fraud_engine/service.py:131-179 | reply and whole new state are those of the state machine, with features and graph counting the same payments in the same order; a fresh answer is decided by the champion's score |
| `Service.FraudDecisionService.UpdateCosts` | src/fraud_engine/service.py:181-198 | reply and whole new state are those of the state machine |

## Left out

- Service.FraudDecisionService.Authorize: response scores are not rounded, reason codes and explanation text are represented by the features they are computed from, and the latency and audit deques are not part of the state.
- FraudGraphs.FraudGraph.Compute: the logarithm of the component size is a parameter, non-negative where a law needs it.
- FeatureStore.OnlineFeatureStore.Compute: the great-circle distance is a parameter; `OnlineFeatureStore.reset` is not modelled.
- Metrics.BusinessMetrics: the library metrics (ROC, PR, Brier, precision, recall) are external, and so is their failure on data they reject.
- Storage.AuthorizationStore.Save: of the columns, those that only repeat the response for reports are not modelled.
- Floating point: amounts, scores, costs and coordinates are real numbers; rounding is not modelled.
- The models: champion and challenger are arbitrary total functions of the features and the graph score; training, calibration and explanations are not modelled.
- The orientation and order in which the original lists the edges of the exported ring: an edge is named customer end first.
- Node names as text: the graph is keyed by kind and identifier; naming is proved injective beside it.
- Zero entries that reading a defaulting counter creates: counters are compared by value.
- SHA-256: the request digest is any collision-free function of the request into abstract hash values; hexadecimal text cannot tell all real amounts apart.
- SQLite: a transaction is atomic, and where it fails is an input; JSON storage returns the stored record.
- Timezone conversion: event times are UTC instants in microseconds already. `Clock.ParseIso` reads only the layout `isoformat` prints for UTC.
- Arithmetic overflow of datetimes: subtracting a day or the lateness from a time near year 1 raises in the original and is an ordinary integer here.
- Locking: each service call is one atomic step; unlocked health reads are not modelled.
- `AuthorizationStore.recent`, `decision_counts`, `count` and service `health`, `prometheus_metrics`, `shadow_comparison`: reports over the modelled state.
- Request validation of amounts, currencies and coordinates: the model accepts every value of the types.
- The HTTP layer, dashboard, demo, simulator, benchmarks, artifacts and command line: no invariant of their own.
