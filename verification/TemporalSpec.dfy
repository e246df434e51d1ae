/** Velocity and baseline features, defined from a customer's whole prior log. */
module TemporalSpec {
  import opened Domain
  import opened Clock
  import opened Sequences

  /** What the per-customer deque keeps of a payment. */
  datatype Row = Row(at: int, amount: real, successful: bool)

  function RowOf(e: PaymentEvent): Row {
    Row(e.At(), e.amount, e.authenticationSuccessful)
  }

  /** The payments of one customer, in log order. */
  function Past(log: seq<PaymentEvent>, customer: string): seq<PaymentEvent> {
    if log == [] then [] else
      var last := log[|log| - 1];
      Past(log[..|log| - 1], customer) + if last.customerId == customer then [last] else []
  }

  function Rows(events: seq<PaymentEvent>): seq<Row> {
    if events == [] then [] else Rows(events[..|events| - 1]) + [RowOf(events[|events| - 1])]
  }

  /** The rows at or after `from`; windows include their start. */
  function Keep(rows: seq<Row>, from: int): seq<Row> {
    if rows == [] then [] else
      Keep(rows[..|rows| - 1], from) + if rows[|rows| - 1].at >= from then [rows[|rows| - 1]] else []
  }

  function Spend(rows: seq<Row>): real {
    if rows == [] then 0.0 else Spend(rows[..|rows| - 1]) + rows[|rows| - 1].amount
  }

  function Failures(rows: seq<Row>): nat {
    if rows == [] then 0 else Failures(rows[..|rows| - 1]) + if rows[|rows| - 1].successful then 0 else 1
  }

  function LastTime(events: seq<PaymentEvent>): Option<int> {
    if events == [] then None else Some(events[|events| - 1].At())
  }

  /** The running aggregates a customer's state carries. */
  datatype Running = Running(totalAmount: real, totalCount: nat, latitudeSum: real, longitudeSum: real,
                             devices: set<string>, merchants: set<string>, last: Option<int>)

  /** The aggregates of a whole log. */
  function RunningOf(past: seq<PaymentEvent>): Running {
    if past == [] then Running(0.0, 0, 0.0, 0.0, {}, {}, None)
    else Include(RunningOf(past[..|past| - 1]), past[|past| - 1])
  }

  function Include(r: Running, e: PaymentEvent): Running {
    Running(r.totalAmount + e.amount, r.totalCount + 1, r.latitudeSum + e.latitude, r.longitudeSum + e.longitude,
            r.devices + {e.deviceId}, r.merchants + {e.merchantId}, Some(e.At()))
  }

  datatype TemporalFeatures = TemporalFeatures(
    amount: real, txCount1m: nat, txCount1h: nat, txCount1d: nat, spend1h: real,
    avgAmountHistory: real, amountToAverageRatio: real, distanceFromTypicalKm: real,
    isNewDevice: bool, isNewMerchant: bool, failedAuthCount1h: nat,
    authenticationFailed: bool, isCardNotPresent: bool, isHighRiskMerchantCategory: bool,
    secondsSinceLastTransaction: real, customerHistoryCount: nat)

  /** Kilometres between two coordinates; the great-circle formula itself is a parameter. */
  type Distance = (real, real, real, real) -> real

  function Mean(total: real, count: nat, otherwise: real): real {
    if count > 0 then total / count as real else otherwise
  }

  function AtLeastOne(x: real): real {
    if x > 1.0 then x else 1.0
  }

  function SecondsSince(last: Option<int>, now: int): real {
    if last.Some? && (now - last.value) < DAY then (now - last.value) as real / 1_000_000.0 else 86_400.0
  }

  /** The feature vector from running aggregates and the rows still in the deque. */
  function Vector(e: PaymentEvent, rows: seq<Row>, r: Running, distance: Distance): TemporalFeatures {
    var inMinute, inHour := Keep(rows, e.At() - MINUTE), Keep(rows, e.At() - HOUR);
    var average := Mean(r.totalAmount, r.totalCount, e.amount);
    TemporalFeatures(
      e.amount, |inMinute|, |inHour|, |rows|, Spend(inHour),
      average, e.amount / AtLeastOne(average),
      distance(Mean(r.latitudeSum, r.totalCount, e.latitude), Mean(r.longitudeSum, r.totalCount, e.longitude), e.latitude, e.longitude),
      e.deviceId !in r.devices, e.merchantId !in r.merchants, Failures(inHour),
      !e.authenticationSuccessful,
      e.authenticationMethod == CardNotPresent || e.authenticationMethod == ThreeDs,
      e.merchantCategory in {"gaming", "luxury", "travel"},
      SecondsSince(r.last, e.At()), r.totalCount)
  }

  /** The features when the first `gone` rows have been evicted. */
  function VectorAfter(past: seq<PaymentEvent>, gone: nat, e: PaymentEvent, distance: Distance): TemporalFeatures {
    Vector(e, Drop(Rows(past), gone), RunningOf(past), distance)
  }

  function Drop(rows: seq<Row>, gone: nat): seq<Row> {
    if gone <= |rows| then rows[gone..] else []
  }

  /** The features recomputed from the whole prior log: every window is cut from all of it. */
  function FromScratch(past: seq<PaymentEvent>, e: PaymentEvent, distance: Distance): TemporalFeatures {
    var minute, hour, day := Keep(Rows(past), e.At() - MINUTE), Keep(Rows(past), e.At() - HOUR), Keep(Rows(past), e.At() - DAY);
    Vector(e, [], RunningOf(past), distance).(
      txCount1m := |minute|, txCount1h := |hour|, txCount1d := |day|, spend1h := Spend(hour), failedAuthCount1h := Failures(hour))
  }

  datatype Temporal = OutOfOrder | Accepted(features: TemporalFeatures)

  /** How many leading rows are before `cutoff`: what one pass of the eviction loop removes. */
  function Leading(rows: seq<Row>, cutoff: int): (n: nat)
    ensures n <= |rows|
  {
    if rows != [] && rows[0].at < cutoff then 1 + Leading(rows[1..], cutoff) else 0
  }

  /** How far a customer's deque has advanced: rows evicted so far, and the latest time of a
      call that was accepted, peeks included. */
  datatype Cursor = Cursor(gone: nat, peak: int)

  function Max(a: int, b: int): int {
    if a > b then a else b
  }

  function Advance(past: seq<PaymentEvent>, cursor: Option<Cursor>, now: int): Cursor {
    var older := Leading(Rows(past), now - DAY);
    match cursor
    case None => Cursor(older, now)
    case Some(c) => Cursor(if c.gone > older then c.gone else older, Max(c.peak, now))
  }

  predicate Regresses(past: seq<PaymentEvent>, e: PaymentEvent) {
    LastTime(past).Some? && e.At() < LastTime(past).value
  }

  /** What `compute` answers, in terms of the customer's log and cursor. */
  function Answer(past: seq<PaymentEvent>, cursor: Option<Cursor>, e: PaymentEvent, distance: Distance): Temporal {
    if Regresses(past, e) then OutOfOrder
    else Accepted(VectorAfter(past, Advance(past, cursor, e.At()).gone, e, distance))
  }

  // ----- lemmas -----

  lemma {:induction false} PastGrows(log: seq<PaymentEvent>, e: PaymentEvent, customer: string)
    ensures Past(log + [e], customer) == if e.customerId == customer then Past(log, customer) + [e] else Past(log, customer)
  {
    assert (log + [e])[..|log|] == log;
  }

  lemma {:induction false} RowsGrow(past: seq<PaymentEvent>, e: PaymentEvent)
    ensures Rows(past + [e]) == Rows(past) + [RowOf(e)]
  {
    assert (past + [e])[..|past|] == past;
  }

  lemma {:induction false} RowsMembers(past: seq<PaymentEvent>)
    ensures |Rows(past)| == |past|
    ensures forall i | 0 <= i < |past| :: Rows(past)[i] == RowOf(past[i])
  {
    if past != [] {
      RowsMembers(past[..|past| - 1]);
    }
  }

  lemma {:induction false} RowsLength(past: seq<PaymentEvent>)
    ensures |Rows(past)| == |past|
  {
    if past != [] {
      RowsLength(past[..|past| - 1]);
    }
  }

  lemma {:induction false} DropGrows(past: seq<PaymentEvent>, e: PaymentEvent, gone: nat)
    requires gone <= |past|
    ensures Drop(Rows(past + [e]), gone) == Drop(Rows(past), gone) + [RowOf(e)]
  {
    RowsGrow(past, e);
    RowsLength(past);
    AppendToTail(Rows(past), RowOf(e), gone);
  }

  predicate Ascending(rows: seq<Row>) {
    forall i, j | 0 <= i < j < |rows| :: rows[i].at <= rows[j].at
  }

  /** In time order, dropping the leading old rows is cutting the window. */
  lemma {:induction false} DropLeading(rows: seq<Row>, cutoff: int)
    requires Ascending(rows)
    ensures Drop(rows, Leading(rows, cutoff)) == Keep(rows, cutoff)
    ensures forall i | 0 <= i < |rows| :: rows[i].at < cutoff <==> i < Leading(rows, cutoff)
  {
    if rows == [] {
    } else if rows[0].at < cutoff {
      DropLeading(rows[1..], cutoff);
      KeepDropsFront(rows, cutoff);
      assert forall i | 0 < i < |rows| :: rows[i] == rows[1..][i - 1];
    } else {
      KeepsAll(rows, cutoff);
    }
  }

  lemma {:induction false} KeepDropsFront(rows: seq<Row>, cutoff: int)
    requires rows != [] && rows[0].at < cutoff
    ensures Keep(rows[1..], cutoff) == Keep(rows, cutoff)
  {
    if |rows| > 1 {
      var before := rows[..|rows| - 1];
      KeepDropsFront(before, cutoff);
      assert rows[1..][..|rows| - 2] == before[1..];
    }
  }

  lemma {:induction false} KeepsAll(rows: seq<Row>, cutoff: int)
    requires Ascending(rows) && (rows == [] || rows[0].at >= cutoff)
    ensures Keep(rows, cutoff) == rows
  {
    if rows != [] {
      KeepsAll(rows[..|rows| - 1], cutoff);
      assert rows == rows[..|rows| - 1] + [rows[|rows| - 1]];
    }
  }

  /** Rows that a deque, advanced to `gone`, still loses at `cutoff`. */
  lemma {:induction false} LeadingAfterDrop(rows: seq<Row>, gone: nat, cutoff: int)
    requires Ascending(rows) && gone <= |rows|
    ensures gone + Leading(rows[gone..], cutoff) == if gone > Leading(rows, cutoff) then gone else Leading(rows, cutoff)
  {
    if gone > 0 {
      if rows[0].at < cutoff {
        LeadingAfterDrop(rows[1..], gone - 1, cutoff);
        assert rows[1..][gone - 1..] == rows[gone..];
      } else if gone < |rows| {
        assert rows[gone..][0] == rows[gone];
      }
    }
  }

  lemma {:induction false} RunningGrows(past: seq<PaymentEvent>, e: PaymentEvent)
    ensures RunningOf(past + [e]) == Include(RunningOf(past), e)
  {
    assert (past + [e])[..|past|] == past;
  }

  function Added(past: seq<PaymentEvent>, part: PaymentEvent -> real): real {
    if past == [] then 0.0 else Added(past[..|past| - 1], part) + part(past[|past| - 1])
  }

  function AmountPart(e: PaymentEvent): real { e.amount }
  function LatitudePart(e: PaymentEvent): real { e.latitude }
  function LongitudePart(e: PaymentEvent): real { e.longitude }

  /** The aggregates mean what they say: the sums, the count, the devices and merchants seen, the
      last time. */
  lemma {:induction false} RunningMeaning(past: seq<PaymentEvent>)
    ensures RunningOf(past).totalCount == |past| && RunningOf(past).totalAmount == Added(past, AmountPart)
    ensures RunningOf(past).latitudeSum == Added(past, LatitudePart) && RunningOf(past).longitudeSum == Added(past, LongitudePart)
    ensures RunningOf(past).devices == set e | e in past :: e.deviceId
    ensures RunningOf(past).merchants == set e | e in past :: e.merchantId
    ensures RunningOf(past).last == LastTime(past)
  {
    if past != [] {
      var before, last := past[..|past| - 1], past[|past| - 1];
      RunningMeaning(before);
      assert forall e :: e in past <==> e in before || e == last;
    }
  }

  /** Cutting twice is cutting at the later point. */
  lemma {:induction false} KeepKeep(rows: seq<Row>, a: int, b: int)
    ensures Keep(Keep(rows, a), b) == Keep(rows, Max(a, b))
  {
    if rows != [] {
      var before, last := rows[..|rows| - 1], rows[|rows| - 1];
      KeepKeep(before, a, b);
      var kept := Keep(before, a) + [last];
      assert kept[..|kept| - 1] == Keep(before, a);
      assert Keep(before, a) + [] == Keep(before, a);
    }
  }

  lemma {:induction false} KeepShrinks(rows: seq<Row>, a: int, b: int)
    requires a <= b
    ensures |Keep(rows, b)| <= |Keep(rows, a)| <= |rows|
    ensures Failures(Keep(rows, a)) <= |Keep(rows, a)|
  {
    if rows != [] {
      KeepShrinks(rows[..|rows| - 1], a, b);
      FailuresCounted(Keep(rows, a));
    }
  }

  lemma {:induction false} FailuresCounted(rows: seq<Row>)
    ensures Failures(rows) <= |rows|
  {
    if rows != [] {
      FailuresCounted(rows[..|rows| - 1]);
    }
  }

  // ----- what the features mean -----

  /** Payments in time order. */
  predicate Chronological(past: seq<PaymentEvent>) {
    past == [] || (Chronological(past[..|past| - 1]) && !Regresses(past[..|past| - 1], past[|past| - 1]))
  }

  lemma {:induction false} ChronologicalPairs(past: seq<PaymentEvent>, i: nat, j: nat)
    requires Chronological(past) && i <= j < |past|
    ensures past[i].At() <= past[j].At()
  {
    if i < j {
      var before := past[..|past| - 1];
      if j < |before| {
        ChronologicalPairs(before, i, j);
      } else {
        ChronologicalPairs(before, i, |before| - 1);
      }
    }
  }

  /** A cursor a sequence of calls can produce: it evicted only rows more than a day older
      than its peak. */
  predicate Reachable(past: seq<PaymentEvent>, cursor: Cursor) {
    cursor.gone <= |past| && (cursor.gone > 0 ==> past[cursor.gone - 1].At() < cursor.peak - DAY)
  }

  lemma {:induction false} ChronologicalGrows(past: seq<PaymentEvent>, e: PaymentEvent)
    ensures Chronological(past + [e]) <==> Chronological(past) && !Regresses(past, e)
  {
    assert (past + [e])[..|past|] == past;
  }

  /** A deque advanced just to the day before `e` gives the recomputation from the whole log. */
  lemma {:induction false} DayWindowIsExact(past: seq<PaymentEvent>, e: PaymentEvent, distance: Distance)
    requires Ascending(Rows(past))
    ensures VectorAfter(past, Leading(Rows(past), e.At() - DAY), e, distance) == FromScratch(past, e, distance)
  {
    DropLeading(Rows(past), e.At() - DAY);
    KeepKeep(Rows(past), e.At() - DAY, e.At() - MINUTE);
    KeepKeep(Rows(past), e.At() - DAY, e.At() - HOUR);
  }

  lemma {:induction false} RowsAscend(past: seq<PaymentEvent>)
    requires Chronological(past)
    ensures Ascending(Rows(past)) && |Rows(past)| == |past|
  {
    RowsMembers(past);
    forall i, j | 0 <= i < j < |past|
      ensures past[i].At() <= past[j].At()
    {
      ChronologicalPairs(past, i, j);
    }
  }

  /** The day count tells how far the deque has advanced. */
  lemma EvictionShows(past: seq<PaymentEvent>, g: nat, k: nat, e: PaymentEvent, distance: Distance)
    requires g <= |past| && k <= |past|
    ensures VectorAfter(past, g, e, distance) == VectorAfter(past, k, e, distance) <==> g == k
  {
    RowsMembers(past);
    assert VectorAfter(past, g, e, distance).txCount1d == |past| - g;
    assert VectorAfter(past, k, e, distance).txCount1d == |past| - k;
  }

  /** The features equal the recomputation exactly when every row evicted so far is more than a
      day older than the event. */
  lemma {:induction false} ExactUnlessOverEvicted(past: seq<PaymentEvent>, cursor: Cursor, e: PaymentEvent, distance: Distance)
    requires Chronological(past) && cursor.gone <= |past|
    ensures VectorAfter(past, Advance(past, Some(cursor), e.At()).gone, e, distance) == FromScratch(past, e, distance)
            <==> (cursor.gone > 0 ==> past[cursor.gone - 1].At() < e.At() - DAY)
  {
    RowsAscend(past);
    DayWindowIsExact(past, e, distance);
    LastEvictedIsOld(past, cursor.gone, e.At() - DAY);
    EvictionShows(past, Advance(past, Some(cursor), e.At()).gone, Leading(Rows(past), e.At() - DAY), e, distance);
  }

  lemma {:induction false} LastEvictedIsOld(past: seq<PaymentEvent>, gone: nat, cutoff: int)
    requires Chronological(past) && gone <= |past|
    ensures gone <= Leading(Rows(past), cutoff) <==> (gone > 0 ==> past[gone - 1].At() < cutoff)
  {
    RowsAscend(past);
    RowsMembers(past);
    DropLeading(Rows(past), cutoff);
    if gone > 0 {
      assert Rows(past)[gone - 1].at == past[gone - 1].At();
    }
  }

  /** Evicting at `cutoff` a deque already advanced to `gone` advances it to the larger mark. */
  lemma {:induction false} EvictDeque(past: seq<PaymentEvent>, gone: nat, cutoff: int)
    requires Chronological(past) && gone <= |past|
    ensures Drop(Drop(Rows(past), gone), Leading(Drop(Rows(past), gone), cutoff)) ==
            Drop(Rows(past), if gone > Leading(Rows(past), cutoff) then gone else Leading(Rows(past), cutoff))
  {
    RowsAscend(past);
    LeadingAfterDrop(Rows(past), gone, cutoff);
    DropDrop(Rows(past), gone, Leading(Rows(past)[gone..], cutoff));
  }

  lemma DropDrop(rows: seq<Row>, g: nat, k: nat)
    requires g + k <= |rows|
    ensures Drop(Drop(rows, g), k) == Drop(rows, g + k)
  {
    assert rows[g..][k..] == rows[g + k..];
  }

  lemma {:induction false} AdvanceReachable(past: seq<PaymentEvent>, cursor: Cursor, now: int)
    requires Chronological(past) && Reachable(past, cursor)
    ensures Reachable(past, Advance(past, Some(cursor), now))
  {
    RowsLength(past);
    LastEvictedIsOld(past, Leading(Rows(past), now - DAY), now - DAY);
  }

  /** While the customer's accepted calls, peeks included, do not go back in time, every answer
      is the recomputation from the whole prior log. */
  lemma {:induction false} InOrderIsExact(past: seq<PaymentEvent>, cursor: Option<Cursor>, e: PaymentEvent, distance: Distance)
    requires Chronological(past) && !Regresses(past, e)
    requires cursor.Some? ==> Reachable(past, cursor.value) && cursor.value.peak <= e.At()
    ensures Answer(past, cursor, e, distance) == Accepted(FromScratch(past, e, distance))
  {
    match cursor
    case None =>
      RowsAscend(past);
      DayWindowIsExact(past, e, distance);
    case Some(c) =>
      ExactUnlessOverEvicted(past, c, e, distance);
  }

  /** A peek into the future is enough to break it: the next payment loses its day window. */
  lemma PeekCanEvict(p: PaymentEvent, e: PaymentEvent, distance: Distance)
    requires p.At() <= e.At() <= p.At() + DAY
    ensures var cursor := Advance([p], None, p.At() + DAY + 1);
            Reachable([p], cursor) && Answer([p], Some(cursor), e, distance) != Accepted(FromScratch([p], e, distance))
  {
    RowsMembers([p]);
    assert Leading(Rows([p]), p.At() + 1) == 1 by { assert Rows([p])[0].at == p.At(); }
    ExactUnlessOverEvicted([p], Advance([p], None, p.At() + DAY + 1), e, distance);
  }

  // ----- the features, from the payments themselves -----

  /** The payments at or after `from`, by position. */
  function Since(past: seq<PaymentEvent>, from: int): set<int> {
    set i | 0 <= i < |past| && past[i].At() >= from
  }

  function FailedSince(past: seq<PaymentEvent>, from: int): set<int> {
    set i | 0 <= i < |past| && past[i].At() >= from && !past[i].authenticationSuccessful
  }

  function AmountSince(from: int): PaymentEvent -> real {
    (e: PaymentEvent) => if e.At() >= from then e.amount else 0.0
  }

  lemma {:induction false} SinceGrows(past: seq<PaymentEvent>, from: int)
    requires past != []
    ensures var before, k := past[..|past| - 1], |past| - 1;
            && Since(past, from) == Since(before, from) + (if past[k].At() >= from then {k} else {})
            && FailedSince(past, from) == FailedSince(before, from)
               + (if past[k].At() >= from && !past[k].authenticationSuccessful then {k} else {})
  {
  }

  /** A window cut from the rows holds what the payments since its start amount to. */
  lemma {:induction false} WindowMeans(past: seq<PaymentEvent>, from: int)
    ensures var window := Keep(Rows(past), from);
            |window| == |Since(past, from)| && Failures(window) == |FailedSince(past, from)| && Spend(window) == Added(past, AmountSince(from))
  {
    if past != [] {
      var before, last := past[..|past| - 1], past[|past| - 1];
      WindowMeans(before, from);
      SinceGrows(past, from);
      KeepGrows(Rows(before), RowOf(last), from);
    }
  }

  lemma {:induction false} KeepGrows(rows: seq<Row>, r: Row, from: int)
    ensures var window, wider := Keep(rows, from), Keep(rows + [r], from);
            && |wider| == |window| + (if r.at >= from then 1 else 0)
            && Spend(wider) == Spend(window) + (if r.at >= from then r.amount else 0.0)
            && Failures(wider) == Failures(window) + (if r.at >= from && !r.successful then 1 else 0)
  {
    assert (rows + [r])[..|rows|] == rows;
    WindowGrows(Keep(rows, from), r);
    assert Keep(rows, from) + [] == Keep(rows, from);
  }

  lemma {:induction false} WindowGrows(window: seq<Row>, r: Row)
    ensures Spend(window + [r]) == Spend(window) + r.amount
    ensures Failures(window + [r]) == Failures(window) + if r.successful then 0 else 1
  {
    assert (window + [r])[..|window|] == window;
  }

  /** The window features recomputed from the log, read off the customer's payments one by one. */
  lemma {:induction false} WindowsMean(past: seq<PaymentEvent>, e: PaymentEvent, distance: Distance)
    ensures var f := FromScratch(past, e, distance);
            && f.txCount1m == |Since(past, e.At() - 60_000_000)| && f.txCount1h == |Since(past, e.At() - 3_600_000_000)|
            && f.txCount1d == |Since(past, e.At() - 86_400_000_000)|
            && f.spend1h == Added(past, AmountSince(e.At() - 3_600_000_000))
            && f.failedAuthCount1h == |FailedSince(past, e.At() - 3_600_000_000)|
  {
    WindowMeans(past, e.At() - 60_000_000);
    WindowMeans(past, e.At() - 3_600_000_000);
    WindowMeans(past, e.At() - 86_400_000_000);
  }

  /** And the history count and novelty. */
  lemma {:induction false} FeaturesMean(past: seq<PaymentEvent>, e: PaymentEvent, distance: Distance)
    ensures var f := FromScratch(past, e, distance);
            && f.txCount1m == |Since(past, e.At() - 60_000_000)| && f.txCount1h == |Since(past, e.At() - 3_600_000_000)|
            && f.txCount1d == |Since(past, e.At() - 86_400_000_000)| && f.customerHistoryCount == |past|
            && f.spend1h == Added(past, AmountSince(e.At() - 3_600_000_000))
            && f.failedAuthCount1h == |FailedSince(past, e.At() - 3_600_000_000)|
            && (f.isNewDevice <==> forall p | p in past :: p.deviceId != e.deviceId)
            && (f.isNewMerchant <==> forall p | p in past :: p.merchantId != e.merchantId)
  {
    WindowsMean(past, e, distance);
    RunningMeaning(past);
  }

  /** The features that describe the payment itself, whatever has been evicted. */
  lemma {:induction false} PaymentFacts(past: seq<PaymentEvent>, gone: nat, e: PaymentEvent, distance: Distance)
    ensures var f := VectorAfter(past, gone, e, distance);
            && f.amount == e.amount
            && f.avgAmountHistory == (if past == [] then e.amount else Added(past, AmountPart) / |past| as real)
            && f.amountToAverageRatio * (if f.avgAmountHistory > 1.0 then f.avgAmountHistory else 1.0) == e.amount
            && f.authenticationFailed == !e.authenticationSuccessful
            && (f.isCardNotPresent <==> e.authenticationMethod.CardNotPresent? || e.authenticationMethod.ThreeDs?)
            && (f.isHighRiskMerchantCategory <==>
                e.merchantCategory == "gaming" || e.merchantCategory == "luxury" || e.merchantCategory == "travel")
  {
    RunningMeaning(past);
  }

  /** The averages compare with the whole history; without history a payment is its own typical one. */
  lemma {:induction false} AveragesMean(past: seq<PaymentEvent>, e: PaymentEvent, distance: Distance)
    ensures var f, n := FromScratch(past, e, distance), |past| as real;
            if past == [] then
              && f.avgAmountHistory == e.amount && f.secondsSinceLastTransaction == 86_400.0
              && f.distanceFromTypicalKm == distance(e.latitude, e.longitude, e.latitude, e.longitude)
            else
              var gap := (e.At() - past[|past| - 1].At()) as real / 1_000_000.0;
              && f.avgAmountHistory == Added(past, AmountPart) / n
              && f.secondsSinceLastTransaction == (if gap < 86_400.0 then gap else 86_400.0)
              && f.distanceFromTypicalKm == distance(Added(past, LatitudePart) / n, Added(past, LongitudePart) / n, e.latitude, e.longitude)
  {
    RunningMeaning(past);
  }

  // ----- payments at the very time of the event -----

  function StrictlyEarlier(past: seq<PaymentEvent>, at: int): seq<PaymentEvent> {
    if past == [] then [] else
      StrictlyEarlier(past[..|past| - 1], at) + if past[|past| - 1].At() < at then [past[|past| - 1]] else []
  }

  lemma {:induction false} EarlierShrinks(past: seq<PaymentEvent>, at: int)
    ensures |StrictlyEarlier(past, at)| <= |past|
    ensures |StrictlyEarlier(past, at)| == |past| <==> forall p | p in past :: p.At() < at
    ensures |StrictlyEarlier(past, at)| == |past| ==> StrictlyEarlier(past, at) == past
  {
    if past != [] {
      EarlierShrinks(past[..|past| - 1], at);
      SplitLast(past);
    }
  }

  /** Reading only strictly earlier payments would give the same features exactly when there are
      no others. */
  lemma {:induction false} OnlyEarlierCount(past: seq<PaymentEvent>, e: PaymentEvent, distance: Distance)
    ensures FromScratch(past, e, distance) == FromScratch(StrictlyEarlier(past, e.At()), e, distance)
            <==> forall p | p in past :: p.At() < e.At()
  {
    EarlierShrinks(past, e.At());
    RunningMeaning(past);
    RunningMeaning(StrictlyEarlier(past, e.At()));
  }

  /** For a payment the store accepts, that is exactly when the customer's last payment is not at
      the same time. */
  lemma {:induction false} EqualTimesMatter(past: seq<PaymentEvent>, e: PaymentEvent, distance: Distance)
    requires Chronological(past) && !Regresses(past, e)
    ensures FromScratch(past, e, distance) == FromScratch(StrictlyEarlier(past, e.At()), e, distance) <==> LastTime(past) != Some(e.At())
    ensures (forall p | p in past :: p.At() != e.At()) <==> LastTime(past) != Some(e.At())
  {
    OnlyEarlierCount(past, e, distance);
    forall p | p in past
      ensures p.At() <= past[|past| - 1].At()
    {
      var i :| 0 <= i < |past| && past[i] == p;
      ChronologicalPairs(past, i, |past| - 1);
    }
  }

  /** One payment at the same time, processed before, is counted. */
  lemma {:induction false} EqualTimeIsCounted(p: PaymentEvent, e: PaymentEvent, distance: Distance)
    requires p.At() == e.At()
    ensures FromScratch([p], e, distance).txCount1m == 1
    ensures FromScratch(StrictlyEarlier([p], e.At()), e, distance).txCount1m == 0
  {
    FeaturesMean([p], e, distance);
    assert Since([p], e.At() - MINUTE) == {0};
    assert StrictlyEarlier([p], e.At()) == [];
  }

  /** Window counts nest, and no window holds more than the history. */
  lemma WindowsNest(past: seq<PaymentEvent>, gone: nat, e: PaymentEvent, distance: Distance)
    ensures var f := VectorAfter(past, gone, e, distance);
            f.txCount1m <= f.txCount1h <= f.txCount1d <= f.customerHistoryCount && f.failedAuthCount1h <= f.txCount1h
  {
    KeepShrinks(Drop(Rows(past), gone), e.At() - HOUR, e.At() - MINUTE);
    RowsMembers(past);
    RunningMeaning(past);
  }
}
