/** The chronological split of a replayed dataset into training, validation and test parts. */
module Split {
  import opened Domain
  import opened ReplaySpec

  datatype Parts<T> = BadFractions | Parts(train: seq<T>, validation: seq<T>, test: seq<T>)

  predicate GoodFractions(train: real, validation: real) {
    0.0 < train < train + validation < 1.0
  }

  /** `int(n * fraction)` for a non-negative product. */
  function Cut(n: nat, fraction: real): (k: int)
    ensures k as real <= n as real * fraction < (k + 1) as real
  {
    (n as real * fraction).Floor
  }

  lemma {:induction false} Scaled(n: nat, x: real, y: real)
    requires 0.0 <= x <= y <= 1.0
    ensures 0.0 <= n as real * x <= n as real * y <= n as real
    ensures x < y && n > 0 ==> n as real * x < n as real * y
  {
    assert n as real * (y - x) >= 0.0;
    assert n as real * (1.0 - y) >= 0.0;
  }

  lemma {:induction false} CutsInOrder(n: nat, train: real, validation: real)
    requires GoodFractions(train, validation)
    ensures 0 <= Cut(n, train) <= Cut(n, train + validation) <= n
    ensures n > 0 ==> Cut(n, train + validation) < n
  {
    Scaled(n, train, train + validation);
    Scaled(n, train + validation, 1.0);
  }

  function ChronologicalSplit<T>(records: seq<T>, train: real, validation: real): Parts<T> {
    if !GoodFractions(train, validation) then BadFractions else
      CutsInOrder(|records|, train, validation);
      var a, b := Cut(|records|, train), Cut(|records|, train + validation);
      Parts(records[..a], records[a..b], records[b..])
  }

  predicate TimeOrdered<F>(records: seq<FeatureRecord<F>>) {
    forall i, j | 0 <= i <= j < |records| :: records[i].event.At() <= records[j].event.At()
  }

  lemma {:induction false} ReplayIsChronological<F>(events: seq<PaymentEvent>, delay: int, f: Extractor<F>)
    ensures TimeOrdered(Replay(events, delay, f))
  {
    var s, records := Sort(events), Replay(events, delay, f);
    SortOrders(events);
    forall i, j | 0 <= i <= j < |records|
      ensures records[i].event.At() <= records[j].event.At()
    {
      OrderedTimes(s, i, j);
      RecordedEvent(s, i, delay, f);
      RecordedEvent(s, j, delay, f);
    }
  }

  lemma {:induction false} ThreeSlices<T>(s: seq<T>, a: nat, b: nat)
    requires a <= b <= |s|
    ensures s[..a] + s[a..b] + s[b..] == s
  {
  }

  lemma {:induction false} SlicesInOrder<F>(records: seq<FeatureRecord<F>>, a: nat, b: nat, i: nat, j: nat)
    requires a <= b <= |records| && TimeOrdered(records)
    ensures var x, y, z := records[..a], records[a..b], records[b..];
            && (i < |x| && j < |y| ==> x[i].event.At() <= y[j].event.At())
            && (i < |x| && j < |z| ==> x[i].event.At() <= z[j].event.At())
            && (i < |y| && j < |z| ==> y[i].event.At() <= z[j].event.At())
  {
  }

  /** The parts make up the dataset in order, and no event of one part is later than an event of
      a following part. */
  lemma {:induction false} SplitIsChronological<F>(events: seq<PaymentEvent>, delay: int, f: Extractor<F>,
                                                     train: real, validation: real, i: nat, j: nat)
    requires GoodFractions(train, validation)
    ensures var records := Replay(events, delay, f);
            var p := ChronologicalSplit(records, train, validation);
            && p.Parts? && p.train + p.validation + p.test == records
            && (i < |p.train| && j < |p.validation| ==> p.train[i].event.At() <= p.validation[j].event.At())
            && (i < |p.train| && j < |p.test| ==> p.train[i].event.At() <= p.test[j].event.At())
            && (i < |p.validation| && j < |p.test| ==> p.validation[i].event.At() <= p.test[j].event.At())
  {
    var n := |Replay(events, delay, f)|;
    CutsInOrder(n, train, validation);
    var a, b := Cut(n, train), Cut(n, train + validation);
    ThreeSlices(Replay(events, delay, f), a, b);
    ReplayIsChronological(events, delay, f);
    SlicesInOrder(Replay(events, delay, f), a, b, i, j);
  }

  /** A whole number lies above `low` and not above `high`. */
  predicate WholeWithin(k: int, low: real, high: real) {
    low < k as real <= high
  }

  ghost predicate HoldsWhole(low: real, high: real) {
    exists k {:trigger WholeWithin(k, low, high)} :: WholeWithin(k, low, high)
  }

  lemma {:induction false} CutsApart(a: int, b: int, low: real, high: real)
    requires a as real <= low < (a + 1) as real && b as real <= high < (b + 1) as real
    ensures a < b <==> HoldsWhole(low, high)
  {
    if a < b {
      assert (a + 1) as real <= b as real;
      assert WholeWithin(b, low, high);
    }
    if k :| WholeWithin(k, low, high) {
      assert a as real < k as real < (b + 1) as real;
      assert a < k < b + 1;
    }
  }

  /** The training fraction of `n` records comes to a whole one. */
  predicate TrainFits(n: nat, train: real) {
    n as real * train >= 1.0
  }

  /** A whole number of records lies past the training fraction of `n` but within both fractions. */
  ghost predicate ValidationFits(n: nat, train: real, validation: real) {
    HoldsWhole(n as real * train, n as real * (train + validation))
  }

  lemma {:induction false} CutsFit(n: nat, train: real, validation: real)
    ensures Cut(n, train) < Cut(n, train + validation) <==> ValidationFits(n, train, validation)
    ensures Cut(n, train) >= 1 <==> TrainFits(n, train)
  {
    CutsApart(Cut(n, train), Cut(n, train + validation), n as real * train, n as real * (train + validation));
  }

  lemma {:induction false} SlicesFilled<T>(s: seq<T>, a: nat, b: nat)
    requires a <= b <= |s| && (s != [] ==> b < |s|)
    ensures (s[..a] != [] <==> a >= 1) && (s[a..b] != [] <==> a < b) && (s[b..] != [] <==> s != [])
  {
    assert |s[..a]| == a && |s[a..b]| == b - a && |s[b..]| == |s| - b;
  }

  /** Fractions are refused exactly when either is not positive or they leave nothing for the test part. */
  lemma {:induction false} FractionsAccepted<T>(records: seq<T>, train: real, validation: real)
    ensures ChronologicalSplit(records, train, validation).BadFractions? <==> train <= 0.0 || validation <= 0.0 || train + validation >= 1.0
  {
  }

  /** Where the cuts lie: the training part, and training and validation together, are the largest
      whole numbers of records within their fractions. */
  lemma {:induction false} CutsLie<T>(records: seq<T>, train: real, validation: real)
    requires GoodFractions(train, validation)
    ensures var parts, n := ChronologicalSplit(records, train, validation), |records| as real;
            && |parts.train| as real <= n * train < (|parts.train| + 1) as real
            && (|parts.train| + |parts.validation|) as real <= n * (train + validation) < (|parts.train| + |parts.validation| + 1) as real
  {
    CutsInOrder(|records|, train, validation);
  }

  /** Accepted fractions do not promise non-empty parts: the exact condition for each part, and so
      for all three at once. */
  lemma {:induction false} PartsFilled<T>(records: seq<T>, train: real, validation: real)
    requires GoodFractions(train, validation)
    ensures var parts, n := ChronologicalSplit(records, train, validation), |records|;
            && (parts.train != [] <==> TrainFits(n, train))
            && (parts.validation != [] <==> ValidationFits(n, train, validation))
            && (parts.test != [] <==> records != [])
            && (parts.train != [] && parts.validation != [] && parts.test != [] <==>
                TrainFits(n, train) && ValidationFits(n, train, validation))
  {
    var n := |records|;
    CutsInOrder(n, train, validation);
    CutsFit(n, train, validation);
    SlicesFilled(records, Cut(n, train), Cut(n, train + validation));
    assert Cut(n, train) >= 1 ==> records != [];
  }

  /** Two records, accepted fractions, and nothing to validate on. */
  lemma {:induction false} ValidationCanBeEmpty<T>(records: seq<T>)
    requires |records| == 2
    ensures GoodFractions(0.65, 0.15) && ChronologicalSplit(records, 0.65, 0.15).validation == []
  {
    assert Cut(2, 0.65) == 1 && Cut(2, 0.80) == 1;
  }
}
