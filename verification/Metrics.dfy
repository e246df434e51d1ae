/** Fraud accounting and calibration of scored, labelled payments. */
module Metrics {
  import opened Domain
  import opened Decisioning

  // ----- sums over classes of rows -----

  /** A sum over a class is the sum over its two halves. */
  lemma {:induction false} SumSplits<T>(s: seq<T>, p: T -> bool, q: T -> bool, r: T -> bool, f: T -> real)
    requires forall x | x in s :: !(p(x) && q(x)) && (r(x) <==> p(x) || q(x))
    ensures SumWhere(s, r, f) == SumWhere(s, p, f) + SumWhere(s, q, f)
    ensures CountWhere(s, r) == CountWhere(s, p) + CountWhere(s, q)
  {
    if s != [] {
      SumSplits(s[..|s| - 1], p, q, r, f);
    }
  }

  // ----- fraud and review accounting -----

  function Fraudulent(): Row -> bool {
    (r: Row) => r.Fraud()
  }

  function Flagged(t: Cutoffs): Row -> bool {
    (r: Row) => !r.Fraud() && DecideWith(r.score, t) != Approve
  }

  datatype Accounts = Accounts(fraudAmount: real, fraudCapturedAmount: real, falsePositives: nat, manualReviews: nat,
                               decided: nat, breakdown: CostBreakdown)
  {
    function FraudCaptureRate(): real {
      fraudCapturedAmount / (if fraudAmount > 1.0 then fraudAmount else 1.0)
    }

    function ReviewShare(): real {
      manualReviews as real / (if decided > 1 then decided else 1) as real
    }
  }

  /** The business half of the metrics report. */
  function AccountsOf(rows: seq<Row>, c: Costs, t: Cutoffs): Accounts {
    Accounts(SumWhere(rows, Fraudulent(), Amount), SumWhere(rows, Class(t, Decline, true), Amount), CountWhere(rows, Flagged(t)),
             CountWhere(rows, Decided(t, Review)), |rows|, Books(rows, c, t))
  }

  /** What the report counts, by score and label: fraud is captured from the decline threshold on, a
      good payment is a false positive from the review threshold on, and a review is in between. */
  lemma {:induction false} AccountsMean(rows: seq<Row>, c: CostAssumptions, t: DecisionThresholds)
    ensures var a := AccountsOf(rows, c, t);
            && a.fraudAmount == SumWhere(rows, (r: Row) => r.fraudLabel != 0, Amount)
            && a.fraudCapturedAmount == SumWhere(rows, (r: Row) => r.fraudLabel != 0 && r.score >= t.decline, Amount)
            && a.falsePositives == CountWhere(rows, (r: Row) => r.fraudLabel == 0 && r.score >= t.review)
            && a.manualReviews == CountWhere(rows, (r: Row) => t.review <= r.score < t.decline) && a.decided == |rows|
            && a.FraudCaptureRate() * (if a.fraudAmount > 1.0 then a.fraudAmount else 1.0) == a.fraudCapturedAmount
            && a.ReviewShare() * (if |rows| > 1 then |rows| else 1) as real == a.manualReviews as real
  {
    SameSum(rows, Fraudulent(), (r: Row) => r.fraudLabel != 0);
    SameSum(rows, Class(t, Decline, true), (r: Row) => r.fraudLabel != 0 && r.score >= t.decline);
    SameSum(rows, Flagged(t), (r: Row) => r.fraudLabel == 0 && r.score >= t.review);
    SameSum(rows, Decided(t, Review), (r: Row) => t.review <= r.score < t.decline);
  }

  lemma {:induction false} SameSum(rows: seq<Row>, p: Row -> bool, q: Row -> bool)
    requires forall r :: p(r) == q(r)
    ensures SumWhere(rows, p, Amount) == SumWhere(rows, q, Amount) && CountWhere(rows, p) == CountWhere(rows, q)
  {
    if rows != [] {
      SameSum(rows[..|rows| - 1], p, q);
    }
  }

  /** Every fraud amount is captured, reviewed or approved; every good payment stopped was
      reviewed or declined. */
  lemma {:induction false} AmountsReconcile(rows: seq<Row>, t: DecisionThresholds)
    ensures SumWhere(rows, Fraudulent(), Amount) ==
            SumWhere(rows, Class(t, Decline, true), Amount) + SumWhere(rows, Class(t, Review, true), Amount)
            + SumWhere(rows, Class(t, Approve, true), Amount)
    ensures CountWhere(rows, Flagged(t)) == CountWhere(rows, Class(t, Review, false)) + CountWhere(rows, Class(t, Decline, false))
  {
    var stopped := (r: Row) => r.Fraud() && DecideWith(r.score, t) != Approve;
    SumSplits(rows, stopped, Class(t, Approve, true), Fraudulent(), Amount);
    SumSplits(rows, Class(t, Decline, true), Class(t, Review, true), stopped, Amount);
    SumSplits(rows, Class(t, Review, false), Class(t, Decline, false), Flagged(t), Amount);
  }

  /** The breakdown the reported amounts and counts imply: fraud is lost unless captured, review
      recovers its share of what it sees, and every good payment stopped is charged as reviewed
      or as declined. */
  function Implied(a: Accounts, reviewedFraud: real, reviewedGood: nat, c: Costs): CostBreakdown {
    CostBreakdown(
      c.fraudLossRate * (a.fraudAmount - a.fraudCapturedAmount - c.reviewFraudCaptureRate * reviewedFraud),
      c.falsePositiveReviewCost * reviewedGood as real + c.falsePositiveDeclineCost * (a.falsePositives - reviewedGood) as real,
      c.manualReviewCost * a.manualReviews as real,
      c.operationalCost * a.decided as real)
  }

  function ImpliedOf(rows: seq<Row>, c: Costs, t: Cutoffs): CostBreakdown {
    Implied(AccountsOf(rows, c, t), SumWhere(rows, Class(t, Review, true), Amount), CountWhere(rows, Class(t, Review, false)), c)
  }

  lemma LossFromCaptured(rate: real, capture: real, approved: real, reviewed: real, declined: real)
    ensures rate * (approved + (1.0 - capture) * reviewed) == rate * (declined + reviewed + approved - declined - capture * reviewed)
  {
    assert (1.0 - capture) * reviewed == reviewed - capture * reviewed;
  }

  lemma {:induction false} LossReconciles(rows: seq<Row>, c: CostAssumptions, t: DecisionThresholds)
    ensures Books(rows, c, t).fraudLoss == ImpliedOf(rows, c, t).fraudLoss
  {
    AmountsReconcile(rows, t);
    LossFromCaptured(c.fraudLossRate, c.reviewFraudCaptureRate, SumWhere(rows, Class(t, Approve, true), Amount),
                     SumWhere(rows, Class(t, Review, true), Amount), SumWhere(rows, Class(t, Decline, true), Amount));
  }

  lemma {:induction false} TwoUnits(n: nat, m: nat, all: nat, a: real, b: real)
    requires all == n + m
    ensures Times(n, a) + Times(m, b) == a * n as real + b * (all - n) as real
  {
    TimesIsProduct(n, a);
    TimesIsProduct(m, b);
  }

  lemma {:induction false} FrictionReconciles(rows: seq<Row>, c: CostAssumptions, t: DecisionThresholds)
    ensures Books(rows, c, t).falsePositiveCost == ImpliedOf(rows, c, t).falsePositiveCost
  {
    var reviewed, declined := CountWhere(rows, Class(t, Review, false)), CountWhere(rows, Class(t, Decline, false));
    var stopped := CountWhere(rows, Flagged(t));
    assert stopped == reviewed + declined by {
      AmountsReconcile(rows, t);
    }
    TwoUnits(reviewed, declined, stopped, c.falsePositiveReviewCost, c.falsePositiveDeclineCost);
  }

  lemma {:induction false} ChargesReconcile(rows: seq<Row>, c: CostAssumptions, t: DecisionThresholds)
    ensures Books(rows, c, t).manualReviewCost == ImpliedOf(rows, c, t).manualReviewCost
    ensures Books(rows, c, t).operationalCost == ImpliedOf(rows, c, t).operationalCost
  {
    TimesIsProduct(CountWhere(rows, Decided(t, Review)), c.manualReviewCost);
    TimesIsProduct(|rows|, c.operationalCost);
  }

  /** The reported breakdown, item by item and in total, is the implied one. */
  lemma {:induction false} BreakdownReconciles(rows: seq<Row>, c: CostAssumptions, t: DecisionThresholds)
    ensures AccountsOf(rows, c, t).breakdown == ImpliedOf(rows, c, t)
    ensures var implied := ImpliedOf(rows, c, t);
            AccountsOf(rows, c, t).breakdown.Total() ==
            implied.fraudLoss + implied.falsePositiveCost + implied.manualReviewCost + implied.operationalCost
  {
    LossReconciles(rows, c, t);
    FrictionReconciles(rows, c, t);
    ChargesReconcile(rows, c, t);
  }

  lemma {:induction false} SumNonNegative(rows: seq<Row>, p: Row -> bool)
    requires forall r | r in rows :: r.amount >= 0.0
    ensures SumWhere(rows, p, Amount) >= 0.0
  {
    if rows != [] {
      SumNonNegative(rows[..|rows| - 1], p);
    }
  }

  lemma {:induction false} CountAtMost(rows: seq<Row>, p: Row -> bool)
    ensures CountWhere(rows, p) <= |rows|
  {
    if rows != [] {
      CountAtMost(rows[..|rows| - 1], p);
    }
  }

  lemma {:induction false} QuotientInUnit(part: real, whole: real)
    requires 0.0 <= part <= whole && whole > 0.0
    ensures 0.0 <= part / whole <= 1.0
  {
  }

  /** Both reported rates lie in [0, 1]. */
  lemma {:induction false} RatesInUnit(rows: seq<Row>, c: CostAssumptions, t: DecisionThresholds)
    requires forall r | r in rows :: r.amount >= 0.0
    ensures 0.0 <= AccountsOf(rows, c, t).FraudCaptureRate() <= 1.0
    ensures 0.0 <= AccountsOf(rows, c, t).ReviewShare() <= 1.0
  {
    AmountsReconcile(rows, t);
    SumNonNegative(rows, Class(t, Decline, true));
    SumNonNegative(rows, Class(t, Review, true));
    SumNonNegative(rows, Class(t, Approve, true));
    CountAtMost(rows, Decided(t, Review));
    var a := AccountsOf(rows, c, t);
    QuotientInUnit(a.fraudCapturedAmount, if a.fraudAmount > 1.0 then a.fraudAmount else 1.0);
    QuotientInUnit(a.manualReviews as real, (if a.decided > 1 then a.decided else 1) as real);
  }

  // ----- calibration -----

  function Edge(k: nat): real {
    k as real / 10.0
  }

  /** Row in bin `k` of ten: its lower edge included, its upper edge only in the last bin. */
  predicate InBin(k: nat, score: real) {
    Edge(k) <= score && (if Edge(k + 1) == 1.0 then score <= 1.0 else score < Edge(k + 1))
  }

  /** Each score in [0, 1] falls in exactly one bin. */
  lemma ExactlyOneBin(score: real)
    requires 0.0 <= score <= 1.0
    ensures exists k: nat :: k < 10 && InBin(k, score)
    ensures forall k: nat | k < 10 :: InBin(k, score) <==> k == if score == 1.0 then 9 else (score * 10.0).Floor
  {
    var k := if score == 1.0 then 9 else (score * 10.0).Floor;
    assert k < 10 && InBin(k, score);
  }

  function Binned(k: nat): Row -> bool {
    (r: Row) => InBin(k, r.score)
  }

  function Score(r: Row): real {
    r.score
  }

  function Truth(r: Row): real {
    r.fraudLabel as real
  }

  function Miss(r: Row): real {
    r.score - r.fraudLabel as real
  }

  function Abs(x: real): (a: real)
    ensures a >= 0.0 && a >= x && a >= -x && (a == x || a == -x)
  {
    if x < 0.0 then -x else x
  }

  function AbsMiss(r: Row): real {
    Abs(Miss(r))
  }

  /** The gaps of the first `k` bins, each the absolute value of what its misses add up to. */
  function GapsBelow(rows: seq<Row>, k: nat): (g: real)
    ensures g >= 0.0
  {
    if k == 0 then 0.0 else GapsBelow(rows, k - 1) + Abs(SumWhere(rows, Binned(k - 1), Miss))
  }

  lemma {:induction false} SumOfMisses(s: seq<Row>, p: Row -> bool)
    ensures SumWhere(s, p, Miss) == SumWhere(s, p, Score) - SumWhere(s, p, Truth)
    ensures Abs(SumWhere(s, p, Miss)) <= SumWhere(s, p, AbsMiss)
    ensures CountWhere(s, p) == 0 ==> SumWhere(s, p, Miss) == 0.0
  {
    if s != [] {
      SumOfMisses(s[..|s| - 1], p);
    }
  }

  lemma Weighed(n: real, total: real, s: real, l: real)
    requires n > 0.0 && total > 0.0
    ensures (n / total) * Abs(s / n - l / n) == Abs(s - l) / total
  {
    assert s / n - l / n == (s - l) / n;
    var x := s - l;
    if x >= 0.0 {
      assert x / n >= 0.0;
      assert (n / total) * (x / n) == x / total;
    } else {
      assert x / n < 0.0 && -(x / n) == (-x) / n;
      assert (n / total) * ((-x) / n) == (-x) / total;
    }
  }

  /** A bin's share of the rows times the gap between its mean score and mean label. */
  method WeighedGap(n: nat, total: nat, s: real, l: real) returns (gap: real)
    requires n > 0 && total > 0
    ensures gap == Abs(s - l) / total as real
  {
    gap := (n as real / total as real) * Abs(s / n as real - l / n as real);
    Weighed(n as real, total as real, s, l);
  }

  /** One bin; an empty one adds nothing. */
  method BinGap(rows: seq<Row>, k: nat) returns (gap: real)
    requires rows != []
    ensures gap == Abs(SumWhere(rows, Binned(k), Miss)) / |rows| as real
  {
    SumOfMisses(rows, Binned(k));
    var n := CountWhere(rows, Binned(k));
    if n == 0 {
      gap := 0.0;
    } else {
      gap := WeighedGap(n, |rows|, SumWhere(rows, Binned(k), Score), SumWhere(rows, Binned(k), Truth));
    }
  }

  lemma Together(a: real, b: real, n: real)
    requires n > 0.0
    ensures a / n + b / n == (a + b) / n
  {
  }

  /** The loop over the ten bins. Without rows no bin has a member, and the error is zero. */
  method CalibrationError(rows: seq<Row>) returns (error: real)
    ensures error == if rows == [] then 0.0 else GapsBelow(rows, 10) / |rows| as real
  {
    error := 0.0;
    if rows == [] {
      return;
    }
    for k := 0 to 10
      invariant error == GapsBelow(rows, k) / |rows| as real
    {
      var gap := BinGap(rows, k);
      Together(GapsBelow(rows, k), Abs(SumWhere(rows, Binned(k), Miss)), |rows| as real);
      error := error + gap;
    }
  }

  /** Rows in the first `k` bins. */
  function BinnedBelow(k: nat): Row -> bool {
    (r: Row) => 0.0 <= r.score && (if Edge(k) == 1.0 then r.score <= 1.0 else r.score < Edge(k))
  }

  /** The bins so far lie between the gap of everything they hold and its total misses. */
  lemma {:induction false} GapsBetween(rows: seq<Row>, k: nat)
    requires k <= 10
    ensures Abs(SumWhere(rows, BinnedBelow(k), Miss)) <= GapsBelow(rows, k) <= SumWhere(rows, BinnedBelow(k), AbsMiss)
  {
    if k == 0 {
      NothingBelowZero(rows);
    } else {
      GapsBetween(rows, k - 1);
      SumSplits(rows, BinnedBelow(k - 1), Binned(k - 1), BinnedBelow(k), Miss);
      SumSplits(rows, BinnedBelow(k - 1), Binned(k - 1), BinnedBelow(k), AbsMiss);
      SumOfMisses(rows, Binned(k - 1));
    }
  }

  lemma {:induction false} NothingBelowZero(rows: seq<Row>)
    ensures SumWhere(rows, BinnedBelow(0), Miss) == 0.0 && SumWhere(rows, BinnedBelow(0), AbsMiss) == 0.0
  {
    if rows != [] {
      NothingBelowZero(rows[..|rows| - 1]);
    }
  }

  function Every(): Row -> bool {
    (r: Row) => true
  }

  lemma {:induction false} AllBinned(rows: seq<Row>, f: Row -> real)
    requires forall r | r in rows :: 0.0 <= r.score <= 1.0
    ensures SumWhere(rows, BinnedBelow(10), f) == SumWhere(rows, Every(), f)
  {
    if rows != [] {
      AllBinned(rows[..|rows| - 1], f);
    }
  }

  lemma MeansFollow(low: real, mid: real, high: real, s: real, l: real, n: real)
    requires n > 0.0 && Abs(low) <= mid <= high && low == s - l
    ensures Abs(s / n - l / n) <= mid / n <= high / n
  {
    assert s / n - l / n == low / n;
    assert mid / n - low / n == (mid - low) / n >= 0.0;
    assert mid / n + low / n == (mid + low) / n >= 0.0;
  }

  /** The calibration error is at most the mean absolute difference of score and label, and at
      least the difference of their means. */
  lemma {:induction false} CalibrationBounds(rows: seq<Row>)
    requires rows != [] && forall r | r in rows :: 0.0 <= r.score <= 1.0
    ensures var n := |rows| as real;
            Abs(SumWhere(rows, Every(), Score) / n - SumWhere(rows, Every(), Truth) / n)
            <= GapsBelow(rows, 10) / n <= SumWhere(rows, Every(), AbsMiss) / n
  {
    GapsBetween(rows, 10);
    AllBinned(rows, Miss);
    AllBinned(rows, AbsMiss);
    SumOfMisses(rows, Every());
    MeansFollow(SumWhere(rows, Every(), Miss), GapsBelow(rows, 10), SumWhere(rows, Every(), AbsMiss),
                SumWhere(rows, Every(), Score), SumWhere(rows, Every(), Truth), |rows| as real);
  }

  /** The business half of the report and the calibration error, for an engine's thresholds and
      assumptions; the breakdown is the engine's own evaluation. */
  method BusinessMetrics(scores: seq<real>, labels: seq<int>, amounts: seq<real>, engine: DecisionEngine)
    returns (outcome: Outcome<(Accounts, real)>)
    ensures outcome.Done? <==> SameLength(scores, labels, amounts)
    ensures outcome.Done? ==>
      var rows := Zip(scores, labels, amounts);
      && outcome.value.0 == AccountsOf(rows, engine.assumptions, engine.thresholds)
      && outcome.value.1 == if rows == [] then 0.0 else GapsBelow(rows, 10) / |rows| as real
  {
    var breakdown := engine.Evaluate(scores, labels, amounts, None);
    if breakdown.Failed? {
      return Failed(breakdown.error);
    }
    var rows := Zip(scores, labels, amounts);
    var accounts := Accounts(
      SumWhere(rows, Fraudulent(), Amount), SumWhere(rows, Class(engine.thresholds, Decline, true), Amount),
      CountWhere(rows, Flagged(engine.thresholds)), CountWhere(rows, Decided(engine.thresholds, Review)), |rows|, breakdown.value);
    var calibration := CalibrationError(rows);
    outcome := Done((accounts, calibration));
  }
}
