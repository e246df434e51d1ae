/** Cost-based decisions: thresholds, the cost of a pair of thresholds on labelled data, and the
    constrained grid search for the cheapest pair. */
module Decisioning {
  import opened Domain
  import opened Sequences

  datatype Costs = Costs(
    fraudLossRate: real, falsePositiveDeclineCost: real, falsePositiveReviewCost: real,
    manualReviewCost: real, operationalCost: real, reviewFraudCaptureRate: real, maxReviewRate: real)

  type CostAssumptions = c: Costs | 0.0 <= c.reviewFraudCaptureRate <= 1.0 && 0.0 <= c.maxReviewRate <= 1.0
    witness Costs(1.0, 35.0, 8.0, 4.0, 0.05, 0.80, 0.05)

  datatype Cutoffs = Cutoffs(review: real, decline: real)

  type DecisionThresholds = t: Cutoffs | 0.0 <= t.review < t.decline <= 1.0
    witness Cutoffs(0.45, 0.75)

  datatype CostBreakdown = CostBreakdown(fraudLoss: real, falsePositiveCost: real, manualReviewCost: real, operationalCost: real) {
    function Total(): real {
      fraudLoss + falsePositiveCost + manualReviewCost + operationalCost
    }
  }

  datatype DecisionError = LengthMismatch | DivisionByZero | NegativeGrid

  datatype Outcome<T> = Done(value: T) | Failed(error: DecisionError)

  function DecideWith(score: real, t: Cutoffs): Decision {
    if score >= t.decline then Decline else if score >= t.review then Review else Approve
  }

  /** One labelled payment of the validation data. */
  datatype Row = Row(score: real, fraudLabel: int, amount: real) {
    predicate Fraud() {
      fraudLabel != 0
    }
  }

  predicate SameLength(scores: seq<real>, labels: seq<int>, amounts: seq<real>) {
    |scores| == |labels| == |amounts|
  }

  /** `zip(scores, labels, amounts, strict=True)` */
  function Zip(scores: seq<real>, labels: seq<int>, amounts: seq<real>): (rows: seq<Row>)
    requires SameLength(scores, labels, amounts)
    ensures |rows| == |scores|
    ensures forall i | 0 <= i < |rows| :: rows[i] == Row(scores[i], labels[i], amounts[i])
  {
    seq(|scores|, i requires 0 <= i < |scores| => Row(scores[i], labels[i], amounts[i]))
  }

  // ----- counting and adding up -----

  function CountWhere<T>(s: seq<T>, p: T -> bool): nat {
    if s == [] then 0 else CountWhere(s[..|s| - 1], p) + if p(s[|s| - 1]) then 1 else 0
  }

  function SumWhere<T>(s: seq<T>, p: T -> bool, f: T -> real): real {
    if s == [] then 0.0 else SumWhere(s[..|s| - 1], p, f) + if p(s[|s| - 1]) then f(s[|s| - 1]) else 0.0
  }

  function Amount(r: Row): real {
    r.amount
  }

  /** Rows with this decision and this truth. */
  function Class(t: Cutoffs, d: Decision, fraud: bool): Row -> bool {
    (r: Row) => DecideWith(r.score, t) == d && r.Fraud() == fraud
  }

  function Scored(t: Cutoffs, d: Decision): real -> bool {
    (score: real) => DecideWith(score, t) == d
  }

  function Decided(t: Cutoffs, d: Decision): Row -> bool {
    (r: Row) => DecideWith(r.score, t) == d
  }

  function ReviewRate(scores: seq<real>, t: Cutoffs): real
    requires scores != []
  {
    CountWhere(scores, Scored(t, Review)) as real / |scores| as real
  }

  /** The fraud amount that gets through: all that is approved, and what review fails to catch. */
  function LostAmount(rows: seq<Row>, capture: real, t: Cutoffs): real {
    SumWhere(rows, Class(t, Approve, true), Amount) + (1.0 - capture) * SumWhere(rows, Class(t, Review, true), Amount)
  }

  /** `n` charges of `unit`. */
  function Times(n: nat, unit: real): real {
    if n == 0 then 0.0 else Times(n - 1, unit) + unit
  }

  lemma {:induction false} TimesIsProduct(n: nat, unit: real)
    ensures Times(n, unit) == unit * n as real
  {
    if n > 0 {
      TimesIsProduct(n - 1, unit);
      assert unit * n as real == unit * (n - 1) as real + unit;
    }
  }

  /** What the good payments among `rows` cost when reviewed or declined. */
  function FalsePositiveCost(rows: seq<Row>, c: Costs, t: Cutoffs): real {
    Times(CountWhere(rows, Class(t, Review, false)), c.falsePositiveReviewCost)
    + Times(CountWhere(rows, Class(t, Decline, false)), c.falsePositiveDeclineCost)
  }

  /** The business cost of deciding `rows` with `t`, item by item. */
  function Books(rows: seq<Row>, c: Costs, t: Cutoffs): CostBreakdown {
    CostBreakdown(
      c.fraudLossRate * LostAmount(rows, c.reviewFraudCaptureRate, t),
      FalsePositiveCost(rows, c, t),
      Times(CountWhere(rows, Decided(t, Review)), c.manualReviewCost),
      Times(|rows|, c.operationalCost))
  }

  lemma NextCount<T>(s: seq<T>, i: nat, p: T -> bool)
    requires i < |s|
    ensures CountWhere(s[..i + 1], p) == CountWhere(s[..i], p) + if p(s[i]) then 1 else 0
  {
    assert s[..i + 1][..i] == s[..i];
  }

  lemma NextSum<T>(s: seq<T>, i: nat, p: T -> bool, f: T -> real)
    requires i < |s|
    ensures SumWhere(s[..i + 1], p, f) == SumWhere(s[..i], p, f) + if p(s[i]) then f(s[i]) else 0.0
  {
    assert s[..i + 1][..i] == s[..i];
  }

  lemma LossGrows(rate: real, keep: real, approved: real, reviewed: real, amount: real)
    ensures rate * (approved + amount + keep * reviewed) == rate * (approved + keep * reviewed) + amount * rate
    ensures rate * (approved + keep * (reviewed + amount)) == rate * (approved + keep * reviewed) + amount * rate * keep
  {
    assert keep * (reviewed + amount) == keep * reviewed + keep * amount;
    assert rate * (approved + keep * reviewed + keep * amount) == rate * (approved + keep * reviewed) + rate * (keep * amount);
  }

  /** What one more row adds to the books. */
  function Charge(b: CostBreakdown, c: Costs, t: Cutoffs, r: Row): CostBreakdown {
    var d := DecideWith(r.score, t);
    CostBreakdown(
      b.fraudLoss + (if d == Approve && r.Fraud() then r.amount * c.fraudLossRate
                     else if d == Review && r.Fraud() then r.amount * c.fraudLossRate * (1.0 - c.reviewFraudCaptureRate) else 0.0),
      b.falsePositiveCost + (if d == Review && !r.Fraud() then c.falsePositiveReviewCost
                             else if d == Decline && !r.Fraud() then c.falsePositiveDeclineCost else 0.0),
      b.manualReviewCost + (if d == Review then c.manualReviewCost else 0.0),
      b.operationalCost + c.operationalCost)
  }

  lemma LossStep(rows: seq<Row>, c: Costs, t: Cutoffs, i: nat)
    requires i < |rows|
    ensures Books(rows[..i + 1], c, t).fraudLoss == Charge(Books(rows[..i], c, t), c, t, rows[i]).fraudLoss
  {
    NextSum(rows, i, Class(t, Approve, true), Amount);
    NextSum(rows, i, Class(t, Review, true), Amount);
    LossGrows(c.fraudLossRate, 1.0 - c.reviewFraudCaptureRate, SumWhere(rows[..i], Class(t, Approve, true), Amount),
              SumWhere(rows[..i], Class(t, Review, true), Amount), rows[i].amount);
  }

  lemma FalsePositiveStep(rows: seq<Row>, c: Costs, t: Cutoffs, i: nat)
    requires i < |rows|
    ensures FalsePositiveCost(rows[..i + 1], c, t) == FalsePositiveCost(rows[..i], c, t) +
            if rows[i].Fraud() then 0.0
            else if DecideWith(rows[i].score, t) == Review then c.falsePositiveReviewCost
            else if DecideWith(rows[i].score, t) == Decline then c.falsePositiveDeclineCost else 0.0
  {
    NextCount(rows, i, Class(t, Review, false));
    NextCount(rows, i, Class(t, Decline, false));
  }

  lemma CountsStep(rows: seq<Row>, c: Costs, t: Cutoffs, i: nat)
    requires i < |rows|
    ensures var b, b' := Charge(Books(rows[..i], c, t), c, t, rows[i]), Books(rows[..i + 1], c, t);
            b'.manualReviewCost == b.manualReviewCost && b'.operationalCost == b.operationalCost
  {
    NextCount(rows, i, Decided(t, Review));
  }

  lemma BooksStep(rows: seq<Row>, c: Costs, t: Cutoffs, i: nat)
    requires i < |rows|
    ensures Books(rows[..i + 1], c, t) == Charge(Books(rows[..i], c, t), c, t, rows[i])
  {
    LossStep(rows, c, t, i);
    FalsePositiveStep(rows, c, t, i);
    CountsStep(rows, c, t, i);
  }

  lemma NoRows(c: Costs, t: Cutoffs)
    ensures Books([], c, t) == CostBreakdown(0.0, 0.0, 0.0, 0.0)
  {
  }

  // ----- the grid -----

  predicate InUnit(points: seq<real>) {
    forall j | 0 <= j < |points| :: 0.0 <= points[j] <= 1.0
  }

  predicate Increasing(points: seq<real>) {
    forall i, j | 0 <= i < j < |points| :: points[i] < points[j]
  }

  function GridPoint(n: nat, i: nat): real
    requires 2 <= n
  {
    0.02 + i as real * 0.96 / (n - 1) as real
  }

  /** `np.linspace(0.02, 0.98, n)` */
  function Linspace(n: nat): (points: seq<real>)
    ensures |points| == n
  {
    if n == 0 then [] else if n == 1 then [0.02] else seq(n, i requires 0 <= i < n => GridPoint(n, i))
  }

  lemma Quotients(a: nat, b: nat, w: nat)
    requires a < b <= w
    ensures 0.0 <= a as real * 0.96 / w as real < b as real * 0.96 / w as real <= 0.96
  {
    var r := w as real;
    assert (b as real * 0.96 / r - a as real * 0.96 / r) * r == (b - a) as real * 0.96;
    assert (0.96 - b as real * 0.96 / r) * r == (w - b) as real * 0.96;
  }

  lemma LinspaceIncreases(n: nat)
    ensures Increasing(Linspace(n))
    ensures forall i | 0 <= i < n :: 0.02 <= Linspace(n)[i] <= 0.98
  {
    forall i, j | 0 <= i < j < n
      ensures 0.02 <= Linspace(n)[i] < Linspace(n)[j] <= 0.98
    {
      Quotients(i, j, n - 1);
    }
    if n > 1 {
      assert Linspace(n)[0] < Linspace(n)[n - 1];
    }
    forall i | 0 <= i < n
      ensures 0.02 <= Linspace(n)[i] <= 0.98
    {
      if i > 0 {
        assert Linspace(n)[0] < Linspace(n)[i];
      } else if n > 1 {
        assert Linspace(n)[i] < Linspace(n)[n - 1];
      }
    }
  }

  /** The pairs of review point `i` with those of the first `j` points that lie above it. */
  function PairsAt(points: seq<real>, i: nat, j: nat): seq<Cutoffs>
    requires i < |points| && j <= |points|
  {
    if j == 0 then [] else
      PairsAt(points, i, j - 1) + if points[j - 1] > points[i] then [Cutoffs(points[i], points[j - 1])] else []
  }

  /** All pairs with one of the first `i` points for review, in the order the two loops visit them. */
  function PairsBefore(points: seq<real>, i: nat): seq<Cutoffs>
    requires i <= |points|
  {
    if i == 0 then [] else PairsBefore(points, i - 1) + PairsAt(points, i - 1, |points|)
  }

  function Candidates(points: seq<real>): seq<Cutoffs> {
    if points == [] then [] else PairsBefore(points, |points| - 1)
  }

  lemma {:induction false} PairsAtMembers(points: seq<real>, i: nat, j: nat, t: Cutoffs)
    requires i < |points| && j <= |points|
    ensures t in PairsAt(points, i, j) <==> t.review == points[i] < t.decline && t.decline in points[..j]
  {
    if j > 0 {
      PairsAtMembers(points, i, j - 1, t);
      NextSlice(points, j - 1);
      InAppended(points[..j - 1], points[j - 1], t.decline);
      InAppended(PairsAt(points, i, j - 1), Cutoffs(points[i], points[j - 1]), t);
    }
  }

  lemma {:induction false} PairsBeforeMembers(points: seq<real>, i: nat, t: Cutoffs)
    requires i <= |points|
    ensures t in PairsBefore(points, i) <==> t.review in points[..i] && t.review < t.decline && t.decline in points
  {
    if i > 0 {
      PairsBeforeMembers(points, i - 1, t);
      PairsAtMembers(points, i - 1, |points|, t);
      NextSlice(points, i - 1);
      SplitAt(points, |points|);
    }
  }

  /** The candidates are exactly the pairs of points with review below decline. */
  lemma CandidatesAreGridPairs(points: seq<real>, t: Cutoffs)
    requires Increasing(points)
    ensures t in Candidates(points) <==> t.review in points && t.decline in points && t.review < t.decline
  {
    if points != [] {
      var last := |points| - 1;
      PairsBeforeMembers(points, last, t);
      if t.review in points && t.decline in points && t.review < t.decline {
        var i :| 0 <= i < |points| && points[i] == t.review;
        var j :| 0 <= j < |points| && points[j] == t.decline;
        assert i < last && points[..last][i] == t.review;
      }
    }
  }

  /** Review threshold first, then decline threshold. */
  predicate Earlier(t: Cutoffs, u: Cutoffs) {
    t.review < u.review || (t.review == u.review && t.decline < u.decline)
  }

  ghost predicate AllEarlier(s: seq<Cutoffs>, t: Cutoffs) {
    forall u | u in s :: Earlier(u, t)
  }

  /** Each candidate comes after all those before it. */
  ghost predicate Ascending(s: seq<Cutoffs>) {
    s == [] || (Ascending(s[..|s| - 1]) && AllEarlier(s[..|s| - 1], s[|s| - 1]))
  }

  lemma {:induction false} AscendingGrows(s: seq<Cutoffs>, t: Cutoffs)
    requires Ascending(s) && AllEarlier(s, t)
    ensures Ascending(s + [t])
  {
    assert (s + [t])[..|s|] == s;
  }

  lemma {:induction false} NextPairIsLater(points: seq<real>, i: nat, j: nat)
    requires Increasing(points) && i < |points| && j < |points|
    ensures AllEarlier(PairsBefore(points, i) + PairsAt(points, i, j), Cutoffs(points[i], points[j]))
  {
    forall u | u in PairsBefore(points, i) + PairsAt(points, i, j)
      ensures Earlier(u, Cutoffs(points[i], points[j]))
    {
      PairsBeforeMembers(points, i, u);
      PairsAtMembers(points, i, j, u);
    }
  }

  lemma {:induction false} AppendedPairsAscend(points: seq<real>, i: nat, j: nat)
    requires Increasing(points) && i < |points| && j <= |points| && Ascending(PairsBefore(points, i))
    ensures Ascending(PairsBefore(points, i) + PairsAt(points, i, j))
  {
    var s := PairsBefore(points, i);
    if j == 0 {
      assert s + [] == s;
    } else {
      AppendedPairsAscend(points, i, j - 1);
      var before := PairsAt(points, i, j - 1);
      if points[j - 1] > points[i] {
        NextPairIsLater(points, i, j - 1);
        AscendingGrows(s + before, Cutoffs(points[i], points[j - 1]));
        Associate(s, before, [Cutoffs(points[i], points[j - 1])]);
      } else {
        assert before + [] == before;
      }
    }
  }

  lemma NextRowAscends(points: seq<real>, i: nat)
    requires Increasing(points) && i < |points| && Ascending(PairsBefore(points, i))
    ensures Ascending(PairsBefore(points, i + 1))
  {
    AppendedPairsAscend(points, i, |points|);
  }

  lemma {:induction false} PairsAscend(points: seq<real>, i: nat)
    requires Increasing(points) && i <= |points|
    ensures Ascending(PairsBefore(points, i))
  {
    if i > 0 {
      PairsAscend(points, i - 1);
      NextRowAscends(points, i - 1);
    }
  }

  // ----- the search -----

  /** A search problem: what a pair costs, and whether its review rate is within the cap. */
  type Price = Cutoffs -> real
  type Filter = Cutoffs -> bool

  /** The running best after the listed candidates: replaced only by a strictly cheaper one. */
  function Pick(cands: seq<Cutoffs>, feasible: Filter, cost: Price): Option<Cutoffs> {
    if cands == [] then None else
      Update(Pick(cands[..|cands| - 1], feasible, cost), cands[|cands| - 1], feasible, cost)
  }

  function Update(best: Option<Cutoffs>, t: Cutoffs, feasible: Filter, cost: Price): Option<Cutoffs> {
    if feasible(t) && (best.Some? ==> cost(t) < cost(best.value)) then Some(t) else best
  }

  lemma {:induction false} NextPick(cands: seq<Cutoffs>, t: Cutoffs, feasible: Filter, cost: Price)
    ensures Pick(cands + [t], feasible, cost) == Update(Pick(cands, feasible, cost), t, feasible, cost)
  {
    assert (cands + [t])[..|cands|] == cands;
  }

  /** `t` is strictly cheaper than `u`, or as cheap and not later. */
  predicate Wins(t: Cutoffs, u: Cutoffs, cost: Price) {
    cost(t) < cost(u) || (cost(t) == cost(u) && !Earlier(u, t))
  }

  /** The first cheapest of the feasible candidates. */
  ghost predicate IsBest(t: Cutoffs, cands: seq<Cutoffs>, feasible: Filter, cost: Price) {
    t in cands && feasible(t) && forall u | u in cands && feasible(u) :: Wins(t, u, cost)
  }

  /** What the search returns, with no search: the first cheapest feasible candidate, or the
      prior thresholds when no candidate is feasible. */
  ghost predicate Chosen(best: Cutoffs, prior: Cutoffs, cands: seq<Cutoffs>, feasible: Filter, cost: Price) {
    if exists t :: t in cands && feasible(t) then IsBest(best, cands, feasible, cost) else best == prior
  }

  lemma {:induction false} PickIsBest(cands: seq<Cutoffs>, feasible: Filter, cost: Price)
    requires Ascending(cands)
    ensures var p := Pick(cands, feasible, cost);
            if p.Some? then IsBest(p.value, cands, feasible, cost) else forall t | t in cands :: !feasible(t)
  {
    if cands != [] {
      var before, last := cands[..|cands| - 1], cands[|cands| - 1];
      PickIsBest(before, feasible, cost);
      assert forall t :: t in cands <==> t in before || t == last;
    }
  }

  /** There is only one such choice. */
  lemma ChosenUnique(t: Cutoffs, u: Cutoffs, prior: Cutoffs, cands: seq<Cutoffs>, feasible: Filter, cost: Price)
    requires Chosen(t, prior, cands, feasible, cost) && Chosen(u, prior, cands, feasible, cost)
    ensures t == u
  {
    if x :| x in cands && feasible(x) {
      assert Wins(t, u, cost) && Wins(u, t, cost);
    }
  }

  /** Comparative statics. When one cost exceeds another by a positive multiple of `load`, and a
      constant, the second choice carries no more load, and equal load means the same choice:
      only the strict comparison of the search makes the tie come out equal. */
  lemma RaisedPriceLowersLoad(t: Cutoffs, u: Cutoffs, prior: Cutoffs, cands: seq<Cutoffs>, feasible: Filter,
                              cost: Price, raised: Price, load: Price, step: real, shift: real)
    requires Chosen(t, prior, cands, feasible, cost) && Chosen(u, prior, cands, feasible, raised)
    requires step > 0.0 && forall x | x in cands :: raised(x) == cost(x) + step * load(x) + shift
    ensures load(u) <= load(t)
    ensures load(u) == load(t) ==> u == t
  {
    if x :| x in cands && feasible(x) {
      assert Wins(t, u, cost) && Wins(u, t, raised);
      Exchange(cost(t), cost(u), raised(t), raised(u), load(t), load(u), step, shift);
    }
  }

  lemma Exchange(ct: real, cu: real, rt: real, ru: real, lt: real, lu: real, step: real, shift: real)
    requires ct <= cu && ru <= rt && step > 0.0
    requires rt == ct + step * lt + shift && ru == cu + step * lu + shift
    ensures lu <= lt
    ensures lu == lt ==> ct == cu && ru == rt
  {
    assert step * lu <= step * lt;
  }

  // ----- laws of the cost -----

  lemma {:induction false} CountImplied<T(!new)>(s: seq<T>, p: T -> bool, q: T -> bool)
    requires forall x :: p(x) ==> q(x)
    ensures CountWhere(s, p) <= CountWhere(s, q)
  {
    if s != [] {
      CountImplied(s[..|s| - 1], p, q);
    }
  }

  /** A lower decline threshold declines at least as many good payments. */
  lemma {:induction false} LowerDeclinesMore(rows: seq<Row>, t: Cutoffs, u: Cutoffs)
    requires u.decline <= t.decline
    ensures CountWhere(rows, Class(t, Decline, false)) <= CountWhere(rows, Class(u, Decline, false))
  {
    CountImplied(rows, Class(t, Decline, false), Class(u, Decline, false));
  }

  function CostOf(rows: seq<Row>, c: Costs): Price {
    t => Books(rows, c, t).Total()
  }

  function WithinCap(scores: seq<real>, cap: real): Filter
    requires scores != []
  {
    t => ReviewRate(scores, t) <= cap
  }

  predicate AnyFeasible(cands: seq<Cutoffs>, feasible: Filter) {
    exists t | t in cands :: feasible(t)
  }

  /** `optimize`, as a function of its inputs and of the thresholds it started from. */
  function Search(scores: seq<real>, labels: seq<int>, amounts: seq<real>, c: CostAssumptions, prior: DecisionThresholds, n: int)
    : Outcome<Cutoffs>
  {
    if n < 0 then Failed(NegativeGrid) else
      var cands := Candidates(Linspace(n));
      if cands == [] then Done(prior)
      else if scores == [] then Failed(DivisionByZero)
      else if SameLength(scores, labels, amounts) then Done(Found(scores, labels, amounts, c, prior, cands))
      else if AnyFeasible(cands, WithinCap(scores, c.maxReviewRate)) then Failed(LengthMismatch)
      else Done(prior)
  }

  function Found(scores: seq<real>, labels: seq<int>, amounts: seq<real>, c: CostAssumptions, prior: Cutoffs, cands: seq<Cutoffs>): Cutoffs
    requires scores != [] && SameLength(scores, labels, amounts)
  {
    OrElse(Pick(cands, WithinCap(scores, c.maxReviewRate), CostOf(Zip(scores, labels, amounts), c)), prior)
  }

  function OrElse(best: Option<Cutoffs>, prior: Cutoffs): Cutoffs {
    if best.Some? then best.value else prior
  }

  lemma GridAscends(n: nat)
    ensures Increasing(Linspace(n)) && Ascending(Candidates(Linspace(n)))
    ensures Candidates(Linspace(n)) == [] <==> n < 2
  {
    LinspaceIncreases(n);
    if n > 0 {
      PairsAscend(Linspace(n), n - 1);
    }
    if n >= 2 {
      CandidatesAreGridPairs(Linspace(n), Cutoffs(Linspace(n)[0], Linspace(n)[1]));
    }
  }

  lemma CandidatesAreThresholds(n: nat, t: Cutoffs)
    requires t in Candidates(Linspace(n))
    ensures 0.0 <= t.review < t.decline <= 1.0
  {
    LinspaceIncreases(n);
    CandidatesAreGridPairs(Linspace(n), t);
  }

  /** The search returns the first cheapest grid pair within the review cap, or the prior
      thresholds when there is none; and there is only one such choice. */
  lemma FoundIsOptimal(scores: seq<real>, labels: seq<int>, amounts: seq<real>, c: CostAssumptions,
                       prior: DecisionThresholds, n: nat, t: Cutoffs)
    requires scores != [] && SameLength(scores, labels, amounts)
    ensures var cands, feasible := Candidates(Linspace(n)), WithinCap(scores, c.maxReviewRate);
            var cost := CostOf(Zip(scores, labels, amounts), c);
            t == Found(scores, labels, amounts, c, prior, cands) <==> Chosen(t, prior, cands, feasible, cost)
  {
    var cands, feasible, cost := Candidates(Linspace(n)), WithinCap(scores, c.maxReviewRate), CostOf(Zip(scores, labels, amounts), c);
    GridAscends(n);
    PickIsBest(cands, feasible, cost);
    if Chosen(t, prior, cands, feasible, cost) {
      ChosenUnique(t, Found(scores, labels, amounts, c, prior, cands), prior, cands, feasible, cost);
    }
  }

  /** Whatever the search finds satisfies the threshold invariant. */
  lemma FoundIsValid(scores: seq<real>, labels: seq<int>, amounts: seq<real>, c: CostAssumptions, prior: DecisionThresholds, n: int)
    requires Search(scores, labels, amounts, c, prior, n).Done?
    ensures var t := Search(scores, labels, amounts, c, prior, n).value; 0.0 <= t.review < t.decline <= 1.0
  {
    var t, cands := Search(scores, labels, amounts, c, prior, n).value, Candidates(Linspace(n));
    if cands != [] && SameLength(scores, labels, amounts) {
      GridAscends(n);
      PickIsBest(cands, WithinCap(scores, c.maxReviewRate), CostOf(Zip(scores, labels, amounts), c));
      if t != prior {
        CandidatesAreThresholds(n, t);
      }
    }
  }

  /** Searching again, from the thresholds a search returned, returns them again. */
  lemma SearchAgain(scores: seq<real>, labels: seq<int>, amounts: seq<real>, c: CostAssumptions, prior: DecisionThresholds, n: int)
    requires Search(scores, labels, amounts, c, prior, n).Done?
    ensures var t := Search(scores, labels, amounts, c, prior, n).value;
            0.0 <= t.review < t.decline <= 1.0 && Search(scores, labels, amounts, c, t, n) == Done(t)
  {
    FoundIsValid(scores, labels, amounts, c, prior, n);
  }

  // ----- the search, in numbers -----

  /** Grid points `k` and `m` of `n` evenly spaced ones from 0.02 to 0.98. */
  predicate GridPair(t: Cutoffs, n: int, k: int, m: int) {
    && 0 <= k < m < n
    && t.review == 0.02 + 0.96 * k as real / (n - 1) as real && t.decline == 0.02 + 0.96 * m as real / (n - 1) as real
  }

  /** The first point is 0.02, the last 0.98, and the points between are evenly spaced. */
  lemma {:induction false} LinspaceEnds(n: nat, i: nat)
    requires 2 <= n && i < n
    ensures Linspace(n)[0] == 0.02 && Linspace(n)[n - 1] == 0.98
    ensures Linspace(n)[i] == 0.02 + 0.96 * i as real / (n - 1) as real
  {
    WholeShare(n - 1);
  }

  lemma {:induction false} WholeShare(w: nat)
    requires w > 0
    ensures w as real * 0.96 / w as real == 0.96
  {
  }

  /** The candidates are exactly the pairs of evenly spaced points. */
  lemma {:induction false} CandidatesAreEvenlySpaced(n: nat, t: Cutoffs)
    ensures t in Candidates(Linspace(n)) <==> exists k, m :: GridPair(t, n, k, m)
  {
    LinspaceIncreases(n);
    CandidatesAreGridPairs(Linspace(n), t);
    if t in Candidates(Linspace(n)) {
      var k :| 0 <= k < n && Linspace(n)[k] == t.review;
      var m :| 0 <= m < n && Linspace(n)[m] == t.decline;
      LinspaceEnds(n, k);
      LinspaceEnds(n, m);
      assert k < m;
      assert GridPair(t, n, k, m);
    }
    if k, m :| GridPair(t, n, k, m) {
      LinspaceEnds(n, k);
      LinspaceEnds(n, m);
      assert Linspace(n)[k] == t.review && Linspace(n)[m] == t.decline;
    }
  }

  /** The scores from the review threshold on, below the decline threshold. */
  function Between(scores: seq<real>, t: Cutoffs): set<int> {
    set i | 0 <= i < |scores| && t.review <= scores[i] && scores[i] < t.decline
  }

  lemma {:induction false} ReviewsBetween(scores: seq<real>, t: Cutoffs)
    requires t.review < t.decline
    ensures CountWhere(scores, Scored(t, Review)) == |Between(scores, t)|
  {
    if scores != [] {
      var before, k := scores[..|scores| - 1], |scores| - 1;
      ReviewsBetween(before, t);
      assert Between(scores, t) == Between(before, t) + if t.review <= scores[k] < t.decline then {k} else {};
    }
  }

  lemma {:induction false} ShareWithin(part: nat, whole: nat, cap: real)
    requires whole > 0
    ensures part as real / whole as real <= cap <==> part as real <= cap * whole as real
  {
    var q := part as real / whole as real;
    assert q * whole as real == part as real;
    if q <= cap {
      assert (cap - q) * whole as real >= 0.0;
    } else {
      assert (q - cap) * whole as real > 0.0;
    }
  }

  /** A pair of evenly spaced points that sends no more than its share of the scores to review. */
  ghost predicate Allowed(t: Cutoffs, scores: seq<real>, cap: real, n: int) {
    (exists k, m :: GridPair(t, n, k, m)) && |Between(scores, t)| as real <= cap * |scores| as real
  }

  lemma {:induction false} AllowedIsFeasible(t: Cutoffs, scores: seq<real>, cap: real, n: nat)
    requires scores != []
    ensures Allowed(t, scores, cap, n) <==> t in Candidates(Linspace(n)) && WithinCap(scores, cap)(t)
  {
    CandidatesAreEvenlySpaced(n, t);
    if t in Candidates(Linspace(n)) {
      CandidatesAreThresholds(n, t);
      ReviewsBetween(scores, t);
      ShareWithin(CountWhere(scores, Scored(t, Review)), |scores|, cap);
    }
  }

  /** No allowed pair is cheaper, and none that costs the same has a smaller review threshold, or
      the same one and a smaller decline threshold. */
  ghost predicate FirstCheapest(t: Cutoffs, scores: seq<real>, cap: real, n: int, cost: Price) {
    && Allowed(t, scores, cap, n)
    && forall u | Allowed(u, scores, cap, n) ::
         cost(t) < cost(u) || (cost(t) == cost(u) && (t.review < u.review || (t.review == u.review && t.decline <= u.decline)))
  }

  /** What a search must return: the first cheapest allowed pair, or what was there before. */
  ghost predicate RightChoice(t: Cutoffs, prior: Cutoffs, scores: seq<real>, cap: real, n: int, cost: Price) {
    if exists u :: Allowed(u, scores, cap, n) then FirstCheapest(t, scores, cap, n, cost) else t == prior
  }

  lemma {:induction false} SearchChoosesRight(scores: seq<real>, labels: seq<int>, amounts: seq<real>, c: CostAssumptions,
                                              prior: DecisionThresholds, n: nat)
    requires scores != [] && SameLength(scores, labels, amounts)
    ensures var found := Search(scores, labels, amounts, c, prior, n);
            found.Done? && RightChoice(found.value, prior, scores, c.maxReviewRate, n, CostOf(Zip(scores, labels, amounts), c))
  {
    var t := Search(scores, labels, amounts, c, prior, n).value;
    FoundIsOptimal(scores, labels, amounts, c, prior, n, t);
    forall u
      ensures Allowed(u, scores, c.maxReviewRate, n) <==> u in Candidates(Linspace(n)) && WithinCap(scores, c.maxReviewRate)(u)
    {
      AllowedIsFeasible(u, scores, c.maxReviewRate, n);
    }
    ChosenIsRight(t, prior, scores, c.maxReviewRate, n, Candidates(Linspace(n)), WithinCap(scores, c.maxReviewRate),
                  CostOf(Zip(scores, labels, amounts), c));
  }

  lemma {:induction false} ChosenIsRight(t: Cutoffs, prior: Cutoffs, scores: seq<real>, cap: real, n: int,
                                         cands: seq<Cutoffs>, feasible: Filter, cost: Price)
    requires Chosen(t, prior, cands, feasible, cost)
    requires forall u :: Allowed(u, scores, cap, n) <==> u in cands && feasible(u)
    ensures RightChoice(t, prior, scores, cap, n, cost)
  {
    if u :| Allowed(u, scores, cap, n) {
      assert u in cands && feasible(u);
      forall v | Allowed(v, scores, cap, n)
        ensures cost(t) < cost(v) || (cost(t) == cost(v) && (t.review < v.review || (t.review == v.review && t.decline <= v.decline)))
      {
        assert Wins(t, v, cost);
      }
    }
  }

  /** When a search fails: on a negative grid, on a grid with pairs and no data, and on lists of
      different lengths once some pair is within the cap. */
  lemma {:induction false} SearchFails(scores: seq<real>, labels: seq<int>, amounts: seq<real>, c: CostAssumptions,
                                       prior: DecisionThresholds, n: int)
    ensures Search(scores, labels, amounts, c, prior, n).Failed? <==>
            || n < 0
            || (n >= 2 && scores == [])
            || (n >= 2 && !SameLength(scores, labels, amounts) && exists u :: Allowed(u, scores, c.maxReviewRate, n))
  {
    if n >= 0 {
      GridAscends(n);
      if scores != [] {
        forall u
          ensures Allowed(u, scores, c.maxReviewRate, n) <==> u in Candidates(Linspace(n)) && WithinCap(scores, c.maxReviewRate)(u)
        {
          AllowedIsFeasible(u, scores, c.maxReviewRate, n);
        }
      }
    }
  }

  // ----- comparative statics of the search -----

  /** When the raised assumptions price every candidate higher by a positive multiple of `load`
      and a constant, the thresholds found carry no more load, and equal load means equal thresholds. */
  lemma RaisedSearch(scores: seq<real>, labels: seq<int>, amounts: seq<real>, c: CostAssumptions, raised: CostAssumptions,
                     prior: DecisionThresholds, n: nat, load: Price, step: real, shift: real)
    requires scores != [] && SameLength(scores, labels, amounts) && c.maxReviewRate == raised.maxReviewRate && step > 0.0
    requires var rows := Zip(scores, labels, amounts);
             forall t :: CostOf(rows, raised)(t) == CostOf(rows, c)(t) + step * load(t) + shift
    ensures var cands := Candidates(Linspace(n));
            var t, u := Found(scores, labels, amounts, c, prior, cands), Found(scores, labels, amounts, raised, prior, cands);
            load(u) <= load(t) && (load(u) == load(t) ==> u == t)
  {
    var cands := Candidates(Linspace(n));
    var t, u := Found(scores, labels, amounts, c, prior, cands), Found(scores, labels, amounts, raised, prior, cands);
    FoundIsOptimal(scores, labels, amounts, c, prior, n, t);
    FoundIsOptimal(scores, labels, amounts, raised, prior, n, u);
    RaisedPriceLowersLoad(t, u, prior, cands, WithinCap(scores, c.maxReviewRate), CostOf(Zip(scores, labels, amounts), c),
                          CostOf(Zip(scores, labels, amounts), raised), load, step, shift);
  }

  function GoodDeclined(rows: seq<Row>): Price {
    t => CountWhere(rows, Class(t, Decline, false)) as real
  }

  lemma DearerDeclinePrice(rows: seq<Row>, c: Costs, dearer: real, t: Cutoffs)
    ensures CostOf(rows, c.(falsePositiveDeclineCost := dearer))(t) ==
            CostOf(rows, c)(t) + (dearer - c.falsePositiveDeclineCost) * GoodDeclined(rows)(t) + 0.0
  {
    var n := CountWhere(rows, Class(t, Decline, false));
    TimesIsProduct(n, dearer);
    TimesIsProduct(n, c.falsePositiveDeclineCost);
  }

  lemma DearerDeclinesLoad(scores: seq<real>, labels: seq<int>, amounts: seq<real>, c: CostAssumptions, dearer: real,
                           prior: DecisionThresholds, n: nat)
    requires scores != [] && SameLength(scores, labels, amounts) && dearer > c.falsePositiveDeclineCost
    ensures var rows, cands := Zip(scores, labels, amounts), Candidates(Linspace(n));
            var t, u := Found(scores, labels, amounts, c, prior, cands),
                        Found(scores, labels, amounts, c.(falsePositiveDeclineCost := dearer), prior, cands);
            GoodDeclined(rows)(u) <= GoodDeclined(rows)(t) && (GoodDeclined(rows)(u) == GoodDeclined(rows)(t) ==> u == t)
  {
    var raised: CostAssumptions, rows := c.(falsePositiveDeclineCost := dearer), Zip(scores, labels, amounts);
    forall t
      ensures CostOf(rows, raised)(t) == CostOf(rows, c)(t) + (dearer - c.falsePositiveDeclineCost) * GoodDeclined(rows)(t) + 0.0
    {
      DearerDeclinePrice(rows, c, dearer, t);
    }
    RaisedSearch(scores, labels, amounts, c, raised, prior, n, GoodDeclined(rows), dearer - c.falsePositiveDeclineCost, 0.0);
  }

  lemma DearerDeclinesFound(scores: seq<real>, labels: seq<int>, amounts: seq<real>, c: CostAssumptions, dearer: real,
                            prior: DecisionThresholds, n: nat)
    requires scores != [] && SameLength(scores, labels, amounts) && dearer > c.falsePositiveDeclineCost
    ensures var cands := Candidates(Linspace(n));
            Found(scores, labels, amounts, c, prior, cands).decline
            <= Found(scores, labels, amounts, c.(falsePositiveDeclineCost := dearer), prior, cands).decline
  {
    var raised: CostAssumptions, cands := c.(falsePositiveDeclineCost := dearer), Candidates(Linspace(n));
    var t, u := Found(scores, labels, amounts, c, prior, cands), Found(scores, labels, amounts, raised, prior, cands);
    DearerDeclinesLoad(scores, labels, amounts, c, dearer, prior, n);
    if u.decline < t.decline {
      LowerDeclinesMore(Zip(scores, labels, amounts), t, u);
    }
  }

  /** Raising only the cost of declining a good payment never lowers the decline threshold, on any
      data and from any starting thresholds. */
  lemma DearerDeclinesRaiseDecline(scores: seq<real>, labels: seq<int>, amounts: seq<real>, c: CostAssumptions, dearer: real,
                                   prior: DecisionThresholds, n: int)
    requires dearer >= c.falsePositiveDeclineCost
    ensures var before, after := Search(scores, labels, amounts, c, prior, n),
                                 Search(scores, labels, amounts, c.(falsePositiveDeclineCost := dearer), prior, n);
            && (before.Done? <==> after.Done?)
            && (before.Done? ==> before.value.decline <= after.value.decline)
  {
    if n >= 0 && scores != [] && SameLength(scores, labels, amounts) && dearer > c.falsePositiveDeclineCost {
      DearerDeclinesFound(scores, labels, amounts, c, dearer, prior, n);
    }
  }

  function Reviewed(rows: seq<Row>): Price {
    t => CountWhere(rows, Decided(t, Review)) as real
  }

  lemma DearerReviewPrice(rows: seq<Row>, c: Costs, dearer: real, t: Cutoffs)
    ensures CostOf(rows, c.(manualReviewCost := dearer))(t) ==
            CostOf(rows, c)(t) + (dearer - c.manualReviewCost) * Reviewed(rows)(t) + 0.0
  {
    var n := CountWhere(rows, Decided(t, Review));
    TimesIsProduct(n, dearer);
    TimesIsProduct(n, c.manualReviewCost);
  }

  /** Raising only the cost of a manual review never sends more payments to review. */
  lemma DearerReviewsReviewLess(scores: seq<real>, labels: seq<int>, amounts: seq<real>, c: CostAssumptions, dearer: real,
                                prior: DecisionThresholds, n: nat)
    requires dearer >= c.manualReviewCost && scores != [] && SameLength(scores, labels, amounts)
    ensures var rows, before, after := Zip(scores, labels, amounts), Search(scores, labels, amounts, c, prior, n),
                                       Search(scores, labels, amounts, c.(manualReviewCost := dearer), prior, n);
            before.Done? && after.Done? && Reviewed(rows)(after.value) <= Reviewed(rows)(before.value)
  {
    var raised: CostAssumptions := c.(manualReviewCost := dearer);
    if dearer > c.manualReviewCost {
      var rows := Zip(scores, labels, amounts);
      forall t
        ensures CostOf(rows, raised)(t) == CostOf(rows, c)(t) + (dearer - c.manualReviewCost) * Reviewed(rows)(t) + 0.0
      {
        DearerReviewPrice(rows, c, dearer, t);
      }
      RaisedSearch(scores, labels, amounts, c, raised, prior, n, Reviewed(rows), dearer - c.manualReviewCost, 0.0);
    }
  }

  function Lost(rows: seq<Row>, capture: real): Price {
    t => LostAmount(rows, capture, t)
  }

  lemma DearerFraudPrice(rows: seq<Row>, c: Costs, dearer: real, t: Cutoffs)
    ensures CostOf(rows, c.(fraudLossRate := dearer))(t) ==
            CostOf(rows, c)(t) + (dearer - c.fraudLossRate) * Lost(rows, c.reviewFraudCaptureRate)(t) + 0.0
  {
  }

  /** Raising only the loss rate never lets more fraud through. */
  lemma DearerFraudLosesLess(scores: seq<real>, labels: seq<int>, amounts: seq<real>, c: CostAssumptions, dearer: real,
                             prior: DecisionThresholds, n: nat)
    requires dearer >= c.fraudLossRate && scores != [] && SameLength(scores, labels, amounts)
    ensures var lost := Lost(Zip(scores, labels, amounts), c.reviewFraudCaptureRate);
            var before, after := Search(scores, labels, amounts, c, prior, n),
                                 Search(scores, labels, amounts, c.(fraudLossRate := dearer), prior, n);
            before.Done? && after.Done? && lost(after.value) <= lost(before.value)
  {
    var raised: CostAssumptions := c.(fraudLossRate := dearer);
    if dearer > c.fraudLossRate {
      var rows := Zip(scores, labels, amounts);
      forall t
        ensures CostOf(rows, raised)(t) == CostOf(rows, c)(t) + (dearer - c.fraudLossRate) * Lost(rows, c.reviewFraudCaptureRate)(t) + 0.0
      {
        DearerFraudPrice(rows, c, dearer, t);
      }
      RaisedSearch(scores, labels, amounts, c, raised, prior, n, Lost(rows, c.reviewFraudCaptureRate), dearer - c.fraudLossRate, 0.0);
    }
  }

  /** The per-payment operational cost has no say in the thresholds. */
  lemma OperationalCostIsNeutral(scores: seq<real>, labels: seq<int>, amounts: seq<real>, c: CostAssumptions, other: real,
                                 prior: DecisionThresholds, n: int)
    ensures Search(scores, labels, amounts, c.(operationalCost := other), prior, n) == Search(scores, labels, amounts, c, prior, n)
  {
    var moved: CostAssumptions := c.(operationalCost := other);
    if n >= 0 && scores != [] && SameLength(scores, labels, amounts) {
      var rows := Zip(scores, labels, amounts);
      RaisedSearch(scores, labels, amounts, c, moved, prior, n, t => 0.0, 1.0, Times(|rows|, other) - Times(|rows|, c.operationalCost));
    } else {
      assert moved.maxReviewRate == c.maxReviewRate;
    }
  }

  // ----- order of the rows -----

  lemma {:induction false} CountAppend<T>(a: seq<T>, b: seq<T>, p: T -> bool)
    ensures CountWhere(a + b, p) == CountWhere(a, p) + CountWhere(b, p)
  {
    if b == [] {
      assert a + b == a;
    } else {
      CountAppend(a, b[..|b| - 1], p);
      PeelLast(a, b);
    }
  }

  lemma {:induction false} SumAppend<T>(a: seq<T>, b: seq<T>, p: T -> bool, f: T -> real)
    ensures SumWhere(a + b, p, f) == SumWhere(a, p, f) + SumWhere(b, p, f)
  {
    if b == [] {
      assert a + b == a;
    } else {
      SumAppend(a, b[..|b| - 1], p, f);
      PeelLast(a, b);
    }
  }

  lemma {:induction false} OneApart(rows: seq<Row>, i: nat, p: Row -> bool)
    requires i < |rows|
    ensures CountWhere(rows, p) == CountWhere(rows[..i] + rows[i + 1..], p) + if p(rows[i]) then 1 else 0
    ensures SumWhere(rows, p, Amount) == SumWhere(rows[..i] + rows[i + 1..], p, Amount) + if p(rows[i]) then rows[i].amount else 0.0
  {
    var l, m, r := rows[..i], [rows[i]], rows[i + 1..];
    WithoutOne(rows, i);
    assert m[..0] == [];
    CountAppend(l + m, r, p);
    CountAppend(l, m, p);
    CountAppend(l, r, p);
    SumAppend(l + m, r, p, Amount);
    SumAppend(l, m, p, Amount);
    SumAppend(l, r, p, Amount);
  }

  /** Counts and amounts do not depend on the order of the rows. */
  lemma {:induction false} OrderFree(rows: seq<Row>, others: seq<Row>, p: Row -> bool)
    requires multiset(rows) == multiset(others)
    ensures CountWhere(rows, p) == CountWhere(others, p) && SumWhere(rows, p, Amount) == SumWhere(others, p, Amount)
  {
    if rows == [] {
      assert |multiset(others)| == 0;
    } else {
      var i := DropSame(rows, others);
      OneApart(rows, 0, p);
      OneApart(others, i, p);
      assert rows[..0] + rows[1..] == rows[1..];
      OrderFree(rows[1..], others[..i] + others[i + 1..], p);
    }
  }

  lemma BooksOrderFree(rows: seq<Row>, others: seq<Row>, c: Costs, t: Cutoffs)
    requires multiset(rows) == multiset(others)
    ensures Books(rows, c, t) == Books(others, c, t)
  {
    OrderFree(rows, others, Class(t, Approve, true));
    OrderFree(rows, others, Class(t, Review, true));
    OrderFree(rows, others, Class(t, Review, false));
    OrderFree(rows, others, Class(t, Decline, false));
    OrderFree(rows, others, Decided(t, Review));
    assert |rows| == |multiset(rows)| == |multiset(others)| == |others|;
  }

  lemma {:induction false} ScoresReviewed(scores: seq<real>, labels: seq<int>, amounts: seq<real>, t: Cutoffs)
    requires SameLength(scores, labels, amounts)
    ensures CountWhere(scores, Scored(t, Review)) == CountWhere(Zip(scores, labels, amounts), Decided(t, Review))
  {
    if scores != [] {
      var k := |scores| - 1;
      ScoresReviewed(scores[..k], labels[..k], amounts[..k], t);
      assert Zip(scores, labels, amounts)[..k] == Zip(scores[..k], labels[..k], amounts[..k]);
    }
  }

  ghost predicate SameSearch(cands: seq<Cutoffs>, f: Filter, g: Filter, cost: Price, price: Price) {
    forall t | t in cands :: f(t) == g(t) && cost(t) == price(t)
  }

  lemma {:induction false} SamePick(cands: seq<Cutoffs>, f: Filter, g: Filter, cost: Price, price: Price)
    requires SameSearch(cands, f, g, cost, price)
    ensures Pick(cands, f, cost) == Pick(cands, g, price)
    ensures Pick(cands, f, cost).Some? ==> Pick(cands, f, cost).value in cands
  {
    if cands != [] {
      SamePick(cands[..|cands| - 1], f, g, cost, price);
    }
  }

  /** The thresholds found do not depend on the order of the validation rows. */
  lemma SearchOrderFree(scores: seq<real>, labels: seq<int>, amounts: seq<real>,
                        scores': seq<real>, labels': seq<int>, amounts': seq<real>, c: CostAssumptions, prior: DecisionThresholds, n: int)
    requires SameLength(scores, labels, amounts) && SameLength(scores', labels', amounts')
    requires multiset(Zip(scores, labels, amounts)) == multiset(Zip(scores', labels', amounts'))
    ensures Search(scores, labels, amounts, c, prior, n) == Search(scores', labels', amounts', c, prior, n)
  {
    var rows, rows' := Zip(scores, labels, amounts), Zip(scores', labels', amounts');
    assert |rows| == |multiset(rows)| == |multiset(rows')| == |rows'|;
    if n >= 0 && scores != [] {
      var cands := Candidates(Linspace(n));
      forall t | t in cands
        ensures WithinCap(scores, c.maxReviewRate)(t) == WithinCap(scores', c.maxReviewRate)(t) && CostOf(rows, c)(t) == CostOf(rows', c)(t)
      {
        BooksOrderFree(rows, rows', c, t);
        ScoresReviewed(scores, labels, amounts, t);
        ScoresReviewed(scores', labels', amounts', t);
        OrderFree(rows, rows', Decided(t, Review));
      }
      SamePick(cands, WithinCap(scores, c.maxReviewRate), WithinCap(scores', c.maxReviewRate), CostOf(rows, c), CostOf(rows', c));
    }
  }

  // ----- the engine -----

  /** The best candidate so far and its cost; no cost stands for infinity. */
  datatype Standing = Standing(best: Cutoffs, bestCost: Option<real>)

  /** What one candidate comes to: no price when its review rate is over the cap. */
  type Pricer = Cutoffs -> Outcome<Option<real>>

  function PriceOf(scores: seq<real>, labels: seq<int>, amounts: seq<real>, c: CostAssumptions): Pricer {
    t =>
      if scores == [] then Failed(DivisionByZero)
      else if ReviewRate(scores, t) > c.maxReviewRate then Done(None)
      else if SameLength(scores, labels, amounts) then Done(Some(Books(Zip(scores, labels, amounts), c, t).Total()))
      else Failed(LengthMismatch)
  }

  function Challenge(s: Standing, t: Cutoffs, price: Option<real>): Standing {
    if price.Some? && (s.bestCost.None? || price.value < s.bestCost.value) then Standing(t, price) else s
  }

  /** The standing after the listed candidates, or the first failure among them. */
  function Sweep(cands: seq<Cutoffs>, priced: Pricer, prior: Cutoffs): Outcome<Standing> {
    if cands == [] then Done(Standing(prior, None)) else
      var before, t := Sweep(cands[..|cands| - 1], priced, prior), cands[|cands| - 1];
      if before.Failed? then before
      else if priced(t).Failed? then Failed(priced(t).error)
      else Done(Challenge(before.value, t, priced(t).value))
  }

  lemma {:induction false} NextSweep(cands: seq<Cutoffs>, t: Cutoffs, priced: Pricer, prior: Cutoffs)
    requires Sweep(cands, priced, prior).Done?
    ensures Sweep(cands + [t], priced, prior) == if priced(t).Failed? then Failed(priced(t).error)
                                                 else Done(Challenge(Sweep(cands, priced, prior).value, t, priced(t).value))
  {
    assert (cands + [t])[..|cands|] == cands;
  }

  /** A failure is final. */
  lemma {:induction false} SweepStuck(cands: seq<Cutoffs>, more: seq<Cutoffs>, priced: Pricer, prior: Cutoffs)
    requires Sweep(cands, priced, prior).Failed?
    ensures Sweep(cands + more, priced, prior) == Sweep(cands, priced, prior)
  {
    if more == [] {
      assert cands + more == cands;
    } else {
      SweepStuck(cands, more[..|more| - 1], priced, prior);
      assert (cands + more)[..|cands + more| - 1] == cands + more[..|more| - 1];
    }
  }

  lemma {:induction false} RowStuck(points: seq<real>, i: nat, j: nat, priced: Pricer, prior: Cutoffs)
    requires i < |points| && j <= |points| && Sweep(PairsBefore(points, i) + PairsAt(points, i, j), priced, prior).Failed?
    ensures Sweep(PairsBefore(points, i + 1), priced, prior) == Sweep(PairsBefore(points, i) + PairsAt(points, i, j), priced, prior)
    decreases |points| - j
  {
    if j < |points| {
      var here := PairsBefore(points, i) + PairsAt(points, i, j);
      var next := if points[j] > points[i] then [Cutoffs(points[i], points[j])] else [];
      SweepStuck(here, next, priced, prior);
      Associate(PairsBefore(points, i), PairsAt(points, i, j), next);
      RowStuck(points, i, j + 1, priced, prior);
    }
  }

  lemma {:induction false} RowsStuck(points: seq<real>, i: nat, k: nat, priced: Pricer, prior: Cutoffs)
    requires i <= k <= |points| && Sweep(PairsBefore(points, i), priced, prior).Failed?
    ensures Sweep(PairsBefore(points, k), priced, prior) == Sweep(PairsBefore(points, i), priced, prior)
    decreases k - i
  {
    if i < k {
      assert PairsBefore(points, i) + PairsAt(points, i, 0) == PairsBefore(points, i);
      RowStuck(points, i, 0, priced, prior);
      RowsStuck(points, i + 1, k, priced, prior);
    }
  }

  /** The outcome of sweeping candidates, in terms of what they cost. */
  function Verdict(cands: seq<Cutoffs>, scores: seq<real>, labels: seq<int>, amounts: seq<real>, c: CostAssumptions, prior: Cutoffs)
    : Outcome<Standing>
  {
    if cands == [] then Done(Standing(prior, None))
    else if scores == [] then Failed(DivisionByZero)
    else if SameLength(scores, labels, amounts) then
      var cost := CostOf(Zip(scores, labels, amounts), c);
      var p := Pick(cands, WithinCap(scores, c.maxReviewRate), cost);
      Done(Standing(OrElse(p, prior), if p.Some? then Some(cost(p.value)) else None))
    else if AnyFeasible(cands, WithinCap(scores, c.maxReviewRate)) then Failed(LengthMismatch)
    else Done(Standing(prior, None))
  }

  lemma FeasibleGrows(cands: seq<Cutoffs>, t: Cutoffs, feasible: Filter)
    ensures AnyFeasible(cands + [t], feasible) <==> AnyFeasible(cands, feasible) || feasible(t)
  {
    if AnyFeasible(cands, feasible) {
      var u :| u in cands && feasible(u);
      assert u in cands + [t];
    }
    if feasible(t) {
      assert t in cands + [t];
    }
  }

  lemma VerdictStep(cands: seq<Cutoffs>, t: Cutoffs, scores: seq<real>, labels: seq<int>, amounts: seq<real>,
                    c: CostAssumptions, prior: Cutoffs)
    ensures var before, price := Verdict(cands, scores, labels, amounts, c, prior), PriceOf(scores, labels, amounts, c)(t);
            Verdict(cands + [t], scores, labels, amounts, c, prior) ==
            if before.Failed? then before else if price.Failed? then Failed(price.error) else Done(Challenge(before.value, t, price.value))
  {
    if scores != [] {
      FeasibleGrows(cands, t, WithinCap(scores, c.maxReviewRate));
      if SameLength(scores, labels, amounts) {
        NextPick(cands, t, WithinCap(scores, c.maxReviewRate), CostOf(Zip(scores, labels, amounts), c));
      }
    }
  }

  lemma {:induction false} SweepGives(cands: seq<Cutoffs>, scores: seq<real>, labels: seq<int>, amounts: seq<real>,
                                        c: CostAssumptions, prior: Cutoffs)
    ensures Sweep(cands, PriceOf(scores, labels, amounts, c), prior) == Verdict(cands, scores, labels, amounts, c, prior)
  {
    if cands != [] {
      var before, t := cands[..|cands| - 1], cands[|cands| - 1];
      SweepGives(before, scores, labels, amounts, c, prior);
      assert cands == before + [t];
      VerdictStep(before, t, scores, labels, amounts, c, prior);
    }
  }

  /** The code's sweep over the grid is the search. */
  lemma {:induction false} SweepIsSearch(scores: seq<real>, labels: seq<int>, amounts: seq<real>, c: CostAssumptions,
                                           prior: DecisionThresholds, n: nat)
    ensures var swept := Sweep(Candidates(Linspace(n)), PriceOf(scores, labels, amounts, c), prior);
            var found := Search(scores, labels, amounts, c, prior, n);
            if swept.Failed? then found == Failed(swept.error) else found == Done(swept.value.best)
  {
    SweepGives(Candidates(Linspace(n)), scores, labels, amounts, c, prior);
  }

  class DecisionEngine {
    var assumptions: CostAssumptions
    var thresholds: DecisionThresholds

    constructor (assumptions: Option<CostAssumptions>, thresholds: Option<DecisionThresholds>)
      ensures this.assumptions == if assumptions.Some? then assumptions.value else Costs(1.0, 35.0, 8.0, 4.0, 0.05, 0.80, 0.05)
      ensures this.thresholds == if thresholds.Some? then thresholds.value else Cutoffs(0.45, 0.75)
    {
      this.assumptions := if assumptions.Some? then assumptions.value else Costs(1.0, 35.0, 8.0, 4.0, 0.05, 0.80, 0.05);
      this.thresholds := if thresholds.Some? then thresholds.value else Cutoffs(0.45, 0.75);
    }

    /** A score on a threshold takes the stricter decision. */
    function Decide(score: real): (d: Decision)
      reads this
      ensures d == Approve <==> score < thresholds.review
      ensures d == Decline <==> score >= thresholds.decline
    {
      DecideWith(score, thresholds)
    }

    /** The loop over the data, with its four running totals. */
    method Evaluate(scores: seq<real>, labels: seq<int>, amounts: seq<real>, chosen: Option<DecisionThresholds>)
      returns (outcome: Outcome<CostBreakdown>)
      ensures outcome == if SameLength(scores, labels, amounts)
                         then Done(Books(Zip(scores, labels, amounts), assumptions, if chosen.Some? then chosen.value else thresholds))
                         else Failed(LengthMismatch)
    {
      var t := if chosen.Some? then chosen.value else thresholds;
      if !SameLength(scores, labels, amounts) {
        return Failed(LengthMismatch);
      }
      var fraudLoss, falsePositive, reviewCost, operational := 0.0, 0.0, 0.0, 0.0;
      ghost var rows := Zip(scores, labels, amounts);
      NoRows(assumptions, t);
      for i := 0 to |scores|
        invariant CostBreakdown(fraudLoss, falsePositive, reviewCost, operational) == Books(rows[..i], assumptions, t)
      {
        BooksStep(rows, assumptions, t, i);
        var decision := DecideWith(scores[i], t);
        operational := operational + assumptions.operationalCost;
        if decision == Approve && labels[i] != 0 {
          fraudLoss := fraudLoss + amounts[i] * assumptions.fraudLossRate;
        } else if decision == Review {
          reviewCost := reviewCost + assumptions.manualReviewCost;
          if labels[i] != 0 {
            fraudLoss := fraudLoss + amounts[i] * assumptions.fraudLossRate * (1.0 - assumptions.reviewFraudCaptureRate);
          } else {
            falsePositive := falsePositive + assumptions.falsePositiveReviewCost;
          }
        } else if decision == Decline && labels[i] == 0 {
          falsePositive := falsePositive + assumptions.falsePositiveDeclineCost;
        }
      }
      SplitAt(rows, |rows|);
      outcome := Done(CostBreakdown(fraudLoss, falsePositive, reviewCost, operational));
    }

    method CountReviews(scores: seq<real>, t: DecisionThresholds) returns (n: nat)
      ensures n == CountWhere(scores, Scored(t, Review))
    {
      n := 0;
      for i := 0 to |scores|
        invariant n == CountWhere(scores[..i], Scored(t, Review))
      {
        NextCount(scores, i, Scored(t, Review));
        if DecideWith(scores[i], t) == Review {
          n := n + 1;
        }
      }
      SplitAt(scores, |scores|);
    }

    /** One candidate of the search: its review rate, then its cost. */
    method Appraise(scores: seq<real>, labels: seq<int>, amounts: seq<real>, t: DecisionThresholds) returns (outcome: Outcome<Option<real>>)
      ensures outcome == PriceOf(scores, labels, amounts, assumptions)(t)
    {
      if scores == [] {
        return Failed(DivisionByZero);
      }
      var reviews := CountReviews(scores, t);
      if reviews as real / |scores| as real > assumptions.maxReviewRate {
        return Done(None);
      }
      var books := Evaluate(scores, labels, amounts, Some(t));
      outcome := if books.Failed? then Failed(books.error) else Done(Some(books.value.Total()));
    }

    /** The inner loop: one review point against every decline point above it. */
    method SweepRow(scores: seq<real>, labels: seq<int>, amounts: seq<real>, points: seq<real>, i: nat, start: Standing,
                    ghost priced: Pricer, ghost prior: Cutoffs)
      returns (outcome: Outcome<Standing>)
      requires i < |points| && InUnit(points)
      requires priced == PriceOf(scores, labels, amounts, assumptions)
      requires Sweep(PairsBefore(points, i), priced, prior) == Done(start)
      ensures outcome == Sweep(PairsBefore(points, i + 1), priced, prior)
    {
      ghost var before := PairsBefore(points, i);
      var standing := start;
      assert before + PairsAt(points, i, 0) == before;
      for j := 0 to |points|
        invariant Sweep(before + PairsAt(points, i, j), priced, prior) == Done(standing)
      {
        if points[j] > points[i] {
          var t := Cutoffs(points[i], points[j]);
          var price := Appraise(scores, labels, amounts, t);
          NextSweep(before + PairsAt(points, i, j), t, priced, prior);
          Associate(before, PairsAt(points, i, j), [t]);
          if price.Failed? {
            RowStuck(points, i, j + 1, priced, prior);
            return Failed(price.error);
          }
          standing := Challenge(standing, t, price.value);
        } else {
          assert PairsAt(points, i, j) + [] == PairsAt(points, i, j);
        }
      }
      outcome := Done(standing);
    }

    method SweepGrid(scores: seq<real>, labels: seq<int>, amounts: seq<real>, points: seq<real>, ghost priced: Pricer)
      returns (outcome: Outcome<Standing>)
      requires InUnit(points)
      requires priced == PriceOf(scores, labels, amounts, assumptions)
      ensures outcome == Sweep(Candidates(points), priced, thresholds)
    {
      var standing := Standing(thresholds, None);
      var last := if points == [] then 0 else |points| - 1;
      for i := 0 to last
        invariant Sweep(PairsBefore(points, i), priced, thresholds) == Done(standing)
      {
        outcome := SweepRow(scores, labels, amounts, points, i, standing, priced, thresholds);
        if outcome.Failed? {
          RowsStuck(points, i + 1, last, priced, thresholds);
          return;
        }
        standing := outcome.value;
      }
      outcome := Done(standing);
    }

    /** The grid search. The new thresholds are what the search finds; a failed search leaves the
        old ones in place. */
    method Optimize(scores: seq<real>, labels: seq<int>, amounts: seq<real>, gridSize: int) returns (outcome: Outcome<Cutoffs>)
      modifies `thresholds
      ensures outcome == Search(scores, labels, amounts, assumptions, old(thresholds), gridSize)
      ensures thresholds == if outcome.Done? then outcome.value else old(thresholds)
      ensures gridSize >= 0 && scores != [] && SameLength(scores, labels, amounts) ==>
        RightChoice(thresholds, old(thresholds), scores, assumptions.maxReviewRate, gridSize, CostOf(Zip(scores, labels, amounts), assumptions))
    {
      if gridSize >= 0 && scores != [] && SameLength(scores, labels, amounts) {
        SearchChoosesRight(scores, labels, amounts, assumptions, thresholds, gridSize);
      }
      if gridSize < 0 {
        return Failed(NegativeGrid);
      }
      LinspaceIncreases(gridSize);
      SweepIsSearch(scores, labels, amounts, assumptions, thresholds, gridSize);
      var swept := SweepGrid(scores, labels, amounts, Linspace(gridSize), PriceOf(scores, labels, amounts, assumptions));
      if swept.Failed? {
        return Failed(swept.error);
      }
      FoundIsValid(scores, labels, amounts, assumptions, thresholds, gridSize);
      thresholds := swept.value.best;
      outcome := Done(thresholds);
    }
  }
}
