/** The evaluation and choice of commitment candidates (core/optimizer-runs/optimizer-worker.ts). */
module Optimizer {
  import opened Common
  import opened Sorting

  const HOURS_PER_MONTH := 730
  const BPS := 10_000

  // ---------------------------------------------------------------- kernels

  predicate IntLeq(left: int, right: int) {
    left <= right
  }

  /** The nearest rank: the ceiling of pct% of n, counted from one. */
  function Rank(n: nat, pct: nat): int {
    CeilDiv(pct * n, 100)
  }

  function Percentile(values: seq<int>, pct: nat): int
    requires pct <= 100
  {
    if values == [] then 0 else
    RankInRange(|values|, pct);
    values[Max(0, Rank(|values|, pct) - 1)]
  }

  lemma RankInRange(n: nat, pct: nat)
    requires n > 0 && pct <= 100
    ensures 0 <= Rank(n, pct) <= n && (pct > 0 ==> Rank(n, pct) >= 1)
  {
    assert 0 <= pct * n <= 100 * n;
    if pct > 0 {
      assert pct * n >= 1;
    }
  }

  function RoundedDiv(numerator: int, denominator: int): int
    requires denominator >= 0
  {
    if denominator == 0 then 0
    else if numerator >= 0 then (numerator + denominator / 2) / denominator
    else -((-numerator + denominator / 2) / denominator)
  }

  function MeanRounded(values: seq<int>): int {
    if values == [] then 0 else RoundedDiv(Sum(values), |values|)
  }

  /** q is a nearest integer to sum / d. */
  predicate Nearest(q: int, d: int, sum: int) {
    -d <= 2 * (q * d - sum) <= d
  }

  /** Rounding is to a nearest integer, whatever the sign. */
  lemma RoundedDivIsNearest(numerator: int, denominator: nat)
    requires denominator > 0
    ensures Nearest(RoundedDiv(numerator, denominator), denominator, numerator)
  {
    HalfRound(if numerator >= 0 then numerator else -numerator, denominator);
  }

  lemma HalfRound(a: int, d: int)
    requires a >= 0 && d > 0
    ensures Nearest((a + d / 2) / d, d, a)
  {
    var q := (a + d / 2) / d;
    assert a + d / 2 == q * d + (a + d / 2) % d;
  }

  lemma ProductSign(x: int, d: int)
    requires d > 0 && x * d >= 0
    ensures x >= 0
  {
  }

  lemma NearestWithin(q: int, d: int, sum: int, low: int, high: int)
    requires d > 0 && Nearest(q, d, sum)
    requires low * d <= sum <= high * d
    ensures low <= q <= high
  {
    assert (2 * q - 2 * low + 1) * d == 2 * (q * d) - 2 * (low * d) + d;
    ProductSign(2 * q - 2 * low + 1, d);
    assert (2 * high - 2 * q + 1) * d == 2 * (high * d) - 2 * (q * d) + d;
    ProductSign(2 * high - 2 * q + 1, d);
  }

  lemma {:induction false} SumWithin(values: seq<int>, low: int, high: int)
    requires forall i | 0 <= i < |values| :: low <= values[i] <= high
    ensures low * |values| <= Sum(values) <= high * |values|
  {
    if values != [] {
      SumWithin(values[1..], low, high);
      assert low * |values| == low + low * |values[1..]| && high * |values| == high + high * |values[1..]|;
    }
  }

  /** The rounded mean never leaves the range of its values. */
  lemma MeanIsBetween(values: seq<int>, low: int, high: int)
    requires values != [] && forall i | 0 <= i < |values| :: low <= values[i] <= high
    ensures low <= MeanRounded(values) <= high
  {
    SumWithin(values, low, high);
    RoundedDivIsNearest(Sum(values), |values|);
    NearestWithin(MeanRounded(values), |values|, Sum(values), low, high);
  }

  // ---------------------------------------------------------------- one price item

  datatype Policy = Policy(maxDownsideLoss: int, minExpectedSavings: int, maxUtilizationGapBps: int,
      liquidityPenaltyBps: int)

  datatype PriceItem = PriceItem(hourlyRateCents: nat, upfrontCents: nat, termMonths: nat)

  datatype Constraint = RiskBudget | MinimumExpectedSavings | UtilizationGap

  datatype RiskBand = Low | Medium | High

  datatype Candidate = Candidate(
    commitment: int, expectedSavings: int, p95Downside: int, utilizationP50: int, utilizationP95: int,
    riskBand: RiskBand, feasible: bool, binding: seq<Constraint>)

  /** What a month costs beside its usage: the commitment's price, spread upfront payment and illiquidity. */
  function Overhead(policy: Policy, item: PriceItem): int {
    item.hourlyRateCents * HOURS_PER_MONTH
    + RoundedDiv(item.upfrontCents, item.termMonths)
    + RoundedDiv(item.upfrontCents * policy.liquidityPenaltyBps, BPS)
  }

  function Net(cost: int, commitment: int, overhead: int): int {
    cost - overhead - if commitment > cost then commitment - cost else 0
  }

  function Nets(costs: seq<int>, commitment: int, overhead: int): (nets: seq<int>)
    ensures |nets| == |costs| && forall i | 0 <= i < |costs| :: nets[i] == Net(costs[i], commitment, overhead)
  {
    seq(|costs|, i requires 0 <= i < |costs| => Net(costs[i], commitment, overhead))
  }

  function Loss(net: int): nat {
    if net < 0 then -net else 0
  }

  function Losses(nets: seq<int>): (losses: seq<int>)
    ensures |losses| == |nets| && forall i | 0 <= i < |nets| :: losses[i] == Loss(nets[i])
  {
    seq(|nets|, i requires 0 <= i < |nets| => Loss(nets[i]))
  }

  function Utilization(cost: nat, commitment: nat): int {
    if commitment == 0 then 0 else Min(cost, commitment) * BPS / commitment
  }

  predicate NonNegative(costs: seq<int>) {
    forall i | 0 <= i < |costs| :: costs[i] >= 0
  }

  function Utilizations(costs: seq<int>, commitment: nat): (utilizations: seq<int>)
    requires NonNegative(costs)
    ensures |utilizations| == |costs| && forall i | 0 <= i < |costs| ::
            utilizations[i] == Utilization(costs[i], commitment)
  {
    seq(|costs|, i requires 0 <= i < |costs| && costs[i] >= 0 => Utilization(costs[i], commitment))
  }

  function Binding(policy: Policy, expected: int, p95Downside: int, utilizationGapBps: int): seq<Constraint> {
    (if p95Downside > policy.maxDownsideLoss then [RiskBudget] else [])
    + (if expected < policy.minExpectedSavings then [MinimumExpectedSavings] else [])
    + (if utilizationGapBps > policy.maxUtilizationGapBps then [UtilizationGap] else [])
  }

  method BindingConstraints(policy: Policy, expected: int, p95Downside: int, utilizationGapBps: int)
    returns (values: seq<Constraint>)
    ensures values == Binding(policy, expected, p95Downside, utilizationGapBps)
    ensures RiskBudget in values <==> p95Downside > policy.maxDownsideLoss
    ensures MinimumExpectedSavings in values <==> expected < policy.minExpectedSavings
    ensures UtilizationGap in values <==> utilizationGapBps > policy.maxUtilizationGapBps
  {
    values := [];
    if p95Downside > policy.maxDownsideLoss { values := values + [RiskBudget]; }
    if expected < policy.minExpectedSavings { values := values + [MinimumExpectedSavings]; }
    if utilizationGapBps > policy.maxUtilizationGapBps { values := values + [UtilizationGap]; }
  }

  function Band(p95Downside: int, maxDownsideLoss: int): RiskBand {
    if p95Downside == 0 then Low else if p95Downside <= maxDownsideLoss then Medium else High
  }

  /** The costs of the eligible forecast points, sorted. */
  function Eligible(costs: seq<int>): (sorted: seq<int>)
    requires NonNegative(costs)
    ensures |sorted| == |costs| && NonNegative(sorted) && Sorted(sorted, IntLeq)
  {
    SortPermutes(costs, IntLeq);
    IntOrder();
    SortSorts(costs, IntLeq);
    SortStaysNonNegative(costs);
    Sort(costs, IntLeq)
  }

  lemma SortStaysNonNegative(costs: seq<int>)
    requires NonNegative(costs)
    ensures NonNegative(Sort(costs, IntLeq))
  {
    var sorted := Sort(costs, IntLeq);
    forall i | 0 <= i < |sorted|
      ensures sorted[i] >= 0
    {
      SortMembers(costs, IntLeq, sorted[i]);
    }
  }

  lemma IntOrder()
    ensures TotalPreorder(IntLeq) && Antisymmetric(IntLeq)
  {
  }

  /** The nearest-rank median. */
  function Commitment(costs: seq<int>): (c: nat)
    requires NonNegative(costs)
  {
    if costs != [] then RankInRange(|costs|, 50); Percentile(Eligible(costs), 50) else 0
  }

  function NetsOf(policy: Policy, costs: seq<int>, item: PriceItem): seq<int>
    requires NonNegative(costs)
  {
    Nets(Eligible(costs), Commitment(costs), Overhead(policy, item))
  }

  function P95Downside(policy: Policy, costs: seq<int>, item: PriceItem): int
    requires NonNegative(costs)
  {
    Percentile(Sort(Losses(NetsOf(policy, costs, item)), IntLeq), 95)
  }

  function UtilizationAt(costs: seq<int>, pct: nat): int
    requires NonNegative(costs) && pct <= 100
  {
    Percentile(Sort(Utilizations(Eligible(costs), Commitment(costs)), IntLeq), pct)
  }

  function EvaluateItem(policy: Policy, costs: seq<int>, item: PriceItem): seq<Candidate>
    requires NonNegative(costs)
  {
    if costs == [] then [] else
    var expected := MeanRounded(NetsOf(policy, costs, item));
    var p95Downside := P95Downside(policy, costs, item);
    var utilizationP50, utilizationP95 := UtilizationAt(costs, 50), UtilizationAt(costs, 95);
    var binding := Binding(policy, expected, p95Downside, BPS - utilizationP50);
    [Candidate(Commitment(costs), if expected > 0 then expected else 0, p95Downside, utilizationP50, utilizationP95,
               Band(p95Downside, policy.maxDownsideLoss), binding == [], binding)]
  }

  // ---------------------------------------------------------------- what the evaluation means

  /** The net saving grows with the cost. */
  lemma NetIsMonotone(cost: int, cost': int, commitment: int, overhead: int)
    requires cost <= cost'
    ensures Net(cost, commitment, overhead) <= Net(cost', commitment, overhead)
    ensures Loss(Net(cost, commitment, overhead)) >= Loss(Net(cost', commitment, overhead))
  {
  }

  function Reversed(items: seq<int>): (r: seq<int>)
    ensures |r| == |items| && forall i | 0 <= i < |items| :: r[i] == items[|items| - 1 - i]
    ensures multiset(r) == multiset(items)
  {
    if items == [] then [] else
    assert items == [items[0]] + items[1..];
    Reversed(items[1..]) + [items[0]]
  }

  /** Sorting a descending sequence turns it round. */
  lemma SortOfDescending(items: seq<int>)
    requires forall i, j | 0 <= i < j < |items| :: items[i] >= items[j]
    ensures Sort(items, IntLeq) == Reversed(items)
  {
    IntOrder();
    SortSorts(items, IntLeq);
    SortPermutes(items, IntLeq);
    SortedIsUnique(Sort(items, IntLeq), Reversed(items), IntLeq);
  }

  lemma SortOfSorted(items: seq<int>)
    requires Sorted(items, IntLeq)
    ensures Sort(items, IntLeq) == items
  {
    IntOrder();
    SortSorts(items, IntLeq);
    SortPermutes(items, IntLeq);
    SortedIsUnique(Sort(items, IntLeq), items, IntLeq);
  }

  /** The p95 downside is the loss at sorted cost n - ceil(95n / 100), counted from zero. */
  lemma P95DownsideIsLossAtRank(policy: Policy, costs: seq<int>, item: PriceItem)
    requires costs != [] && NonNegative(costs)
    ensures var n := |costs|; var k := n - Rank(n, 95);
            0 <= k < n && P95Downside(policy, costs, item) ==
                          Loss(Net(Eligible(costs)[k], Commitment(costs), Overhead(policy, item)))
  {
    var sorted, nets := Eligible(costs), NetsOf(policy, costs, item);
    var losses := Losses(nets);
    forall i, j | 0 <= i < j < |losses|
      ensures losses[i] >= losses[j]
    {
      assert IntLeq(sorted[i], sorted[j]);
      NetIsMonotone(sorted[i], sorted[j], Commitment(costs), Overhead(policy, item));
    }
    SortOfDescending(losses);
    RankInRange(|costs|, 95);
  }

  lemma DivideMonotone(a: int, b: int, d: int)
    requires 0 <= a <= b && d > 0
    ensures 0 <= a / d <= b / d
  {
    assert a == (a / d) * d + a % d && b == (b / d) * d + b % d;
    assert (b / d - a / d + 1) * d == (b / d) * d - (a / d) * d + d;
    assert (b / d - a / d + 1) * d > 0;
    ProductPositive(b / d - a / d + 1, d);
  }

  lemma ProductPositive(x: int, d: int)
    requires d > 0 && x * d > 0
    ensures x > 0
  {
  }

  lemma UtilizationIsMonotone(cost: nat, cost': nat, commitment: nat)
    requires cost <= cost'
    ensures Utilization(cost, commitment) <= Utilization(cost', commitment)
  {
    if commitment > 0 {
      DivideMonotone(Min(cost, commitment) * BPS, Min(cost', commitment) * BPS, commitment);
    }
  }

  lemma UtilizationIsFullAt(cost: nat, commitment: nat)
    requires 0 < commitment <= cost
    ensures Utilization(cost, commitment) == BPS
  {
    assert Min(cost, commitment) * BPS == BPS * commitment;
    assert BPS * commitment / commitment == BPS;
  }

  lemma UtilizationsAreSorted(costs: seq<int>)
    requires NonNegative(costs)
    ensures var utilizations := Utilizations(Eligible(costs), Commitment(costs));
            Sort(utilizations, IntLeq) == utilizations
  {
    var sorted, commitment := Eligible(costs), Commitment(costs);
    var utilizations := Utilizations(sorted, commitment);
    forall i, j | 0 <= i < j < |utilizations|
      ensures IntLeq(utilizations[i], utilizations[j])
    {
      assert IntLeq(sorted[i], sorted[j]);
      UtilizationIsMonotone(sorted[i], sorted[j], commitment);
    }
    SortOfSorted(utilizations);
  }

  /** The median commitment is reached at and above the middle rank. */
  lemma CostsFromMedian(costs: seq<int>, pct: nat)
    requires costs != [] && NonNegative(costs) && 50 <= pct <= 100
    ensures var k := Rank(|costs|, pct) - 1;
            0 <= k < |costs| && Commitment(costs) <= Eligible(costs)[k]
  {
    var sorted, n := Eligible(costs), |costs|;
    RankInRange(n, 50);
    RankInRange(n, pct);
    RankGrows(n, 50, pct);
    var median, k := Rank(n, 50) - 1, Rank(n, pct) - 1;
    assert median < k ==> IntLeq(sorted[median], sorted[k]);
  }

  /** Any percentile from the 50th on of the utilization is full, unless the commitment is zero. */
  lemma UtilizationIsFull(costs: seq<int>, pct: nat)
    requires costs != [] && NonNegative(costs) && 50 <= pct <= 100
    ensures UtilizationAt(costs, pct) == if Commitment(costs) > 0 then BPS else 0
  {
    var k := Rank(|costs|, pct) - 1;
    UtilizationsAreSorted(costs);
    CostsFromMedian(costs, pct);
    assert UtilizationAt(costs, pct) == Utilization(Eligible(costs)[k], Commitment(costs));
    if Commitment(costs) > 0 {
      UtilizationIsFullAt(Eligible(costs)[k], Commitment(costs));
    }
  }

  lemma RankGrows(n: nat, pct: nat, pct': nat)
    requires pct <= pct'
    ensures Rank(n, pct) <= Rank(n, pct')
  {
    assert pct * n <= pct' * n;
  }

  /** The utilization gap can bind only at a zero commitment, under any policy that tolerates a non-negative gap. */
  lemma GapBindsOnlyAtZero(policy: Policy, costs: seq<int>, item: PriceItem)
    requires costs != [] && NonNegative(costs)
    ensures var candidate := EvaluateItem(policy, costs, item)[0];
            UtilizationGap in candidate.binding <==>
            (if candidate.commitment > 0 then 0 else BPS) > policy.maxUtilizationGapBps
    ensures policy.maxUtilizationGapBps >= 0 && UtilizationGap in EvaluateItem(policy, costs, item)[0].binding ==>
            EvaluateItem(policy, costs, item)[0].commitment == 0
  {
    UtilizationIsFull(costs, 50);
  }

  /** A candidate is feasible exactly when it meets each bound of the policy. */
  lemma FeasibleMeetsPolicy(policy: Policy, costs: seq<int>, item: PriceItem)
    requires costs != [] && NonNegative(costs)
    ensures var candidate := EvaluateItem(policy, costs, item)[0];
            candidate.feasible <==>
            && candidate.p95Downside <= policy.maxDownsideLoss
            && MeanRounded(NetsOf(policy, costs, item)) >= policy.minExpectedSavings
            && (if candidate.commitment > 0 then 0 else BPS) <= policy.maxUtilizationGapBps
    ensures var candidate := EvaluateItem(policy, costs, item)[0];
            candidate.feasible ==> candidate.riskBand != High
  {
    UtilizationIsFull(costs, 50);
  }

  /** The reported savings are the rounded mean net exactly when that is not negative, which a feasible candidate's is
      as long as the policy asks for savings that are not negative. */
  lemma ReportedSavings(policy: Policy, costs: seq<int>, item: PriceItem)
    requires costs != [] && NonNegative(costs)
    ensures var candidate := EvaluateItem(policy, costs, item)[0]; var mean := MeanRounded(NetsOf(policy, costs, item));
            && (candidate.expectedSavings == mean <==> mean >= 0)
            && (candidate.feasible && policy.minExpectedSavings >= 0 ==> candidate.expectedSavings == mean)
  {
  }

  /** A month without usage under any priced commitment: the mean is a loss, and it is reported as no savings. */
  lemma LossIsReportedAsZero(policy: Policy, rate: int)
    requires rate > 0
    ensures var item := PriceItem(rate, 0, 12);
            && MeanRounded(NetsOf(policy, [0], item)) == -rate * HOURS_PER_MONTH
            && EvaluateItem(policy, [0], item)[0].expectedSavings == 0
  {
    var item := PriceItem(rate, 0, 12);
    SortOfSorted([0]);
    assert Eligible([0]) == [0] && Commitment([0]) == 0;
    assert RoundedDiv(0 * policy.liquidityPenaltyBps, BPS) == 0;
    assert Overhead(policy, item) == rate * HOURS_PER_MONTH;
    assert NetsOf(policy, [0], item) == [-rate * HOURS_PER_MONTH];
    assert Sum([-rate * HOURS_PER_MONTH]) == -rate * HOURS_PER_MONTH;
  }

  /** The mean lies between the nets of the least and of the greatest cost. */
  lemma MeanIsBetweenExtremes(policy: Policy, costs: seq<int>, item: PriceItem)
    requires costs != [] && NonNegative(costs)
    ensures var nets := NetsOf(policy, costs, item);
            nets[0] <= MeanRounded(nets) <= nets[|nets| - 1]
  {
    var sorted, nets := Eligible(costs), NetsOf(policy, costs, item);
    forall i | 0 <= i < |nets|
      ensures nets[0] <= nets[i] <= nets[|nets| - 1]
    {
      assert 0 < i ==> IntLeq(sorted[0], sorted[i]);
      assert i < |nets| - 1 ==> IntLeq(sorted[i], sorted[|nets| - 1]);
      NetIsMonotone(sorted[0], sorted[i], Commitment(costs), Overhead(policy, item));
      NetIsMonotone(sorted[i], sorted[|nets| - 1], Commitment(costs), Overhead(policy, item));
    }
    MeanIsBetween(nets, nets[0], nets[|nets| - 1]);
  }

  // ---------------------------------------------------------------- the choice

  function CompareCandidates(left: Candidate, right: Candidate): int {
    if left.feasible != right.feasible then (if left.feasible then -1 else 1) else
    var expected := right.expectedSavings - left.expectedSavings;
    if expected != 0 then (if expected > 0 then 1 else -1) else
    var downside := left.p95Downside - right.p95Downside;
    if downside == 0 then 0 else if downside > 0 then 1 else -1
  }

  predicate Before(left: Candidate, right: Candidate) {
    CompareCandidates(left, right) <= 0
  }

  /** The comparator is consistent: a total preorder that answers oppositely when its arguments change places. */
  lemma CandidateOrder()
    ensures TotalPreorder(Before)
    ensures forall left, right :: CompareCandidates(left, right) == -CompareCandidates(right, left)
  {
    assert forall x, y :: Before(x, y) || Before(y, x);
    assert forall x, y, z :: Before(x, y) && Before(y, z) ==> Before(x, z);
  }

  datatype Priced = Priced(item: PriceItem, costs: seq<int>)

  predicate ValidItems(items: seq<Priced>) {
    forall i | 0 <= i < |items| :: NonNegative(items[i].costs)
  }

  /** The flatMap over the price items. */
  function Evaluated(policy: Policy, items: seq<Priced>): seq<Candidate>
    requires ValidItems(items)
  {
    if items == [] then [] else
    EvaluateItem(policy, items[0].costs, items[0].item) + Evaluated(policy, items[1..])
  }

  function Candidates(policy: Policy, items: seq<Priced>): seq<Candidate>
    requires ValidItems(items)
  {
    Sort(Evaluated(policy, items), Before)
  }

  function Feasible(candidates: seq<Candidate>): seq<Candidate> {
    if candidates == [] then [] else
    (if candidates[0].feasible then [candidates[0]] else []) + Feasible(candidates[1..])
  }

  /** The selection of processNext. */
  function Selected(candidates: seq<Candidate>): Option<Candidate> {
    if Feasible(candidates) == [] then None else Some(Feasible(candidates)[0])
  }

  predicate IsFirstFeasible(candidates: seq<Candidate>, i: int) {
    0 <= i < |candidates| && candidates[i].feasible && forall j | 0 <= j < i :: !candidates[j].feasible
  }

  lemma {:induction false} FirstFeasible(candidates: seq<Candidate>)
    ensures Selected(candidates).None? <==> forall i | 0 <= i < |candidates| :: !candidates[i].feasible
    ensures Selected(candidates).Some? ==>
      exists i :: IsFirstFeasible(candidates, i) && candidates[i] == Selected(candidates).value
    decreases |candidates|, 1
  {
    if candidates != [] {
      if candidates[0].feasible {
        assert IsFirstFeasible(candidates, 0);
      } else {
        SkipInfeasible(candidates);
      }
    }
  }

  lemma SkipInfeasible(candidates: seq<Candidate>)
    requires candidates != [] && !candidates[0].feasible
    ensures Selected(candidates).None? <==> forall i | 0 <= i < |candidates| :: !candidates[i].feasible
    ensures Selected(candidates).Some? ==>
      exists i :: IsFirstFeasible(candidates, i) && candidates[i] == Selected(candidates).value
    decreases |candidates|, 0
  {
    var rest := candidates[1..];
    FirstFeasible(rest);
    assert Feasible(candidates) == [] + Feasible(rest) == Feasible(rest);
    assert forall i | 1 <= i < |candidates| :: candidates[i] == rest[i - 1];
    if i :| IsFirstFeasible(rest, i) && Selected(rest).Some? && rest[i] == Selected(rest).value {
      assert IsFirstFeasible(candidates, i + 1);
    }
  }

  /** The selected candidate is one of those evaluated and is feasible whenever one is; among the feasible it has
      the greatest reported savings, and the least downside among those. */
  lemma SelectionIsBest(policy: Policy, items: seq<Priced>)
    requires ValidItems(items)
    ensures var all := Evaluated(policy, items); var selected := Selected(Candidates(policy, items));
            && (selected.Some? <==> exists c | c in all :: c.feasible)
            && (selected.Some? ==> selected.value in all && selected.value.feasible && BestOf(selected.value, all))
  {
    var all, sorted := Evaluated(policy, items), Candidates(policy, items);
    CandidateOrder();
    SortSorts(all, Before);
    FirstFeasible(sorted);
    forall c
      ensures c in sorted <==> c in all
    {
      SortMembers(all, Before, c);
    }
    if Selected(sorted).Some? {
      var i :| IsFirstFeasible(sorted, i) && sorted[i] == Selected(sorted).value;
      assert sorted[i] in sorted;
      FirstIsBest(sorted, i, all);
    } else {
      forall c | c in all
        ensures !c.feasible
      {
        assert c in sorted;
      }
    }
  }

  ghost predicate BestOf(best: Candidate, all: seq<Candidate>) {
    forall c | c in all && c.feasible ::
      c.expectedSavings < best.expectedSavings
        || (c.expectedSavings == best.expectedSavings && c.p95Downside >= best.p95Downside)
  }

  lemma FirstIsBest(sorted: seq<Candidate>, i: nat, all: seq<Candidate>)
    requires Sorted(sorted, Before) && i < |sorted| && sorted[i].feasible
    requires forall j | 0 <= j < i :: !sorted[j].feasible
    requires forall c | c in all :: c in sorted
    ensures BestOf(sorted[i], all)
  {
    forall c | c in all && c.feasible
      ensures c.expectedSavings < sorted[i].expectedSavings ||
              (c.expectedSavings == sorted[i].expectedSavings && c.p95Downside >= sorted[i].p95Downside)
    {
      var k :| 0 <= k < |sorted| && sorted[k] == c;
      assert i < k ==> Before(sorted[i], sorted[k]);
    }
  }

  /** The candidates are a permutation of those evaluated, with every feasible one first. */
  lemma CandidatesAreOrdered(policy: Policy, items: seq<Priced>)
    requires ValidItems(items)
    ensures multiset(Candidates(policy, items)) == multiset(Evaluated(policy, items))
    ensures Sorted(Candidates(policy, items), Before)
    ensures forall i, j | 0 <= i < j < |Candidates(policy, items)| && Candidates(policy, items)[j].feasible ::
              Candidates(policy, items)[i].feasible
  {
    CandidateOrder();
    SortSorts(Evaluated(policy, items), Before);
    SortPermutes(Evaluated(policy, items), Before);
    var candidates := Candidates(policy, items);
    forall i, j | 0 <= i < j < |candidates| && candidates[j].feasible
      ensures candidates[i].feasible
    {
      assert Before(candidates[i], candidates[j]);
    }
  }
}
