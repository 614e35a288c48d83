/** The replay of commitment baselines over past months (core/backtests/backtest-worker.ts). */
module Backtest {
  import opened Common
  import opened Sorting

  datatype Baseline = NoCommitment | LastMonthSteadyState | SeventyPercentUtilization

  /** One stored usage row: its month and its two costs, which the schema keeps non-negative. */
  datatype UsageMonth = UsageMonth(month: string, onDemandCostCents: nat, realizedCostCents: nat)

  datatype MonthlyTotal = MonthlyTotal(month: string, onDemandCostCents: nat, realizedCostCents: nat)

  datatype ReplayMonth = ReplayMonth(
    total: MonthlyTotal, commitment: nat, simulatedCost: nat, savings: int, regret: nat,
    priorMonthsSeen: nat, latestVisibleMonth: Option<string>)

  datatype ReplayResult = ReplayResult(
    baseline: Baseline, onDemand: int, realized: int, simulated: int, savings: int, regret: int,
    months: seq<ReplayMonth>)

  const BPS := 10_000

  // ---------------------------------------------------------------- one month

  function Mean(values: seq<int>): int
    requires values != []
  {
    TruncDiv(Sum(values) + |values| / 2, |values|)
  }

  function CommitmentForBaseline(baseline: Baseline, priorActuals: seq<int>): int {
    if baseline.NoCommitment? || priorActuals == [] then 0 else
    var prior := if baseline.LastMonthSteadyState? then priorActuals[|priorActuals| - 1] else Mean(priorActuals);
    if baseline.SeventyPercentUtilization? then TruncDiv(prior * 70, 100) else prior
  }

  function CommittedCost(commitment: int, discountBps: int): int {
    TruncDiv(commitment * (BPS - discountBps) + 5_000, BPS)
  }

  function SimulatedCost(onDemand: int, commitment: int, discountBps: int): int {
    if commitment == 0 then onDemand else
    var covered := Min(onDemand, commitment);
    onDemand - covered + CommittedCost(commitment, discountBps)
  }

  lemma {:induction false} SumNonNegative(values: seq<int>)
    requires forall i | 0 <= i < |values| :: values[i] >= 0
    ensures Sum(values) >= 0
  {
    if values != [] {
      SumNonNegative(values[1..]);
    }
  }

  lemma CommitmentIsNonNegative(baseline: Baseline, priorActuals: seq<int>)
    requires forall i | 0 <= i < |priorActuals| :: priorActuals[i] >= 0
    ensures CommitmentForBaseline(baseline, priorActuals) >= 0
  {
    SumNonNegative(priorActuals);
  }

  /** With a discount of 0 to 10000 bps a commitment costs at most its face value, and never less than nothing. */
  lemma CommittedCostBounds(commitment: nat, discountBps: nat)
    requires discountBps <= BPS
    ensures 0 <= CommittedCost(commitment, discountBps) <= commitment
    ensures discountBps == BPS ==> CommittedCost(commitment, discountBps) == 0
    ensures discountBps == 0 ==> CommittedCost(commitment, discountBps) == commitment
  {
    assert commitment * (BPS - discountBps) <= commitment * BPS;
    if discountBps == BPS {
      assert commitment * (BPS - discountBps) == 0;
    }
  }

  /** A month loses at most the part of the commitment that it leaves unused. */
  lemma LossIsUnusedCommitment(onDemand: nat, commitment: nat, discountBps: nat)
    requires discountBps <= BPS
    ensures SimulatedCost(onDemand, commitment, discountBps) >= 0
    ensures SimulatedCost(onDemand, commitment, discountBps) - onDemand <= commitment - Min(onDemand, commitment)
  {
    CommittedCostBounds(commitment, discountBps);
  }

  // ---------------------------------------------------------------- the replay

  function Actuals(months: seq<MonthlyTotal>): (actuals: seq<int>)
    ensures |actuals| == |months| && forall i | 0 <= i < |months| :: actuals[i] == months[i].onDemandCostCents
  {
    seq(|months|, i requires 0 <= i < |months| => months[i].onDemandCostCents)
  }

  /** What the decision for a month may use: the months before it. */
  function Commitment(baseline: Baseline, prior: seq<MonthlyTotal>): (c: nat)
  {
    CommitmentIsNonNegative(baseline, Actuals(prior));
    CommitmentForBaseline(baseline, Actuals(prior))
  }

  /** The replay of one month after its prior months. */
  function Replayed(baseline: Baseline, prior: seq<MonthlyTotal>, month: MonthlyTotal, discountBps: nat): ReplayMonth
    requires discountBps <= BPS
  {
    var commitment := Commitment(baseline, prior);
    var cost := SimulatedCost(month.onDemandCostCents, commitment, discountBps);
    LossIsUnusedCommitment(month.onDemandCostCents, commitment, discountBps);
    var savings := month.onDemandCostCents - cost;
    ReplayMonth(month, commitment, cost, savings, if savings < 0 then -savings else 0,
                |prior|, if prior == [] then None else Some(prior[|prior| - 1].month))
  }

  function ReplayedMonths(baseline: Baseline, months: seq<MonthlyTotal>, discountBps: nat): (results: seq<ReplayMonth>)
    requires discountBps <= BPS
    ensures |results| == |months|
    ensures forall i | 0 <= i < |months| :: results[i] == Replayed(baseline, months[..i], months[i], discountBps)
  {
    seq(|months|, i requires 0 <= i < |months| => Replayed(baseline, months[..i], months[i], discountBps))
  }

  function OnDemandOf(m: MonthlyTotal): int { m.onDemandCostCents }

  function RealizedOf(m: MonthlyTotal): int { m.realizedCostCents }

  function CostOf(m: ReplayMonth): int { m.simulatedCost }

  function SavingsOf(m: ReplayMonth): int { m.savings }

  function RegretOf(m: ReplayMonth): int { m.regret }

  function LossOf(m: ReplayMonth): int { Max(0, -m.savings) }

  function GainOf(m: ReplayMonth): int { Max(0, m.savings) }

  /** The part of a month's commitment that its usage did not reach. */
  function UnusedOf(m: ReplayMonth): int { m.commitment - Min(m.total.onDemandCostCents, m.commitment) }

  function Map<A>(items: seq<A>, f: A -> int): (values: seq<int>)
    ensures |values| == |items| && forall i | 0 <= i < |items| :: values[i] == f(items[i])
  {
    seq(|items|, i requires 0 <= i < |items| => f(items[i]))
  }

  function Summed(baseline: Baseline, months: seq<MonthlyTotal>, results: seq<ReplayMonth>): ReplayResult {
    ReplayResult(
      baseline,
      Sum(Map(months, OnDemandOf)),
      Sum(Map(months, RealizedOf)),
      Sum(Map(results, CostOf)),
      Sum(Map(results, SavingsOf)),
      Sum(Map(results, RegretOf)),
      results)
  }

  function Replay(baseline: Baseline, months: seq<MonthlyTotal>, discountBps: nat): ReplayResult
    requires discountBps <= BPS
  {
    Summed(baseline, months, ReplayedMonths(baseline, months, discountBps))
  }

  method ReplayBaseline(baseline: Baseline, months: seq<MonthlyTotal>, discountBps: nat) returns (r: ReplayResult)
    requires discountBps <= BPS
    ensures r == Replay(baseline, months, discountBps)
  {
    ghost var all := ReplayedMonths(baseline, months, discountBps);
    var monthlyResults: seq<ReplayMonth>, priorActuals: seq<int> := [], [];
    for i := 0 to |months|
      invariant priorActuals == Actuals(months[..i])
      invariant monthlyResults == all[..i]
    {
      var latest := if i == 0 then None else Some(months[|monthlyResults| - 1].month);
      var result := OneMonth(baseline, months, i, priorActuals, latest, discountBps);
      TakeNext(all, i);
      ActualsSnoc(months, i);
      monthlyResults := monthlyResults + [result];
      priorActuals := priorActuals + [months[i].onDemandCostCents];
    }
    TakeAll(all);
    r := Summed(baseline, months, monthlyResults);
  }

  lemma TakeNext<T>(items: seq<T>, i: nat)
    requires i < |items|
    ensures items[..i + 1] == items[..i] + [items[i]]
  {
  }

  lemma TakeAll<T>(items: seq<T>)
    ensures items[..|items|] == items
  {
  }

  lemma ActualsSnoc(months: seq<MonthlyTotal>, i: nat)
    requires i < |months|
    ensures Actuals(months[..i + 1]) == Actuals(months[..i]) + [months[i].onDemandCostCents]
  {
  }

  /** The body of the replay's loop. */
  method OneMonth(baseline: Baseline, months: seq<MonthlyTotal>, i: nat, priorActuals: seq<int>,
      latest: Option<string>, discountBps: nat)
    returns (result: ReplayMonth)
    requires discountBps <= BPS && i < |months| && priorActuals == Actuals(months[..i])
    requires latest == if i == 0 then None else Some(months[i - 1].month)
    ensures result == ReplayedMonths(baseline, months, discountBps)[i]
  {
    var month := months[i];
    CommitmentIsNonNegative(baseline, priorActuals);
    var commitment := CommitmentForBaseline(baseline, priorActuals);
    LossIsUnusedCommitment(month.onDemandCostCents, commitment, discountBps);
    var simulatedMonthCost := SimulatedCost(month.onDemandCostCents, commitment, discountBps);
    var savings := month.onDemandCostCents - simulatedMonthCost;
    result := ReplayMonth(month, commitment, simulatedMonthCost, savings, if savings < 0 then -savings else 0,
                          |priorActuals|, latest);
  }

  /** No look-ahead: histories that agree on their first n months get the same first n results, and the same decision
      for the month after them, whatever that month brings. */
  lemma NoLookAhead(baseline: Baseline, months: seq<MonthlyTotal>, months': seq<MonthlyTotal>, discountBps: nat, n: nat)
    requires discountBps <= BPS && n <= |months| && n <= |months'| && months[..n] == months'[..n]
    ensures ReplayedMonths(baseline, months, discountBps)[..n] == ReplayedMonths(baseline, months', discountBps)[..n]
    ensures n < |months| && n < |months'| ==>
      var r, r' := ReplayedMonths(baseline, months, discountBps)[n], ReplayedMonths(baseline, months', discountBps)[n];
      r.commitment == r'.commitment && r.priorMonthsSeen == r'.priorMonthsSeen
      && r.latestVisibleMonth == r'.latestVisibleMonth
  {
    forall i | 0 <= i < n
      ensures ReplayedMonths(baseline, months, discountBps)[i] == ReplayedMonths(baseline, months', discountBps)[i]
    {
      assert months[..i] == months[..n][..i] && months'[..i] == months'[..n][..i];
      assert months[i] == months[..n][i] && months'[i] == months'[..n][i];
    }
  }

  lemma {:induction false} SumPointwise(a: seq<int>, b: seq<int>, c: seq<int>)
    requires |a| == |b| == |c| && forall i | 0 <= i < |a| :: a[i] + b[i] == c[i]
    ensures Sum(a) + Sum(b) == Sum(c)
  {
    if a != [] {
      SumPointwise(a[1..], b[1..], c[1..]);
    }
  }

  lemma {:induction false} SumAtMost(a: seq<int>, b: seq<int>)
    requires |a| == |b| && forall i | 0 <= i < |a| :: a[i] <= b[i]
    ensures Sum(a) <= Sum(b)
  {
    if a != [] {
      SumAtMost(a[1..], b[1..]);
    }
  }

  /** Conservation: what is saved and what is still paid add up to the on-demand cost. */
  lemma SavingsConserve(baseline: Baseline, months: seq<MonthlyTotal>, discountBps: nat)
    requires discountBps <= BPS
    ensures var r := Replay(baseline, months, discountBps);
            r.savings + r.simulated == r.onDemand
  {
    var results := ReplayedMonths(baseline, months, discountBps);
    SumPointwise(Map(results, SavingsOf), Map(results, CostOf),
                 Map(months, OnDemandOf));
  }

  /** A month's regret is at most what it leaves unused of its commitment: nil when it uses all of it. */
  lemma MonthlyRegret(baseline: Baseline, months: seq<MonthlyTotal>, discountBps: nat, i: nat)
    requires discountBps <= BPS && i < |months|
    ensures var m := ReplayedMonths(baseline, months, discountBps)[i];
            m.regret == LossOf(m) && 0 <= m.regret <= UnusedOf(m) <= m.commitment
  {
    var m := ReplayedMonths(baseline, months, discountBps)[i];
    LossIsUnusedCommitment(months[i].onDemandCostCents, m.commitment, discountBps);
  }

  ghost predicate RegretIsLoss(m: ReplayMonth) {
    m.regret == LossOf(m) && m.regret <= UnusedOf(m)
  }

  lemma RegretSums(results: seq<ReplayMonth>)
    requires forall i | 0 <= i < |results| :: RegretIsLoss(results[i])
    ensures Map(results, RegretOf) == Map(results, LossOf)
    ensures 0 <= Sum(Map(results, RegretOf)) <= Sum(Map(results, UnusedOf))
    ensures -Sum(Map(results, SavingsOf)) <= Sum(Map(results, RegretOf))
  {
    SumNonNegative(Map(results, RegretOf));
    SumAtMost(Map(results, RegretOf), Map(results, UnusedOf));
    SumPointwise(Map(results, SavingsOf), Map(results, RegretOf), Map(results, GainOf));
    SumNonNegative(Map(results, GainOf));
  }

  /** Regret is the sum of the negative parts, between the total loss and the commitments left unused. */
  lemma RegretBounds(baseline: Baseline, months: seq<MonthlyTotal>, discountBps: nat)
    requires discountBps <= BPS
    ensures var r := Replay(baseline, months, discountBps);
            && r.regret == Sum(Map(r.months, LossOf))
            && 0 <= r.regret <= Sum(Map(r.months, UnusedOf))
            && -r.savings <= r.regret
  {
    var results := ReplayedMonths(baseline, months, discountBps);
    forall i | 0 <= i < |results|
      ensures RegretIsLoss(results[i])
    {
      MonthlyRegret(baseline, months, discountBps, i);
    }
    RegretSums(results);
  }

  // ---------------------------------------------------------------- the best baseline

  /** The reduce of buildBacktestArtifact: a later candidate wins only if it saves strictly more. */
  method BestBaseline(results: seq<ReplayResult>) returns (best: ReplayResult)
    requires results != []
    ensures exists b | 0 <= b < |results| ::
      && best == results[b]
      && (forall i | 0 <= i < |results| :: results[i].savings <= best.savings)
      && (forall i | 0 <= i < b :: results[i].savings < best.savings)
  {
    best := results[0];
    ghost var b := 0;
    for k := 1 to |results|
      invariant 0 <= b < k && best == results[b]
      invariant forall i | 0 <= i < k :: results[i].savings <= best.savings
      invariant forall i | 0 <= i < b :: results[i].savings < best.savings
    {
      if results[k].savings > best.savings {
        best, b := results[k], k;
      }
    }
  }

  /** Committing to nothing saves nothing and costs what on-demand costs. */
  lemma NoCommitmentSavesNothing(months: seq<MonthlyTotal>, discountBps: nat)
    requires discountBps <= BPS
    ensures var r := Replay(NoCommitment, months, discountBps);
            r.savings == 0 && r.regret == 0 && r.simulated == r.onDemand
  {
    var results := ReplayedMonths(NoCommitment, months, discountBps);
    var zeros := seq(|months|, i => 0);
    assert Map(results, SavingsOf) == zeros;
    assert Map(results, RegretOf) == zeros;
    SumPointwise(zeros, zeros, zeros);
    SavingsConserve(NoCommitment, months, discountBps);
  }

  /** The three replays of an artifact and the best of them, which never loses. */
  method BuildReplays(months: seq<MonthlyTotal>, discountBps: nat)
    returns (results: seq<ReplayResult>, best: ReplayResult)
    requires discountBps <= BPS
    ensures results == [Replay(NoCommitment, months, discountBps), Replay(LastMonthSteadyState, months, discountBps),
                        Replay(SeventyPercentUtilization, months, discountBps)]
    ensures best in results && best.savings >= 0
    ensures forall baseline: Baseline :: Replay(baseline, months, discountBps).savings <= best.savings
    ensures best.savings == 0 ==> best.baseline == NoCommitment
  {
    var a := ReplayBaseline(NoCommitment, months, discountBps);
    var b := ReplayBaseline(LastMonthSteadyState, months, discountBps);
    var c := ReplayBaseline(SeventyPercentUtilization, months, discountBps);
    results := [a, b, c];
    best := BestBaseline(results);
    NoCommitmentSavesNothing(months, discountBps);
    assert results[0].savings <= best.savings && results[1].savings <= best.savings
      && results[2].savings <= best.savings;
    forall baseline: Baseline
      ensures Replay(baseline, months, discountBps).savings <= best.savings
    {
      match baseline
      case NoCommitment =>
      case LastMonthSteadyState =>
      case SeventyPercentUtilization =>
    }
  }

  // ---------------------------------------------------------------- monthly totals

  datatype Costs = Costs(onDemand: nat, realized: nat)

  /** The costs of the rows of one month. */
  function CostsOf(rows: seq<UsageMonth>, month: string): Costs {
    if rows == [] then Costs(0, 0) else
    var n := |rows| - 1;
    var before := CostsOf(rows[..n], month);
    if rows[n].month == month
    then Costs(before.onDemand + rows[n].onDemandCostCents, before.realized + rows[n].realizedCostCents)
    else before
  }

  /** The keys of the Map, in the order of their first rows. */
  function FirstSeen(rows: seq<UsageMonth>): seq<string> {
    if rows == [] then [] else
    var before := FirstSeen(rows[..|rows| - 1]);
    if rows[|rows| - 1].month in before then before else before + [rows[|rows| - 1].month]
  }

  function TotalOf(rows: seq<UsageMonth>, month: string): MonthlyTotal {
    MonthlyTotal(month, CostsOf(rows, month).onDemand, CostsOf(rows, month).realized)
  }

  function TotalsOf(rows: seq<UsageMonth>, months: seq<string>): (totals: seq<MonthlyTotal>)
    ensures |totals| == |months| && forall i | 0 <= i < |months| :: totals[i] == TotalOf(rows, months[i])
  {
    seq(|months|, i requires 0 <= i < |months| => TotalOf(rows, months[i]))
  }

  function Totals(rows: seq<UsageMonth>): seq<MonthlyTotal> {
    TotalsOf(rows, Sort(FirstSeen(rows), TextLeq))
  }

  /** The Map of monthly totals, with its keys in insertion order. */
  method GroupByMonth(rows: seq<UsageMonth>) returns (totals: map<string, Costs>, order: seq<string>)
    ensures order == FirstSeen(rows)
    ensures forall month :: month in totals <==> month in order
    ensures forall month | month in totals :: totals[month] == CostsOf(rows, month)
  {
    totals, order := map[], [];
    for i := 0 to |rows|
      invariant order == FirstSeen(rows[..i])
      invariant forall month :: month in totals <==> month in order
      invariant forall month | month in totals :: totals[month] == CostsOf(rows[..i], month)
      invariant forall month | month !in totals :: CostsOf(rows[..i], month) == Costs(0, 0)
    {
      assert rows[..i + 1][..i] == rows[..i];
      var row := rows[i];
      var current := if row.month in totals then totals[row.month] else Costs(0, 0);
      if row.month !in totals { order := order + [row.month]; }
      totals := totals[row.month :=
        Costs(current.onDemand + row.onDemandCostCents, current.realized + row.realizedCostCents)];
    }
    assert rows[..|rows|] == rows;
  }

  method MonthlyTotals(rows: seq<UsageMonth>) returns (r: seq<MonthlyTotal>)
    ensures r == Totals(rows)
  {
    var totals, order := GroupByMonth(rows);
    var sorted := Sort(order, TextLeq);
    r := [];
    for i := 0 to |sorted|
      invariant r == TotalsOf(rows, sorted)[..i]
    {
      SortMembers(order, TextLeq, sorted[i]);
      r := r + [MonthlyTotal(sorted[i], totals[sorted[i]].onDemand, totals[sorted[i]].realized)];
    }
  }

  lemma {:induction false} FirstSeenIs(rows: seq<UsageMonth>, month: string)
    ensures NoRepeats(FirstSeen(rows))
    ensures month in FirstSeen(rows) <==> exists i | 0 <= i < |rows| :: rows[i].month == month
  {
    if rows != [] {
      var n := |rows| - 1;
      FirstSeenIs(rows[..n], month);
      FirstSeenIs(rows[..n], rows[n].month);
      if i :| 0 <= i < n && rows[i].month == month {
        assert rows[..n][i].month == month;
      }
    }
  }

  lemma {:induction false} CostsWithout(rows: seq<UsageMonth>, i: nat, month: string)
    requires i < |rows|
    ensures var rest := CostsOf(rows[..i] + rows[i + 1..], month);
            CostsOf(rows, month) ==
            if rows[i].month == month
            then Costs(rest.onDemand + rows[i].onDemandCostCents, rest.realized + rows[i].realizedCostCents) else rest
  {
    var n := |rows| - 1;
    var rest := rows[..i] + rows[i + 1..];
    if i == n {
      assert rest == rows[..n];
    } else {
      CostsWithout(rows[..n], i, month);
      assert rows[..n][..i] == rows[..i] && rest[..n - 1] == rows[..n][..i] + rows[..n][i + 1..];
      assert rest[n - 1] == rows[n];
    }
  }

  lemma {:induction false} CostsPermute(rows: seq<UsageMonth>, rows': seq<UsageMonth>, month: string)
    requires multiset(rows) == multiset(rows')
    ensures CostsOf(rows, month) == CostsOf(rows', month)
    decreases |rows|
  {
    assert |rows| == |multiset(rows)| == |rows'|;
    if rows != [] {
      var n := |rows| - 1;
      var i := PlaceOf(rows', rows[n], rows);
      CostsWithout(rows', i, month);
      WithoutPermutes(rows, rows', i);
      CostsPermute(rows[..n], rows'[..i] + rows'[i + 1..], month);
    }
  }

  lemma PlaceOf<T>(items: seq<T>, x: T, items': seq<T>) returns (i: nat)
    requires multiset(items) == multiset(items') && x in items'
    ensures i < |items| && items[i] == x
  {
    assert x in multiset(items);
    i :| 0 <= i < |items| && items[i] == x;
  }

  lemma WithoutPermutes<T>(items: seq<T>, items': seq<T>, i: nat)
    requires multiset(items) == multiset(items') && i < |items'| && items != [] && items'[i] == items[|items| - 1]
    ensures multiset(items[..|items| - 1]) == multiset(items'[..i] + items'[i + 1..])
  {
    var n := |items| - 1;
    assert items == items[..n] + [items[n]];
    assert items' == items'[..i] + [items'[i]] + items'[i + 1..];
    var x := items[n];
    assert multiset(items[..n]) == multiset(items) - multiset{x};
    assert multiset(items'[..i] + items'[i + 1..]) == multiset(items') - multiset{x};
  }

  /** The monthly totals, and so every replay, do not depend on the order of the rows. */
  lemma TotalsPermute(rows: seq<UsageMonth>, rows': seq<UsageMonth>)
    requires multiset(rows) == multiset(rows')
    ensures Totals(rows) == Totals(rows')
    ensures forall baseline: Baseline, discountBps: nat | discountBps <= BPS ::
              Replay(baseline, Totals(rows), discountBps) == Replay(baseline, Totals(rows'), discountBps)
  {
    MonthsPermute(rows, rows');
    var months := Sort(FirstSeen(rows), TextLeq);
    forall i | 0 <= i < |months|
      ensures TotalOf(rows, months[i]) == TotalOf(rows', months[i])
    {
      CostsPermute(rows, rows', months[i]);
    }
  }

  lemma SeenEither(rows: seq<UsageMonth>, rows': seq<UsageMonth>, month: string)
    requires multiset(rows) == multiset(rows') && month in FirstSeen(rows)
    ensures month in FirstSeen(rows')
  {
    FirstSeenIs(rows, month);
    FirstSeenIs(rows', month);
    var i :| 0 <= i < |rows| && rows[i].month == month;
    var j := PlaceOf(rows', rows[i], rows);
  }

  lemma MonthsPermute(rows: seq<UsageMonth>, rows': seq<UsageMonth>)
    requires multiset(rows) == multiset(rows')
    ensures Sort(FirstSeen(rows), TextLeq) == Sort(FirstSeen(rows'), TextLeq)
  {
    var left, right := FirstSeen(rows), FirstSeen(rows');
    forall month
      ensures month in left <==> month in right
    {
      if month in left { SeenEither(rows, rows', month); }
      if month in right { SeenEither(rows', rows, month); }
    }
    FirstSeenIs(rows, "");
    FirstSeenIs(rows', "");
    NoRepeatsPermute(left, right);
    TextOrder();
    SortSorts(left, TextLeq);
    SortSorts(right, TextLeq);
    SortPermutes(left, TextLeq);
    SortPermutes(right, TextLeq);
    SortedIsUnique(Sort(left, TextLeq), Sort(right, TextLeq), TextLeq);
  }

  /** The months of the totals are in strictly ascending order: each once. */
  lemma TotalsAscend(rows: seq<UsageMonth>, i: nat, j: nat)
    requires i < j < |Totals(rows)|
    ensures TextLeq(Totals(rows)[i].month, Totals(rows)[j].month) && Totals(rows)[i].month != Totals(rows)[j].month
  {
    var seen := FirstSeen(rows);
    var months := Sort(seen, TextLeq);
    TextOrder();
    FirstSeenIs(rows, "");
    SortSorts(seen, TextLeq);
    SortPermutes(seen, TextLeq);
    if months[i] == months[j] {
      TwoPlaces(months, i, j);
      NoRepeatsCounts(seen, months[i]);
    }
  }
}
