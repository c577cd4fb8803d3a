/**
 * The targets leaderboard: per-person and per-team target, actual and
 * projected GP for a month, quarter, half-year or year, with variance and
 * progress against target.
 */
module TargetsLeaderboard {
  import opened Wrappers
  import opened Seqs
  import opened Schema
  import opened Credit

  datatype ViewPeriod = Monthly | Quarterly | HalfYearly | Yearly

  /** The period numbers the period selector offers. */
  predicate ValidPeriod(period: ViewPeriod, n: int) {
    match period
    case Monthly => 1 <= n <= 12
    case Quarterly => 1 <= n <= 4
    case HalfYearly => 1 <= n <= 2
    case Yearly => n == 1
  }

  /** `getMonthsForPeriod`: the calendar months (1-12) a period covers. */
  function MonthsForPeriod(period: ViewPeriod, n: int): (months: seq<int>)
    ensures period == Monthly ==> months == [n]
    ensures ValidPeriod(period, n) ==> forall i :: 0 <= i < |months| ==> 1 <= months[i] <= 12
    ensures ValidPeriod(period, n) ==> Distinct(months)
  {
    match period
    case Monthly => [n]
    case Quarterly =>
      var start := (n - 1) * 3 + 1;
      [start, start + 1, start + 2]
    case HalfYearly => if n == 1 then [1, 2, 3, 4, 5, 6] else [7, 8, 9, 10, 11, 12]
    case Yearly => [1, 2, 3, 4, 5, 6, 7, 8, 9, 10, 11, 12]
  }

  /** The period of a given kind that contains month `m`. */
  function PeriodOf(period: ViewPeriod, m: int): int {
    match period
    case Monthly => m
    case Quarterly => (m - 1) / 3 + 1
    case HalfYearly => if m <= 6 then 1 else 2
    case Yearly => 1
  }

  /** The periods of each kind split the year: every month lies in exactly one valid period. */
  lemma PeriodsPartitionYear(period: ViewPeriod, m: int)
    requires 1 <= m <= 12
    ensures ValidPeriod(period, PeriodOf(period, m))
    ensures m in MonthsForPeriod(period, PeriodOf(period, m))
    ensures forall n :: ValidPeriod(period, n) && m in MonthsForPeriod(period, n) ==> n == PeriodOf(period, m)
  {
    if period == Quarterly {
      forall n | ValidPeriod(period, n) && m in MonthsForPeriod(period, n) ensures n == PeriodOf(period, m) {
        assert (n - 1) * 3 + 1 <= m <= (n - 1) * 3 + 3;
      }
    }
  }

  /** A row of `individual_targets` for the selected year. */
  datatype TargetRow = TargetRow(userId: Id, month: int, targetGp: real)

  /** What the leaderboard query loads. */
  datatype LeaderboardData = LeaderboardData(
    profiles: seq<Profile>,     // active profiles
    targets: seq<TargetRow>,    // the year's targets
    deals: seq<Deal>,           // the year's Submitted, Under Review and Approved deals
    approvedDeals: seq<Deal>)   // the year's Approved deals

  predicate InYear(d: Deal, year: int) { d.submittedYear == Some(year) }

  /** The pipeline query: Submitted, Under Review or Approved deals submitted in the year. */
  function PipelineDeals(all: seq<Deal>, year: int): (r: seq<Deal>)
    ensures forall d :: d in r <==>
      (d in all && InYear(d, year) && d.status in {Some(Submitted), Some(UnderReview), Some(Approved)})
  {
    Filter(all, (d: Deal) => InYear(d, year) && d.status in {Some(Submitted), Some(UnderReview), Some(Approved)})
  }

  /** The actuals query: Approved deals submitted in the year. */
  function ApprovedDeals(all: seq<Deal>, year: int): (r: seq<Deal>)
    ensures forall d :: d in r <==> d in all && InYear(d, year) && d.status == Some(Approved)
  {
    Filter(all, (d: Deal) => InYear(d, year) && d.status == Some(Approved))
  }

  /** Every deal counted as actual is also in the pipeline. */
  lemma ApprovedWithinPipeline(all: seq<Deal>, year: int)
    ensures forall d :: d in ApprovedDeals(all, year) ==> d in PipelineDeals(all, year)
  {
  }

  /** `dealMonth && months.includes(dealMonth)`: a set, non-zero submitted month in the period. */
  predicate InPeriod(d: Deal, months: seq<int>) {
    d.submittedMonth.Some? && d.submittedMonth.value != 0 && d.submittedMonth.value in months
  }

  /** The value projections use: the estimated opportunity when truthy, else the converted value. */
  function ProjectedValue(d: Deal): (v: real)
    ensures d.estimatedOpportunity.None? || d.estimatedOpportunity == Some(0.0) ==> v == Value(d)
    ensures d.estimatedOpportunity.Some? && d.estimatedOpportunity != Some(0.0) ==> v == d.estimatedOpportunity.value
  {
    if d.estimatedOpportunity.Some? && d.estimatedOpportunity.value != 0.0 then d.estimatedOpportunity.value
    else Value(d)
  }

  /** The user's targets for the months of the period. */
  function PeriodTarget(rows: seq<TargetRow>, u: Id, months: seq<int>): (t: real)
  {
    if rows == [] then 0.0
    else
      (if rows[0].userId == u && rows[0].month in months then rows[0].targetGp else 0.0)
      + PeriodTarget(rows[1..], u, months)
  }

  /** Actual: the user's individual credit over approved deals in the period. */
  function PeriodActual(deals: seq<Deal>, u: Id, months: seq<int>): (a: real)
  {
    if deals == [] then 0.0
    else
      (if Involves(deals[0], u) && InPeriod(deals[0], months) then IndividualCredit(deals[0], u) else 0.0)
      + PeriodActual(deals[1..], u, months)
  }

  /** Projected: the same percentage applied to the projected value of pipeline deals in the period. */
  function PeriodProjected(deals: seq<Deal>, u: Id, months: seq<int>): (p: real)
  {
    if deals == [] then 0.0
    else
      (if Involves(deals[0], u) && InPeriod(deals[0], months)
       then ProjectedValue(deals[0]) * (IndividualPercent(deals[0], u) / 100.0) else 0.0)
      + PeriodProjected(deals[1..], u, months)
  }

  datatype Metrics = Metrics(target: real, actual: real, projected: real)

  const NoMetrics := Metrics(0.0, 0.0, 0.0)

  function AddMetrics(a: Metrics, b: Metrics): Metrics {
    Metrics(a.target + b.target, a.actual + b.actual, a.projected + b.projected)
  }

  /** `calculateMetrics`: zeros before the data has loaded. */
  function CalculateMetrics(data: Option<LeaderboardData>, u: Id, months: seq<int>): (m: Metrics)
    ensures data.None? ==> m == NoMetrics
  {
    if data.None? then NoMetrics
    else
      var d := data.value;
      Metrics(PeriodTarget(d.targets, u, months), PeriodActual(d.approvedDeals, u, months), PeriodProjected(d.deals, u, months))
  }

  /** Target rows of other users or of months outside the period count for nothing. */
  lemma {:induction false} OtherTargetsIgnored(rows: seq<TargetRow>, u: Id, months: seq<int>)
    requires forall r :: r in rows ==> r.userId != u || r.month !in months
    ensures PeriodTarget(rows, u, months) == 0.0
  {
    if rows != [] {
      assert forall r :: r in rows[1..] ==> r in rows;
      OtherTargetsIgnored(rows[1..], u, months);
    }
  }

  /** Deals the user has no slot in, or outside the period, earn nothing actual or projected. */
  lemma {:induction false} OtherDealsIgnored(deals: seq<Deal>, u: Id, months: seq<int>)
    requires forall d :: d in deals ==> !Involves(d, u) || !InPeriod(d, months)
    ensures PeriodActual(deals, u, months) == 0.0
    ensures PeriodProjected(deals, u, months) == 0.0
  {
    if deals != [] {
      assert forall d :: d in deals[1..] ==> d in deals;
      OtherDealsIgnored(deals[1..], u, months);
    }
  }

  /** With non-negative values and splits, the actual GP is never negative. */
  lemma {:induction false} PeriodActualNonNegative(deals: seq<Deal>, u: Id, months: seq<int>)
    requires forall d :: d in deals ==> Value(d) >= 0.0 && NonNegativeSplit(d)
    ensures PeriodActual(deals, u, months) >= 0.0
  {
    if deals != [] {
      assert forall d :: d in deals[1..] ==> d in deals;
      PeriodActualNonNegative(deals[1..], u, months);
    }
  }

  /**
   * A user with no target row and no deal in the period scores zero
   * everywhere, and so does every user over an empty period.
   */
  lemma NoActivityNoMetrics(data: LeaderboardData, u: Id, months: seq<int>)
    requires forall r :: r in data.targets ==> r.userId != u || r.month !in months
    requires forall d :: d in data.approvedDeals ==> !Involves(d, u) || !InPeriod(d, months)
    requires forall d :: d in data.deals ==> !Involves(d, u) || !InPeriod(d, months)
    ensures CalculateMetrics(Some(data), u, months) == NoMetrics
  {
    OtherTargetsIgnored(data.targets, u, months);
    OtherDealsIgnored(data.approvedDeals, u, months);
    OtherDealsIgnored(data.deals, u, months);
  }

  lemma EmptyPeriodNoMetrics(data: Option<LeaderboardData>, u: Id)
    ensures CalculateMetrics(data, u, []) == NoMetrics
  {
    if data.Some? {
      NoActivityNoMetrics(data.value, u, []);
    }
  }

  /** Two disjoint month sets whose union is a third. */
  ghost predicate SplitsInto(months: seq<int>, first: seq<int>, second: seq<int>) {
    (forall m :: m in months <==> m in first || m in second)
    && (forall m :: m in first ==> m !in second)
  }

  /** A period's target is the sum of the targets of two periods that split it. */
  lemma {:induction false} TargetSplits(rows: seq<TargetRow>, u: Id, months: seq<int>, first: seq<int>, second: seq<int>)
    requires SplitsInto(months, first, second)
    ensures PeriodTarget(rows, u, months) == PeriodTarget(rows, u, first) + PeriodTarget(rows, u, second)
  {
    if rows != [] {
      TargetSplits(rows[1..], u, months, first, second);
    }
  }

  /** Likewise the actual and the projected GP. */
  lemma {:induction false} DealSumsSplit(deals: seq<Deal>, u: Id, months: seq<int>, first: seq<int>, second: seq<int>)
    requires SplitsInto(months, first, second)
    ensures PeriodActual(deals, u, months) == PeriodActual(deals, u, first) + PeriodActual(deals, u, second)
    ensures PeriodProjected(deals, u, months) == PeriodProjected(deals, u, first) + PeriodProjected(deals, u, second)
  {
    if deals != [] {
      DealSumsSplit(deals[1..], u, months, first, second);
    }
  }

  lemma MetricsSplit(data: LeaderboardData, u: Id, months: seq<int>, first: seq<int>, second: seq<int>)
    requires SplitsInto(months, first, second)
    ensures CalculateMetrics(Some(data), u, months)
      == AddMetrics(CalculateMetrics(Some(data), u, first), CalculateMetrics(Some(data), u, second))
  {
    TargetSplits(data.targets, u, months, first, second);
    DealSumsSplit(data.approvedDeals, u, months, first, second);
    DealSumsSplit(data.deals, u, months, first, second);
  }

  /** The year's months are those of its two halves, which share none. */
  lemma YearSplitsIntoHalves()
    ensures SplitsInto(MonthsForPeriod(Yearly, 1), MonthsForPeriod(HalfYearly, 1), MonthsForPeriod(HalfYearly, 2))
  {
  }

  /** Each half's months are those of its two quarters, which share none. */
  lemma HalfSplitsIntoQuarters(h: int)
    requires h == 1 || h == 2
    ensures SplitsInto(MonthsForPeriod(HalfYearly, h), MonthsForPeriod(Quarterly, 2 * h - 1), MonthsForPeriod(Quarterly, 2 * h))
  {
  }

  /** A year's metrics are those of its two halves added, and each half's are those of its two quarters. */
  lemma YearAddsUp(data: LeaderboardData, u: Id)
    ensures CalculateMetrics(Some(data), u, MonthsForPeriod(Yearly, 1))
      == AddMetrics(CalculateMetrics(Some(data), u, MonthsForPeriod(HalfYearly, 1)),
                    CalculateMetrics(Some(data), u, MonthsForPeriod(HalfYearly, 2)))
    ensures CalculateMetrics(Some(data), u, MonthsForPeriod(HalfYearly, 1))
      == AddMetrics(CalculateMetrics(Some(data), u, MonthsForPeriod(Quarterly, 1)),
                    CalculateMetrics(Some(data), u, MonthsForPeriod(Quarterly, 2)))
    ensures CalculateMetrics(Some(data), u, MonthsForPeriod(HalfYearly, 2))
      == AddMetrics(CalculateMetrics(Some(data), u, MonthsForPeriod(Quarterly, 3)),
                    CalculateMetrics(Some(data), u, MonthsForPeriod(Quarterly, 4)))
  {
    YearSplitsIntoHalves();
    HalfSplitsIntoQuarters(1);
    HalfSplitsIntoQuarters(2);
    MetricsSplit(data, u, MonthsForPeriod(Yearly, 1), MonthsForPeriod(HalfYearly, 1), MonthsForPeriod(HalfYearly, 2));
    MetricsSplit(data, u, MonthsForPeriod(HalfYearly, 1), MonthsForPeriod(Quarterly, 1), MonthsForPeriod(Quarterly, 2));
    MetricsSplit(data, u, MonthsForPeriod(HalfYearly, 2), MonthsForPeriod(Quarterly, 3), MonthsForPeriod(Quarterly, 4));
  }

  /** A deal the user has no slot in, or outside the period, adds nothing to actual or projected. */
  lemma {:induction false} UninvolvedDealsIgnored(deals: seq<Deal>, extra: Deal, u: Id, months: seq<int>)
    requires !Involves(extra, u) || !InPeriod(extra, months)
    ensures PeriodActual(deals + [extra], u, months) == PeriodActual(deals, u, months)
    ensures PeriodProjected(deals + [extra], u, months) == PeriodProjected(deals, u, months)
  {
    if deals == [] {
      assert ([] + [extra])[1..] == [];
    } else {
      var tail := deals[1..] + [extra];
      assert (deals + [extra])[1..] == tail;
      assert (deals + [extra])[0] == deals[0];
      UninvolvedDealsIgnored(deals[1..], extra, u, months);
    }
  }

  // ---------------------------------------------------------------------
  // Teams

  /** The members' metrics added up, in member order. */
  function MembersMetrics(data: LeaderboardData, ids: seq<Id>, months: seq<int>): Metrics {
    if ids == [] then NoMetrics
    else AddMetrics(MembersMetrics(data, ids[..|ids| - 1], months), CalculateMetrics(Some(data), ids[|ids| - 1], months))
  }

  /** A team's metrics split like its member list. */
  lemma {:induction false} MembersMetricsConcat(data: LeaderboardData, a: seq<Id>, b: seq<Id>, months: seq<int>)
    ensures MembersMetrics(data, a + b, months) == AddMetrics(MembersMetrics(data, a, months), MembersMetrics(data, b, months))
    decreases |b|
  {
    if b == [] {
      assert a + b == a;
    } else {
      assert (a + b)[..|a + b| - 1] == a + b[..|b| - 1];
      MembersMetricsConcat(data, a, b[..|b| - 1], months);
    }
  }

  /**
   * `calculateTeamMetrics`: each member's metrics are added into running
   * totals; the member count is the number of profiles in the team.
   */
  method CalculateTeamMetrics(data: Option<LeaderboardData>, teamId: Id, months: seq<int>)
    returns (metrics: Metrics, memberCount: nat)
    ensures data.None? ==> metrics == NoMetrics && memberCount == 0
    ensures data.Some? ==>
      metrics == MembersMetrics(data.value, Ids(TeamMembers(data.value.profiles, teamId)), months)
      && memberCount == |TeamMembers(data.value.profiles, teamId)|
  {
    if data.None? {
      return NoMetrics, 0;
    }
    var teamMembers := TeamMembers(data.value.profiles, teamId);
    var memberIds := Ids(teamMembers);
    var target, actual, projected := 0.0, 0.0, 0.0;
    for i := 0 to |memberIds|
      invariant Metrics(target, actual, projected) == MembersMetrics(data.value, memberIds[..i], months)
    {
      assert memberIds[..i + 1][..i] == memberIds[..i];
      var m := CalculateMetrics(data, memberIds[i], months);
      target := target + m.target;
      actual := actual + m.actual;
      projected := projected + m.projected;
    }
    assert memberIds[..|memberIds|] == memberIds;
    return Metrics(target, actual, projected), |teamMembers|;
  }

  // ---------------------------------------------------------------------
  // Variance and progress

  /** `(x - target) / target * 100`, or 0 without a positive target. */
  function Variance(x: real, target: real): (v: real)
    ensures target <= 0.0 ==> v == 0.0
    ensures target > 0.0 ==> (v > 0.0 <==> x > target) && (v < 0.0 <==> x < target)
  {
    if target > 0.0 then (x - target) / target * 100.0 else 0.0
  }

  /** `actual / target * 100`, or 0 without a positive target. */
  function Progress(actual: real, target: real): (p: real)
    ensures target <= 0.0 ==> p == 0.0
    ensures target > 0.0 && actual >= 0.0 ==> p >= 0.0
    ensures target > 0.0 ==> (p >= 100.0 <==> actual >= target)
  {
    if target > 0.0 then actual / target * 100.0 else 0.0
  }

  /** With a positive target, variance is progress less 100. */
  lemma VarianceIsProgressLess100(actual: real, target: real)
    requires target > 0.0
    ensures Variance(actual, target) == Progress(actual, target) - 100.0
  {
    calc {
      Variance(actual, target);
      (actual - target) / target * 100.0;
      actual / target * 100.0 - target / target * 100.0;
      Progress(actual, target) - 100.0;
    }
  }

  /** The colour band of a variance, and the icon shown beside it. */
  datatype Tone = Positive | Negative | Neutral

  /** `getVarianceColor` (green, red, muted): more than 5 above, more than 5 below, or within. */
  function VarianceColor(variance: real): (t: Tone)
    ensures t == Positive <==> variance > 5.0
    ensures t == Negative <==> variance < -5.0
    ensures t == Neutral <==> -5.0 <= variance <= 5.0
  {
    if variance > 5.0 then Positive
    else if variance < -5.0 then Negative
    else Neutral
  }

  datatype Icon = TrendingUp | TrendingDown | Minus

  /** `getVarianceIcon`. */
  function VarianceIcon(variance: real): (i: Icon)
    ensures i == TrendingUp <==> variance > 5.0
    ensures i == TrendingDown <==> variance < -5.0
    ensures i == Minus <==> -5.0 <= variance <= 5.0
  {
    if variance > 5.0 then TrendingUp
    else if variance < -5.0 then TrendingDown
    else Minus
  }

  /** The icon and the colour always tell the same story. */
  lemma IconMatchesColor(variance: real)
    ensures VarianceIcon(variance) == TrendingUp <==> VarianceColor(variance) == Positive
    ensures VarianceIcon(variance) == TrendingDown <==> VarianceColor(variance) == Negative
    ensures VarianceIcon(variance) == Minus <==> VarianceColor(variance) == Neutral
  {
  }

  // ---------------------------------------------------------------------
  // The two tables

  /** One row of either table. */
  datatype Standing = Standing(
    id: Id, metrics: Metrics, memberCount: nat,
    variance: real, projectedVariance: real, progress: real)

  function StandingActual(s: Standing): real { s.metrics.actual }

  function MakeStanding(id: Id, m: Metrics, memberCount: nat): (s: Standing)
    ensures s.id == id && s.metrics == m && s.memberCount == memberCount
    ensures s.variance == Variance(m.actual, m.target)
    ensures s.projectedVariance == Variance(m.projected, m.target)
    ensures s.progress == Progress(m.actual, m.target)
  {
    Standing(id, m, memberCount, Variance(m.actual, m.target), Variance(m.projected, m.target), Progress(m.actual, m.target))
  }

  function IndividualStandings(data: Option<LeaderboardData>, profiles: seq<Profile>, months: seq<int>): (r: seq<Standing>)
    ensures |r| == |profiles|
    ensures forall i :: 0 <= i < |profiles| ==> r[i] == MakeStanding(profiles[i].id, CalculateMetrics(data, profiles[i].id, months), 0)
  {
    if profiles == [] then []
    else
      [MakeStanding(profiles[0].id, CalculateMetrics(data, profiles[0].id, months), 0)]
      + IndividualStandings(data, profiles[1..], months)
  }

  /** The individual table: one row per profile, sorted by actual, highest first; empty before the data has loaded. */
  function IndividualTable(data: Option<LeaderboardData>, months: seq<int>): (r: seq<Standing>)
    ensures data.None? ==> r == []
    ensures SortedDesc(r, StandingActual)
    ensures data.Some? ==> multiset(r) == multiset(IndividualStandings(data, data.value.profiles, months))
    ensures data.Some? ==> |r| == |data.value.profiles|
  {
    if data.None? then [] else SortDesc(IndividualStandings(data, data.value.profiles, months), StandingActual)
  }

  /** A team's metrics, as `calculateTeamMetrics` adds them up over the profiles carrying its id. */
  function TeamMetricsOf(data: LeaderboardData, teamId: Id, months: seq<int>): Metrics {
    MembersMetrics(data, Ids(TeamMembers(data.profiles, teamId)), months)
  }

  /** A rearrangement of the rows built for some ids holds rows of those ids only. */
  lemma SortedRowsFromIds(r: seq<Standing>, rows: seq<Standing>, ids: seq<Id>)
    requires multiset(r) == multiset(rows)
    requires |rows| == |ids|
    requires forall i :: 0 <= i < |rows| ==> rows[i].id == ids[i]
    ensures forall s :: s in r ==> s.id in ids
  {
    SameMembers(r, rows);
    forall s | s in r ensures s.id in ids {
      var i :| 0 <= i < |rows| && rows[i] == s;
    }
  }

  function TeamStandings(data: LeaderboardData, teamIds: seq<Id>, months: seq<int>): (r: seq<Standing>)
    ensures |r| == |teamIds|
    ensures forall i :: 0 <= i < |teamIds| ==> r[i] == MakeStanding(teamIds[i],
      TeamMetricsOf(data, teamIds[i], months), |TeamMembers(data.profiles, teamIds[i])|)
  {
    if teamIds == [] then []
    else
      [MakeStanding(teamIds[0], TeamMetricsOf(data, teamIds[0], months), |TeamMembers(data.profiles, teamIds[0])|)]
      + TeamStandings(data, teamIds[1..], months)
  }

  /** The set, non-empty team ids of the profiles. */
  function TeamIdsOf(profiles: seq<Profile>): (r: seq<Id>)
    ensures forall t :: t in r <==> exists p :: p in profiles && p.teamId == Some(t) && t != ""
  {
    if profiles == [] then []
    else
      var rest := TeamIdsOf(profiles[1..]);
      var t := profiles[0].teamId;
      assert forall p :: p in profiles <==> p == profiles[0] || p in profiles[1..];
      if t.Some? && t.value != "" then [t.value] + rest else rest
  }

  /** The elements of `s`, each kept once. */
  function Dedup(s: seq<Id>): (r: seq<Id>)
    ensures Distinct(r)
    ensures forall x :: x in r <==> x in s
  {
    if s == [] then []
    else
      var r := Dedup(s[..|s| - 1]);
      var last := s[|s| - 1];
      assert forall x :: x in s <==> x in s[..|s| - 1] || x == last by {
        assert s == s[..|s| - 1] + [last];
      }
      if last in r then r else r + [last]
  }

  /** `[...new Set(profiles.map(p => p.team_id).filter(Boolean))]`. */
  function DistinctTeamIds(profiles: seq<Profile>): (r: seq<Id>)
    ensures Distinct(r)
    ensures forall t :: t in r <==> exists p :: p in profiles && p.teamId == Some(t) && t != ""
  {
    Dedup(TeamIdsOf(profiles))
  }

  /**
   * The team table: one row per distinct team id among the profiles (each the
   * non-empty team id of some profile), with the
   * team's summed metrics and member count, sorted by actual, highest first;
   * empty before the data has loaded.
   */
  function TeamTable(data: Option<LeaderboardData>, months: seq<int>): (r: seq<Standing>)
    ensures data.None? ==> r == []
    ensures SortedDesc(r, StandingActual)
    ensures data.Some? ==> multiset(r) == multiset(TeamStandings(data.value, DistinctTeamIds(data.value.profiles), months))
    ensures data.Some? ==> forall s :: s in r ==> s.id in DistinctTeamIds(data.value.profiles)
  {
    if data.None? then []
    else
      var ids := DistinctTeamIds(data.value.profiles);
      var rows := TeamStandings(data.value, ids, months);
      var r := SortDesc(rows, StandingActual);
      SortedRowsFromIds(r, rows, ids);
      r
  }
}
