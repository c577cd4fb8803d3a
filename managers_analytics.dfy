/**
 * The managers' analytics page: approved deals created since the start of
 * the chosen period, ranked by team, by person and by role, bucketed by
 * calendar month, and projected to the end of the year.
 */
module ManagersAnalytics {
  import opened Wrappers
  import opened Schema
  import opened Seqs
  import opened Credit

  datatype TimePeriod = Month | Quarter | Half | Year

  /**
   * The 0-based month the period starts in (`getDateRange`): the current
   * month, the first month of the current quarter or half, or January.
   */
  function StartMonth(period: TimePeriod, currentMonth: int): (m: int)
    requires 0 <= currentMonth < 12
    ensures 0 <= m <= currentMonth
    ensures period == Month ==> m == currentMonth
    ensures period == Quarter ==> m % 3 == 0 && currentMonth - m < 3
    ensures period == Half ==> m % 6 == 0 && currentMonth - m < 6
    ensures period == Year ==> m == 0
  {
    match period
    case Month => currentMonth
    case Quarter => (currentMonth / 3) * 3
    case Half => if currentMonth < 6 then 0 else 6
    case Year => 0
  }

  /** Day 1 of the start month, in the current year; the period ends now. */
  function PeriodStart(period: TimePeriod, now: Moment): (start: Moment)
    requires 0 <= now.month < 12 && now.offset >= 0
    ensures start.year == now.year && start.month == StartMonth(period, now.month) && start.offset == 0
    ensures AtOrBefore(start, now)
  {
    Moment(now.year, StartMonth(period, now.month), 0)
  }

  /** A wider period starts no later: month, quarter, half and year nest. */
  lemma PeriodsNest(currentMonth: int)
    requires 0 <= currentMonth < 12
    ensures StartMonth(Year, currentMonth) <= StartMonth(Half, currentMonth)
    ensures StartMonth(Half, currentMonth) <= StartMonth(Quarter, currentMonth)
    ensures StartMonth(Quarter, currentMonth) <= StartMonth(Month, currentMonth)
  {
  }

  /** `filteredDeals`: the approved deals created between the start of the period and now. */
  function FilteredDeals(deals: seq<Deal>, period: TimePeriod, now: Moment): (r: seq<Deal>)
    requires 0 <= now.month < 12 && now.offset >= 0
    ensures forall d :: d in r <==>
      d in deals && IsApproved(d) && AtOrBefore(PeriodStart(period, now), d.createdAt) && AtOrBefore(d.createdAt, now)
  {
    var start := PeriodStart(period, now);
    Filter(ApprovedOnly(deals), (d: Deal) => AtOrBefore(start, d.createdAt) && AtOrBefore(d.createdAt, now))
  }

  // ---------------------------------------------------------------------
  // Team, individual and role performance

  /** A team's or a role's row; `members` is only shown for roles. */
  datatype GroupRow = GroupRow(name: string, gpAdded: real, deals: nat, renewals: nat, members: nat)

  /**
   * The group form of the credit split over the filtered deals: the deals
   * some member is in, the group credit of the new ones, and both counts.
   */
  function GroupPerformance(name: string, ids: seq<Id>, filtered: seq<Deal>): (g: GroupRow)
    ensures g.name == name && g.members == |ids|
    ensures g.gpAdded == GroupGpAdded(filtered, ids)
    ensures g.deals == |NewDeals(GroupDeals(filtered, ids))| && g.renewals == |Renewals(GroupDeals(filtered, ids))|
    ensures g.deals + g.renewals == |GroupDeals(filtered, ids)|
  {
    var groupDeals := GroupDeals(filtered, ids);
    GroupGpAddedOfGroupDeals(filtered, ids);
    NewAndRenewalsPartition(groupDeals);
    GroupRow(name, GroupGpAdded(groupDeals, ids), |NewDeals(groupDeals)|, |Renewals(groupDeals)|, |ids|)
  }

  function GroupGp(g: GroupRow): real {
    g.gpAdded
  }

  /** One row per team; a team's members are the profiles carrying its id. */
  function TeamRows(teams: seq<Team>, profiles: seq<Profile>, filtered: seq<Deal>): (r: seq<GroupRow>)
    ensures |r| == |teams|
    ensures forall i :: 0 <= i < |teams| ==>
      r[i] == GroupPerformance(teams[i].name, Ids(TeamMembers(profiles, teams[i].id)), filtered)
  {
    if teams == [] then []
    else
      [GroupPerformance(teams[0].name, Ids(TeamMembers(profiles, teams[0].id)), filtered)]
      + TeamRows(teams[1..], profiles, filtered)
  }

  /** `teamPerformance`: every team's row, largest GP Added first. */
  function TeamPerformance(teams: seq<Team>, profiles: seq<Profile>, filtered: seq<Deal>): (r: seq<GroupRow>)
    ensures SortedDesc(r, GroupGp)
    ensures multiset(r) == multiset(TeamRows(teams, profiles, filtered))
  {
    SortDesc(TeamRows(teams, profiles, filtered), GroupGp)
  }

  /** A person's row. */
  datatype PersonRow = PersonRow(name: string, role: RoleType, gpAdded: real, deals: nat, renewals: nat)

  /** The individual form of the credit split over the filtered deals. */
  function PersonPerformance(p: Profile, filtered: seq<Deal>): (row: PersonRow)
    ensures row.name == p.name && row.role == p.role
    ensures row.gpAdded == IndividualGpAdded(filtered, p.id)
    ensures row.deals == |NewDeals(UserDeals(filtered, p.id))| && row.renewals == |Renewals(UserDeals(filtered, p.id))|
    ensures row.deals + row.renewals == |UserDeals(filtered, p.id)|
  {
    var userDeals := UserDeals(filtered, p.id);
    IndividualGpAddedOfUserDeals(filtered, p.id);
    NewAndRenewalsPartition(userDeals);
    PersonRow(p.name, p.role, IndividualGpAdded(userDeals, p.id), |NewDeals(userDeals)|, |Renewals(userDeals)|)
  }

  function PersonRows(profiles: seq<Profile>, filtered: seq<Deal>): (r: seq<PersonRow>)
    ensures |r| == |profiles|
    ensures forall i :: 0 <= i < |profiles| ==> r[i] == PersonPerformance(profiles[i], filtered)
  {
    if profiles == [] then [] else [PersonPerformance(profiles[0], filtered)] + PersonRows(profiles[1..], filtered)
  }

  /** The people shown: everyone, or the members of the selected team. */
  function SelectedProfiles(profiles: seq<Profile>, selectedTeam: Option<Id>): (r: seq<Profile>)
    ensures selectedTeam.None? ==> r == profiles
    ensures selectedTeam.Some? ==> forall p :: p in r <==> p in profiles && p.teamId == selectedTeam
  {
    if selectedTeam.None? then profiles else TeamMembers(profiles, selectedTeam.value)
  }

  function PersonGp(row: PersonRow): real {
    row.gpAdded
  }

  /** `individualPerformance`: the selected people's rows, largest GP Added first. */
  function IndividualPerformance(profiles: seq<Profile>, selectedTeam: Option<Id>, filtered: seq<Deal>): (r: seq<PersonRow>)
    ensures SortedDesc(r, PersonGp)
    ensures multiset(r) == multiset(PersonRows(SelectedProfiles(profiles, selectedTeam), filtered))
  {
    SortDesc(PersonRows(SelectedProfiles(profiles, selectedTeam), filtered), PersonGp)
  }

  /** The six roles, in the order the page lists them. */
  const RoleGroups: seq<RoleType> := [BD, DT, R360, Manager, CEO, Admin]

  function RoleName(role: RoleType): string {
    match role
    case BD => "BD"
    case DT => "DT"
    case R360 => "360"
    case Manager => "Manager"
    case CEO => "CEO"
    case Admin => "Admin"
  }

  function RoleProfiles(profiles: seq<Profile>, role: RoleType): (r: seq<Profile>)
    ensures forall p :: p in r <==> p in profiles && p.role == role
  {
    Filter(profiles, (p: Profile) => p.role == role)
  }

  function RoleRow(role: RoleType, profiles: seq<Profile>, filtered: seq<Deal>): GroupRow {
    GroupPerformance(RoleName(role), Ids(RoleProfiles(profiles, role)), filtered)
  }

  function RoleRows(roles: seq<RoleType>, profiles: seq<Profile>, filtered: seq<Deal>): (r: seq<GroupRow>)
    ensures |r| == |roles|
    ensures forall i :: 0 <= i < |roles| ==> r[i] == RoleRow(roles[i], profiles, filtered)
  {
    if roles == [] then [] else [RoleRow(roles[0], profiles, filtered)] + RoleRows(roles[1..], profiles, filtered)
  }

  predicate HasMembers(g: GroupRow) {
    g.members > 0
  }

  /**
   * `rolePerformance`: a row for every one of the six roles that has at
   * least one profile, and for no other, largest GP Added first.
   */
  function RolePerformance(profiles: seq<Profile>, filtered: seq<Deal>): (r: seq<GroupRow>)
    ensures SortedDesc(r, GroupGp)
    ensures forall g :: g in r ==> g.members > 0
    ensures forall role :: RoleRow(role, profiles, filtered) in r <==> exists p :: p in profiles && p.role == role
    ensures forall g :: g in r ==> exists role :: g == RoleRow(role, profiles, filtered)
    ensures multiset(r) == multiset(Filter(RoleRows(RoleGroups, profiles, filtered), HasMembers))
  {
    var kept := Filter(RoleRows(RoleGroups, profiles, filtered), HasMembers);
    RolesKept(profiles, filtered);
    KeptRowsAreRoleRows(profiles, filtered);
    var sorted := SortDesc(kept, GroupGp);
    assert forall g :: g in sorted <==> g in kept;
    sorted
  }

  /** Filtering the six role rows leaves nothing but role rows. */
  lemma KeptRowsAreRoleRows(profiles: seq<Profile>, filtered: seq<Deal>)
    ensures forall g :: g in Filter(RoleRows(RoleGroups, profiles, filtered), HasMembers) ==>
      exists role :: g == RoleRow(role, profiles, filtered)
  {
    var rows := RoleRows(RoleGroups, profiles, filtered);
    forall g | g in Filter(rows, HasMembers) ensures exists role :: g == RoleRow(role, profiles, filtered) {
      var i :| 0 <= i < |rows| && rows[i] == g;
      assert g == RoleRow(RoleGroups[i], profiles, filtered);
    }
  }

  lemma RolesKept(profiles: seq<Profile>, filtered: seq<Deal>)
    ensures forall role ::
      (RoleRow(role, profiles, filtered) in Filter(RoleRows(RoleGroups, profiles, filtered), HasMembers)
       <==> exists p :: p in profiles && p.role == role)
  {
    forall role
      ensures RoleRow(role, profiles, filtered) in Filter(RoleRows(RoleGroups, profiles, filtered), HasMembers)
        <==> exists p :: p in profiles && p.role == role
    {
      RoleListed(role, profiles, filtered);
      RoleHasMembers(role, profiles, filtered);
    }
  }

  /** Every role has its row among the six. */
  lemma RoleListed(role: RoleType, profiles: seq<Profile>, filtered: seq<Deal>)
    ensures RoleRow(role, profiles, filtered) in RoleRows(RoleGroups, profiles, filtered)
  {
    var i := match role case BD => 0 case DT => 1 case R360 => 2 case Manager => 3 case CEO => 4 case Admin => 5;
    assert RoleGroups[i] == role;
  }

  /** A role's row has members exactly when some profile has the role. */
  lemma RoleHasMembers(role: RoleType, profiles: seq<Profile>, filtered: seq<Deal>)
    ensures HasMembers(RoleRow(role, profiles, filtered)) <==> exists p :: p in profiles && p.role == role
  {
    var members := RoleProfiles(profiles, role);
    if exists p :: p in profiles && p.role == role {
      var p :| p in profiles && p.role == role;
      assert p in members;
    }
  }

  // ---------------------------------------------------------------------
  // Monthly trends and projection

  /** A year and 0-based month: the `YYYY-MM` key of a bucket. */
  type MonthKey = (int, int)

  function KeyOf(d: Deal): MonthKey {
    (d.createdAt.year, d.createdAt.month)
  }

  datatype Bucket = Bucket(gpAdded: real, deals: nat)

  /** The `monthsData` record: its buckets and the order their keys were created in. */
  datatype Trends = Trends(order: seq<MonthKey>, buckets: map<MonthKey, Bucket>)

  /**
   * One deal's effect: its month's bucket is created if missing; a
   * non-renewal adds its value and one deal, a renewal nothing more.
   */
  function Step(t: Trends, d: Deal): Trends {
    var k := KeyOf(d);
    var t1 := if k in t.buckets then t else Trends(t.order + [k], t.buckets[k := Bucket(0.0, 0)]);
    if IsNew(d) then
      Trends(t1.order, t1.buckets[k := Bucket(t1.buckets[k].gpAdded + Value(d), t1.buckets[k].deals + 1)])
    else t1
  }

  /** The buckets after every deal, in list order. */
  function TrendsOf(ds: seq<Deal>): Trends {
    if ds == [] then Trends([], map[]) else Step(TrendsOf(ds[..|ds| - 1]), ds[|ds| - 1])
  }

  /** `monthlyTrends`: the `forEach` filling `monthsData`. */
  method MonthlyTrends(filtered: seq<Deal>) returns (t: Trends)
    ensures t == TrendsOf(filtered)
  {
    if |filtered| == 0 {
      return Trends([], map[]);
    }
    var monthsData: map<MonthKey, Bucket> := map[];
    var order: seq<MonthKey> := [];
    for i := 0 to |filtered|
      invariant Trends(order, monthsData) == TrendsOf(filtered[..i])
    {
      var deal := filtered[i];
      var monthKey := KeyOf(deal);
      if monthKey !in monthsData {
        monthsData := monthsData[monthKey := Bucket(0.0, 0)];
        order := order + [monthKey];
      }
      if IsNew(deal) {
        var b := monthsData[monthKey];
        monthsData := monthsData[monthKey := Bucket(b.gpAdded + Value(deal), b.deals + 1)];
      }
      assert filtered[..i + 1][..i] == filtered[..i];
    }
    assert filtered[..|filtered|] == filtered;
    t := Trends(order, monthsData);
  }

  /** The total value of the new deals created in month `k`. */
  function MonthGp(ds: seq<Deal>, k: MonthKey): real {
    if ds == [] then 0.0
    else
      var d := ds[|ds| - 1];
      MonthGp(ds[..|ds| - 1], k) + (if IsNew(d) && KeyOf(d) == k then Value(d) else 0.0)
  }

  /** The number of new deals created in month `k`. */
  function MonthCount(ds: seq<Deal>, k: MonthKey): nat {
    if ds == [] then 0
    else
      var d := ds[|ds| - 1];
      MonthCount(ds[..|ds| - 1], k) + (if IsNew(d) && KeyOf(d) == k then 1 else 0)
  }

  /** The total value of the new deals. */
  function NewTotal(ds: seq<Deal>): real {
    if ds == [] then 0.0
    else
      var d := ds[|ds| - 1];
      NewTotal(ds[..|ds| - 1]) + (if IsNew(d) then Value(d) else 0.0)
  }

  /** The bucket a deal's month had before the deal: the existing one, or an empty one. */
  function Before(t: Trends, k: MonthKey): Bucket {
    if k in t.buckets then t.buckets[k] else Bucket(0.0, 0)
  }

  /** What one step changes: its key is added (listed last if new) and only that bucket moves. */
  lemma StepEffect(t: Trends, d: Deal)
    ensures Step(t, d).buckets.Keys == t.buckets.Keys + {KeyOf(d)}
    ensures Step(t, d).order == if KeyOf(d) in t.buckets then t.order else t.order + [KeyOf(d)]
    ensures forall j :: j in t.buckets && j != KeyOf(d) ==> Step(t, d).buckets[j] == t.buckets[j]
    ensures Step(t, d).buckets[KeyOf(d)] == Bucket(
      Before(t, KeyOf(d)).gpAdded + (if IsNew(d) then Value(d) else 0.0),
      Before(t, KeyOf(d)).deals + (if IsNew(d) then 1 else 0))
  {
  }

  /** The months some deal (renewal or not) was created in. */
  function MonthsOf(ds: seq<Deal>): set<MonthKey> {
    set d | d in ds :: KeyOf(d)
  }

  /** A bucket exists exactly for the months some deal was created in, and each is listed once. */
  lemma {:induction false} TrendsKeys(ds: seq<Deal>)
    ensures TrendsOf(ds).buckets.Keys == MonthsOf(ds)
    ensures forall k :: k in TrendsOf(ds).order <==> k in TrendsOf(ds).buckets
    ensures Distinct(TrendsOf(ds).order)
  {
    if ds != [] {
      var init, d := ds[..|ds| - 1], ds[|ds| - 1];
      var t := TrendsOf(init);
      TrendsKeys(init);
      StepEffect(t, d);
      assert TrendsOf(ds) == Step(t, d);
      MonthsOfSnoc(ds);
      assert Distinct(Step(t, d).order) by {
        if KeyOf(d) !in t.buckets {
          AppendFresh(t.order, KeyOf(d));
        }
      }
    }
  }

  /** The months of a list are its prefix's months plus its last deal's month. */
  lemma MonthsOfSnoc(ds: seq<Deal>)
    requires ds != []
    ensures MonthsOf(ds) == MonthsOf(ds[..|ds| - 1]) + {KeyOf(ds[|ds| - 1])}
  {
    assert ds == ds[..|ds| - 1] + [ds[|ds| - 1]];
  }

  /** Appending an element not yet listed keeps a list free of repeats. */
  lemma AppendFresh(order: seq<MonthKey>, k: MonthKey)
    requires Distinct(order) && k !in order
    ensures Distinct(order + [k])
  {
    var r := order + [k];
    forall i, j | 0 <= i < j < |r| ensures r[i] != r[j] {
      assert r[i] == order[i];
      if j < |order| {
        assert r[j] == order[j];
      }
    }
  }

  /** A bucket holds the total value and the number of its month's new deals. */
  lemma {:induction false} TrendsBuckets(ds: seq<Deal>)
    ensures forall k :: k in TrendsOf(ds).buckets ==> TrendsOf(ds).buckets[k] == Bucket(MonthGp(ds, k), MonthCount(ds, k))
  {
    if ds != [] {
      var init, d := ds[..|ds| - 1], ds[|ds| - 1];
      TrendsBuckets(init);
      TrendsKeys(init);
      StepEffect(TrendsOf(init), d);
      forall k | k in TrendsOf(ds).buckets ensures TrendsOf(ds).buckets[k] == Bucket(MonthGp(ds, k), MonthCount(ds, k)) {
        if k != KeyOf(d) && k !in TrendsOf(init).buckets {
          assert false;
        }
        if k == KeyOf(d) && k !in TrendsOf(init).buckets {
          MonthsOfAbsent(init, k);
        }
      }
    }
  }

  /** A month no deal was created in has no value and no deals. */
  lemma {:induction false} MonthsOfAbsent(ds: seq<Deal>, k: MonthKey)
    requires k !in MonthsOf(ds)
    ensures MonthGp(ds, k) == 0.0 && MonthCount(ds, k) == 0
  {
    if ds != [] {
      var init := ds[..|ds| - 1];
      assert MonthsOf(init) <= MonthsOf(ds);
      MonthsOfAbsent(init, k);
    }
  }

  /** The bucket totals added in key order. */
  function SumGp(order: seq<MonthKey>, buckets: map<MonthKey, Bucket>): real {
    if order == [] then 0.0
    else (if order[0] in buckets then buckets[order[0]].gpAdded else 0.0) + SumGp(order[1..], buckets)
  }

  lemma {:induction false} SumGpAppend(order: seq<MonthKey>, k: MonthKey, buckets: map<MonthKey, Bucket>)
    ensures SumGp(order + [k], buckets) == SumGp(order, buckets) + (if k in buckets then buckets[k].gpAdded else 0.0)
  {
    if order != [] {
      assert (order + [k])[1..] == order[1..] + [k];
      SumGpAppend(order[1..], k, buckets);
    }
  }

  lemma {:induction false} SumGpUpdateAbsent(order: seq<MonthKey>, buckets: map<MonthKey, Bucket>, k: MonthKey, b: Bucket)
    requires k !in order
    ensures SumGp(order, buckets[k := b]) == SumGp(order, buckets)
  {
    if order != [] {
      SumGpUpdateAbsent(order[1..], buckets, k, b);
    }
  }

  lemma {:induction false} SumGpUpdateOnce(order: seq<MonthKey>, buckets: map<MonthKey, Bucket>, k: MonthKey, b: Bucket)
    requires Distinct(order) && k in order && k in buckets
    ensures SumGp(order, buckets[k := b]) == SumGp(order, buckets) - buckets[k].gpAdded + b.gpAdded
  {
    if order[0] == k {
      assert k !in order[1..];
      SumGpUpdateAbsent(order[1..], buckets, k, b);
    } else {
      SumGpUpdateOnce(order[1..], buckets, k, b);
    }
  }

  /** One step adds the deal's value to the bucket totals when it is new, and nothing otherwise. */
  lemma StepAddsValue(t: Trends, d: Deal)
    requires Distinct(t.order)
    requires forall k :: k in t.order <==> k in t.buckets
    ensures SumGp(Step(t, d).order, Step(t, d).buckets) == SumGp(t.order, t.buckets) + (if IsNew(d) then Value(d) else 0.0)
  {
    var k := KeyOf(d);
    var t1 := if k in t.buckets then t else Trends(t.order + [k], t.buckets[k := Bucket(0.0, 0)]);
    if k !in t.buckets {
      SumGpAppend(t.order, k, t.buckets[k := Bucket(0.0, 0)]);
      SumGpUpdateAbsent(t.order, t.buckets, k, Bucket(0.0, 0));
      assert Distinct(t1.order);
    }
    assert SumGp(t1.order, t1.buckets) == SumGp(t.order, t.buckets);
    if IsNew(d) {
      var b := Bucket(t1.buckets[k].gpAdded + Value(d), t1.buckets[k].deals + 1);
      SumGpUpdateOnce(t1.order, t1.buckets, k, b);
    }
  }

  /** The buckets together hold the value of every new deal: nothing is lost or counted twice. */
  lemma {:induction false} BucketsAddUp(ds: seq<Deal>)
    ensures SumGp(TrendsOf(ds).order, TrendsOf(ds).buckets) == NewTotal(ds)
  {
    if ds != [] {
      var init := ds[..|ds| - 1];
      BucketsAddUp(init);
      TrendsKeys(init);
      StepAddsValue(TrendsOf(init), ds[|ds| - 1]);
    }
  }

  /**
   * `projection`: 0 without buckets; otherwise this period's new-deal total
   * plus the mean bucket total for each month left in the year.
   */
  function Projection(t: Trends, filtered: seq<Deal>, currentMonth: int): (p: real)
    ensures |t.order| == 0 ==> p == 0.0
  {
    if |t.order| == 0 then 0.0
    else
      var avgMonthly := SumGp(t.order, t.buckets) / (|t.order| as real);
      NewTotal(filtered) + avgMonthly * ((12 - currentMonth) as real)
  }

  /**
   * Since the buckets add up to the new-deal total `T` over `n` months,
   * the projection is `T + (T / n) * (12 - month)`.
   */
  lemma ProjectionFromTotal(filtered: seq<Deal>, currentMonth: int)
    requires filtered != []
    ensures 1 <= |TrendsOf(filtered).order| <= |filtered|
    ensures Projection(TrendsOf(filtered), filtered, currentMonth)
      == NewTotal(filtered) + (NewTotal(filtered) / (|TrendsOf(filtered).order| as real)) * ((12 - currentMonth) as real)
  {
    var t := TrendsOf(filtered);
    BucketsAddUp(filtered);
    TrendsKeys(filtered);
    KeysFewerThanDeals(filtered);
    assert KeyOf(filtered[0]) in MonthsOf(filtered);
    assert |t.order| >= 1;
  }

  lemma {:induction false} KeysFewerThanDeals(ds: seq<Deal>)
    ensures |TrendsOf(ds).order| <= |ds|
  {
    if ds != [] {
      KeysFewerThanDeals(ds[..|ds| - 1]);
      StepEffect(TrendsOf(ds[..|ds| - 1]), ds[|ds| - 1]);
    }
  }

  // ---------------------------------------------------------------------
  // Summary cards

  datatype Summary = Summary(totalGp: real, totalDeals: nat, totalRenewals: nat)

  /** The summary cards: new-deal value, new deals and renewals; the two counts split the filtered deals. */
  function SummaryOf(filtered: seq<Deal>): (s: Summary)
    ensures s.totalGp == NewTotal(filtered)
    ensures s.totalDeals == |NewDeals(filtered)| && s.totalRenewals == |Renewals(filtered)|
    ensures s.totalDeals + s.totalRenewals == |filtered|
  {
    NewAndRenewalsPartition(filtered);
    NewValueIsNewTotal(filtered);
    Summary(SumOf(NewDeals(filtered), Value), |NewDeals(filtered)|, |Renewals(filtered)|)
  }

  lemma {:induction false} NewValueIsNewTotal(ds: seq<Deal>)
    ensures SumOf(NewDeals(ds), Value) == NewTotal(ds)
  {
    if ds != [] {
      var init, d := ds[..|ds| - 1], ds[|ds| - 1];
      NewValueIsNewTotal(init);
      assert ds == init + [d];
      FilterConcat(init, [d], IsNew);
      SumOfConcat(NewDeals(init), Filter([d], IsNew), Value);
      assert Filter([d], IsNew) == if IsNew(d) then [d] else [];
    }
  }
}
