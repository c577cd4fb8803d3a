/**
 * The dashboard: the signed-in person's deal counts and approved value, and
 * their rank on four measures among everyone of the same role.
 */
module Dashboard {
  import opened Wrappers
  import opened Schema
  import opened Seqs

  predicate IsDraft(d: Deal) {
    d.status == Some(Draft)
  }

  /** The deals `u` submitted (`.eq('submitted_by_user_id', u)`). */
  function SubmittedBy(deals: seq<Deal>, u: Id): (r: seq<Deal>)
    ensures forall d :: d in r <==> d in deals && d.submittedBy == u
  {
    Filter(deals, (d: Deal) => d.submittedBy == u)
  }

  /** A deal's contribution to the approved value: its value if approved, else nothing. */
  function ApprovedValue(d: Deal): real {
    if IsApproved(d) then Value(d) else 0.0
  }

  /** One person's figures, as the ranking compares them. */
  datatype UserStat = UserStat(userId: Id, totalDeals: nat, approvedDeals: nat, pendingDeals: nat, totalValue: real)

  /**
   * The figures of `u` over `deals`: approved, pending (Submitted or Under
   * Review) and draft are disjoint statuses, so they fit within the total;
   * the value adds up approved deals only.
   */
  function StatOf(u: Id, deals: seq<Deal>): (s: UserStat)
    ensures s.userId == u && s.totalDeals == |SubmittedBy(deals, u)|
    ensures s.approvedDeals == |Filter(SubmittedBy(deals, u), IsApproved)|
    ensures s.pendingDeals == |Filter(SubmittedBy(deals, u), IsPending)|
    ensures s.approvedDeals + s.pendingDeals <= s.totalDeals
    ensures s.totalValue == SumOf(SubmittedBy(deals, u), ApprovedValue)
  {
    var userDeals := SubmittedBy(deals, u);
    FilterDisjoint3(userDeals, IsApproved, IsPending, IsDraft);
    SumOfFilter(userDeals, IsApproved, Value, ApprovedValue);
    UserStat(u, |userDeals|, |Filter(userDeals, IsApproved)|, |Filter(userDeals, IsPending)|,
             SumOf(Filter(userDeals, IsApproved), Value))
  }

  /** A rank (1-based, 0 when absent) out of a number of people. */
  datatype Ranking = Ranking(rank: nat, total: nat)

  datatype Rankings = Rankings(totalDeals: Ranking, approvedDeals: Ranking, pendingDeals: Ranking, totalValue: Ranking)

  const Unranked := Rankings(Ranking(0, 0), Ranking(0, 0), Ranking(0, 0), Ranking(0, 0))

  /** `findIndex(s => s.userId === u) + 1`. */
  function RankIn(sorted: seq<UserStat>, u: Id): (r: nat)
    ensures r <= |sorted|
    ensures r == 0 <==> forall i :: 0 <= i < |sorted| ==> sorted[i].userId != u
    ensures r > 0 ==> sorted[r - 1].userId == u && forall i :: 0 <= i < r - 1 ==> sorted[i].userId != u
  {
    if sorted == [] then 0
    else if sorted[0].userId == u then 1
    else
      var k := RankIn(sorted[1..], u);
      if k == 0 then 0 else k + 1
  }

  function TotalKey(s: UserStat): real { s.totalDeals as real }
  function ApprovedKey(s: UserStat): real { s.approvedDeals as real }
  function PendingKey(s: UserStat): real { s.pendingDeals as real }
  function ValueKey(s: UserStat): real { s.totalValue }

  /**
   * On a descending measure, everyone ranked ahead of the person has at
   * least their figure and everyone behind has at most it.
   */
  lemma RankedAheadDesc(stats: seq<UserStat>, key: UserStat -> real, u: Id)
    requires RankIn(SortDesc(stats, key), u) > 0
    ensures var sorted, r := SortDesc(stats, key), RankIn(SortDesc(stats, key), u);
      (forall i :: 0 <= i < r - 1 ==> key(sorted[i]) >= key(sorted[r - 1]))
      && (forall i :: r - 1 < i < |sorted| ==> key(sorted[i]) <= key(sorted[r - 1]))
  {
  }

  /**
   * On pending deals, sorted smallest first, everyone ranked ahead of the
   * person has at most their count and everyone behind has at least it.
   */
  lemma RankedAheadAsc(stats: seq<UserStat>, key: UserStat -> real, u: Id)
    requires RankIn(SortAsc(stats, key), u) > 0
    ensures var sorted, r := SortAsc(stats, key), RankIn(SortAsc(stats, key), u);
      (forall i :: 0 <= i < r - 1 ==> key(sorted[i]) <= key(sorted[r - 1]))
      && (forall i :: r - 1 < i < |sorted| ==> key(sorted[i]) >= key(sorted[r - 1]))
  {
  }

  /** A person is ranked on a sorted copy exactly when the unsorted stats list them. */
  lemma {:induction false} RankedIffListed(stats: seq<UserStat>, sorted: seq<UserStat>, u: Id)
    requires multiset(sorted) == multiset(stats)
    ensures RankIn(sorted, u) > 0 <==> exists s :: s in stats && s.userId == u
  {
    SameMembers(sorted, stats);
    if RankIn(sorted, u) > 0 {
      assert sorted[RankIn(sorted, u) - 1] in stats;
    }
  }

  /**
   * The four ranks: totals, approved and value sort largest first, pending
   * smallest first (fewer is better).
   */
  function RankingsOf(stats: seq<UserStat>, u: Id): (r: Rankings)
    ensures r.totalDeals.total == |stats| && r.approvedDeals.total == |stats|
    ensures r.pendingDeals.total == |stats| && r.totalValue.total == |stats|
    ensures r.totalDeals.rank <= |stats| && r.approvedDeals.rank <= |stats|
    ensures r.pendingDeals.rank <= |stats| && r.totalValue.rank <= |stats|
    ensures (r.totalDeals.rank > 0 && r.approvedDeals.rank > 0 && r.pendingDeals.rank > 0 && r.totalValue.rank > 0)
      <==> exists s :: s in stats && s.userId == u
  {
    var byTotal := SortDesc(stats, TotalKey);
    var byApproved := SortDesc(stats, ApprovedKey);
    var byPending := SortAsc(stats, PendingKey);
    var byValue := SortDesc(stats, ValueKey);
    RankedIffListed(stats, byTotal, u);
    RankedIffListed(stats, byApproved, u);
    RankedIffListed(stats, byPending, u);
    RankedIffListed(stats, byValue, u);
    Rankings(Ranking(RankIn(byTotal, u), |stats|), Ranking(RankIn(byApproved, u), |stats|),
             Ranking(RankIn(byPending, u), |stats|), Ranking(RankIn(byValue, u), |stats|))
  }

  function StatsOf(userIds: seq<Id>, deals: seq<Deal>): (r: seq<UserStat>)
    ensures |r| == |userIds|
    ensures forall i :: 0 <= i < |userIds| ==> r[i] == StatOf(userIds[i], deals)
  {
    if userIds == [] then [] else [StatOf(userIds[0], deals)] + StatsOf(userIds[1..], deals)
  }

  /** The dashboard's figures for the signed-in person. */
  datatype Stats = Stats(totalDeals: nat, approvedDeals: nat, pendingDeals: nat, draftDeals: nat, totalValue: real, rankings: Rankings)

  /** The same-role profiles' ids (`.eq('role_type', role)`). */
  function SameRoleIds(profiles: seq<Profile>, role: RoleType): (r: seq<Id>)
    ensures forall id :: id in r <==> exists p :: p in profiles && p.role == role && p.id == id
  {
    var same := Filter(profiles, (p: Profile) => p.role == role);
    IdsOfSameRole(profiles, role, same);
    Ids(same)
  }

  lemma IdsOfSameRole(profiles: seq<Profile>, role: RoleType, same: seq<Profile>)
    requires forall p :: p in same <==> p in profiles && p.role == role
    ensures forall id :: id in Ids(same) <==> exists p :: p in profiles && p.role == role && p.id == id
  {
    var ids := Ids(same);
    forall id | id in ids ensures exists p :: p in profiles && p.role == role && p.id == id {
      var i :| 0 <= i < |ids| && ids[i] == id;
      assert same[i] in same;
    }
    forall id | exists p :: p in profiles && p.role == role && p.id == id ensures id in ids {
      var p :| p in profiles && p.role == role && p.id == id;
      var i :| 0 <= i < |same| && same[i] == p;
      assert ids[i] == id;
    }
  }

  /** The deals of the same-role people (`.in('submitted_by_user_id', userIds)`). */
  function SameRoleDeals(deals: seq<Deal>, userIds: seq<Id>): (r: seq<Deal>)
    ensures forall d :: d in r <==> d in deals && d.submittedBy in userIds
  {
    Filter(deals, (d: Deal) => d.submittedBy in userIds)
  }

  /** The ranks among the same-role people, each ranked by their own figures. */
  function SameRoleRankings(u: Id, deals: seq<Deal>, role: RoleType, profiles: seq<Profile>): (r: Rankings)
    ensures var n := |SameRoleIds(profiles, role)|;
      r.totalDeals.total == n && r.approvedDeals.total == n && r.pendingDeals.total == n && r.totalValue.total == n
    ensures (r.totalDeals.rank > 0 && r.approvedDeals.rank > 0 && r.pendingDeals.rank > 0 && r.totalValue.rank > 0)
      <==> exists p :: p in profiles && p.role == role && p.id == u
  {
    var userIds := SameRoleIds(profiles, role);
    StatsListIds(userIds, SameRoleDeals(deals, userIds), u);
    RankingsOf(StatsOf(userIds, SameRoleDeals(deals, userIds)), u)
  }

  /** The figures list a person exactly when their id is among the ids. */
  lemma StatsListIds(userIds: seq<Id>, deals: seq<Deal>, u: Id)
    ensures (exists s :: s in StatsOf(userIds, deals) && s.userId == u) <==> u in userIds
  {
    var stats := StatsOf(userIds, deals);
    assert forall i :: 0 <= i < |stats| ==> stats[i].userId == userIds[i];
    if u in userIds {
      var i :| 0 <= i < |userIds| && userIds[i] == u;
      assert stats[i] in stats;
    }
    if exists s :: s in stats && s.userId == u {
      var s :| s in stats && s.userId == u;
      var i :| 0 <= i < |stats| && stats[i] == s;
      assert userIds[i] == u;
    }
  }

  /**
   * The dashboard query. `role` is the person's role if known; the two
   * flags say whether the same-role profile query or the same-role deals
   * query failed. Without a role, or after a failure, every rank stays
   * `{0, 0}`.
   */
  function DashboardStats(u: Id, deals: seq<Deal>, role: Option<RoleType>, profiles: seq<Profile>,
                          profilesFail: bool, dealsFail: bool): (s: Stats)
    ensures s.approvedDeals == |Filter(SubmittedBy(deals, u), IsApproved)|
    ensures s.pendingDeals == |Filter(SubmittedBy(deals, u), IsPending)|
    ensures s.draftDeals == |Filter(SubmittedBy(deals, u), IsDraft)|
    ensures s.approvedDeals + s.pendingDeals + s.draftDeals <= s.totalDeals
    ensures s.totalDeals == |SubmittedBy(deals, u)|
    ensures s.totalValue == SumOf(SubmittedBy(deals, u), ApprovedValue)
    ensures role.None? || profilesFail || dealsFail ==> s.rankings == Unranked
    ensures role.Some? && !profilesFail && !dealsFail ==> s.rankings == SameRoleRankings(u, deals, role.value, profiles)
  {
    var own := SubmittedBy(deals, u);
    FilterDisjoint3(own, IsApproved, IsPending, IsDraft);
    SumOfFilter(own, IsApproved, Value, ApprovedValue);
    var rankings := if role.None? || profilesFail || dealsFail then Unranked else SameRoleRankings(u, deals, role.value, profiles);
    Stats(|own|, |Filter(own, IsApproved)|, |Filter(own, IsPending)|, |Filter(own, IsDraft)|,
          SumOf(Filter(own, IsApproved), Value), rankings)
  }

  /**
   * A person whose profile has the role is ranked on all four measures, at
   * a place between 1 and the number of same-role profiles.
   */
  lemma RankedWhenProfiled(u: Id, deals: seq<Deal>, role: RoleType, profiles: seq<Profile>)
    requires exists p :: p in profiles && p.role == role && p.id == u
    ensures var r := SameRoleRankings(u, deals, role, profiles);
      1 <= r.totalDeals.rank <= r.totalDeals.total && 1 <= r.approvedDeals.rank <= r.approvedDeals.total
      && 1 <= r.pendingDeals.rank <= r.pendingDeals.total && 1 <= r.totalValue.rank <= r.totalValue.total
  {
    var userIds := SameRoleIds(profiles, role);
    var stats := StatsOf(userIds, SameRoleDeals(deals, userIds));
    assert u in userIds;
    var i :| 0 <= i < |userIds| && userIds[i] == u;
    assert stats[i] in stats && stats[i].userId == u;
  }

  /** `getRankingSuffix`: 1st, 2nd, 3rd, and "th" for every other rank. */
  function RankingSuffix(rank: int): (s: string)
    ensures rank == 1 <==> s == "st"
    ensures rank == 2 <==> s == "nd"
    ensures rank == 3 <==> s == "rd"
    ensures rank != 1 && rank != 2 && rank != 3 <==> s == "th"
  {
    if rank == 1 then "st" else if rank == 2 then "nd" else if rank == 3 then "rd" else "th"
  }
}
