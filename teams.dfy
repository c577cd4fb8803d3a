/**
 * Team performance, as the Teams page and the Leaderboard's team tab compute
 * it: every slot a member holds is credited to the team (the group form of
 * the credit split), and teams are ranked by GP Added.
 */
module Teams {
  import opened Schema
  import opened Seqs
  import opened Credit

  /** One team's row: member count, GP Added and the two deal counts. */
  datatype TeamEntry = TeamEntry(id: Id, name: string, memberCount: nat, gpAdded: real, newPlacements: nat, renewalCount: nat)

  /** The approved deals in which some member of `team` holds some slot. */
  function TeamDeals(team: Team, deals: seq<Deal>): (r: seq<Deal>)
    ensures forall d :: d in r <==> d in deals && IsApproved(d) && InvolvesGroup(d, Ids(team.members))
  {
    GroupDeals(ApprovedOnly(deals), Ids(team.members))
  }

  /**
   * A team's metrics: GP Added is the group credit over the team's
   * non-renewal deals, and every team deal is counted as a new placement or
   * as a renewal.
   */
  function TeamMetrics(team: Team, deals: seq<Deal>): (e: TeamEntry)
    ensures e.id == team.id && e.name == team.name && e.memberCount == |team.members|
    ensures e.gpAdded == GroupGpAdded(ApprovedOnly(deals), Ids(team.members))
    ensures e.newPlacements == |NewDeals(TeamDeals(team, deals))|
    ensures e.renewalCount == |Renewals(TeamDeals(team, deals))|
    ensures e.newPlacements + e.renewalCount == |TeamDeals(team, deals)|
  {
    var ids := Ids(team.members);
    var teamDeals := TeamDeals(team, deals);
    GroupGpAddedOfGroupDeals(ApprovedOnly(deals), ids);
    NewAndRenewalsPartition(teamDeals);
    TeamEntry(team.id, team.name, |team.members|, GroupGpAdded(teamDeals, ids), |NewDeals(teamDeals)|, |Renewals(teamDeals)|)
  }

  function TeamEntries(teams: seq<Team>, deals: seq<Deal>): (r: seq<TeamEntry>)
    ensures |r| == |teams|
    ensures forall i :: 0 <= i < |teams| ==> r[i] == TeamMetrics(teams[i], deals)
  {
    if teams == [] then [] else [TeamMetrics(teams[0], deals)] + TeamEntries(teams[1..], deals)
  }

  /** The sort key, GP Added. */
  function TeamGp(e: TeamEntry): real {
    e.gpAdded
  }

  /** The team ranking: one entry per team, largest GP Added first. */
  function TeamsRanking(teams: seq<Team>, deals: seq<Deal>): (r: seq<TeamEntry>)
    ensures SortedDesc(r, TeamGp)
    ensures multiset(r) == multiset(TeamEntries(teams, deals))
    ensures |r| == |teams|
  {
    SortDesc(TeamEntries(teams, deals), TeamGp)
  }

  /** A team without members has nothing: no GP Added, no deals, no members. */
  lemma EmptyTeam(team: Team, deals: seq<Deal>)
    requires team.members == []
    ensures TeamMetrics(team, deals).gpAdded == 0.0
    ensures TeamMetrics(team, deals).newPlacements == 0 && TeamMetrics(team, deals).renewalCount == 0
    ensures TeamMetrics(team, deals).memberCount == 0
  {
    EmptyGroupEarnsNothing(ApprovedOnly(deals));
    assert Ids(team.members) == [];
    FilterNone(ApprovedOnly(deals), d => InvolvesGroup(d, []));
  }

  /**
   * A team's GP Added covers what its members earn individually (on the
   * Leaderboard's individual tab) when values and splits are non-negative
   * and no one is listed twice.
   */
  lemma TeamCoversMembers(team: Team, deals: seq<Deal>)
    requires Distinct(Ids(team.members))
    requires forall d :: d in deals ==> Value(d) >= 0.0 && NonNegativeSplit(d)
    ensures MembersGpAdded(ApprovedOnly(deals), Ids(team.members)) <= TeamMetrics(team, deals).gpAdded
  {
    GroupGpAddedCoversMembers(ApprovedOnly(deals), Ids(team.members));
  }
}
