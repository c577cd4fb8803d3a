/**
 * The Leaderboard page: every active person's GP Added and deal counts,
 * ranked; the same list filtered by role; and the rank badges.
 */
module Leaderboard {
  import opened Wrappers
  import opened Schema
  import opened Seqs
  import opened Credit

  /** A profile as the page reads it, joined with its team's name. */
  datatype ProfileRow = ProfileRow(profile: Profile, teamName: Option<string>)

  /** One person's row. */
  datatype UserEntry = UserEntry(
    id: Id,
    name: string,
    email: string,
    role: RoleType,
    teamName: string,
    gpAdded: real,
    newPlacements: nat,
    renewalCount: nat
  )

  /** `profile.teams?.team_name || 'No Team'`. */
  function TeamLabel(name: Option<string>): (r: string)
    ensures r == "No Team" <==> name.None? || name.value == "" || name.value == "No Team"
  {
    if name.Some? && name.value != "" then name.value else "No Team"
  }

  /** The profiles query keeps active profiles only. */
  predicate IsActive(row: ProfileRow) {
    row.profile.active == Some(true)
  }

  function ActiveProfiles(rows: seq<ProfileRow>): (r: seq<ProfileRow>)
    ensures forall row :: row in r <==> row in rows && IsActive(row)
  {
    Filter(rows, IsActive)
  }

  /** A person's deals: the approved deals in which the person holds some slot. */
  function UserDealsOf(deals: seq<Deal>, u: Id): (r: seq<Deal>)
    ensures forall d :: d in r <==> d in deals && IsApproved(d) && Involves(d, u)
  {
    UserDeals(ApprovedOnly(deals), u)
  }

  /**
   * A person's row: GP Added is the individual credit (last slot held) over
   * the person's non-renewal approved deals, and every deal of the person is
   * either a new placement or a renewal.
   */
  function UserMetrics(row: ProfileRow, deals: seq<Deal>): (e: UserEntry)
    ensures e.id == row.profile.id && e.role == row.profile.role && e.teamName == TeamLabel(row.teamName)
    ensures e.gpAdded == IndividualGpAdded(ApprovedOnly(deals), row.profile.id)
    ensures e.newPlacements == |NewDeals(UserDealsOf(deals, row.profile.id))|
    ensures e.renewalCount == |Renewals(UserDealsOf(deals, row.profile.id))|
    ensures e.newPlacements + e.renewalCount == |UserDealsOf(deals, row.profile.id)|
  {
    var p := row.profile;
    var userDeals := UserDealsOf(deals, p.id);
    IndividualGpAddedOfUserDeals(ApprovedOnly(deals), p.id);
    NewAndRenewalsPartition(userDeals);
    UserEntry(p.id, p.name, p.email, p.role, TeamLabel(row.teamName),
              IndividualGpAdded(userDeals, p.id), |NewDeals(userDeals)|, |Renewals(userDeals)|)
  }

  function UserEntries(rows: seq<ProfileRow>, deals: seq<Deal>): (r: seq<UserEntry>)
    ensures |r| == |rows|
    ensures forall i :: 0 <= i < |rows| ==> r[i] == UserMetrics(rows[i], deals)
  {
    if rows == [] then [] else [UserMetrics(rows[0], deals)] + UserEntries(rows[1..], deals)
  }

  /** The sort key, GP Added. */
  function EntryGp(e: UserEntry): real {
    e.gpAdded
  }

  /** The individual ranking: one entry per active profile, largest GP Added first. */
  function IndividualRanking(rows: seq<ProfileRow>, deals: seq<Deal>): (r: seq<UserEntry>)
    ensures SortedDesc(r, EntryGp)
    ensures multiset(r) == multiset(UserEntries(ActiveProfiles(rows), deals))
  {
    SortDesc(UserEntries(ActiveProfiles(rows), deals), EntryGp)
  }

  /**
   * `getLeaderboardByRole`: the entries of one role, in the order of the
   * ranking, so a ranked list stays ranked.
   */
  function ByRole(board: seq<UserEntry>, role: RoleType): (r: seq<UserEntry>)
    ensures forall e :: e in r <==> e in board && e.role == role
    ensures SortedDesc(board, EntryGp) ==> SortedDesc(r, EntryGp)
    ensures |board| == 1 ==> r == if board[0].role == role then board else []
  {
    var inRole := InRole(role);
    assert SortedDesc(board, EntryGp) ==> SortedDesc(Filter(board, inRole), EntryGp) by {
      if SortedDesc(board, EntryGp) {
        FilterKeepsSortedDesc(board, inRole, EntryGp);
      }
    }
    assert |board| == 1 ==> board == [board[0]] + [];
    Filter(board, inRole)
  }

  /** The test `e.role === role`. */
  function InRole(role: RoleType): UserEntry -> bool {
    (e: UserEntry) => e.role == role
  }

  /**
   * Taking a role's rows goes list by list: the rows of `a + b` are those of
   * `a` followed by those of `b`. With the one-row case above, this pins
   * `ByRole` down as the filter that keeps order and multiplicity.
   */
  lemma ByRoleConcat(a: seq<UserEntry>, b: seq<UserEntry>, role: RoleType)
    ensures ByRole(a + b, role) == ByRole(a, role) + ByRole(b, role)
  {
    FilterConcat(a, b, InRole(role));
  }

  /** The badge shown beside a row. */
  datatype RankBadge = Trophy | Medal | Award | Numbered(n: int)

  /** `getRankIcon`: trophy, medal and award for the first three rows, `#(index+1)` after. */
  function RankIcon(index: nat): (b: RankBadge)
    ensures index < 3 <==> !b.Numbered?
    ensures b.Numbered? ==> b.n == index + 1 && b.n > 3
    ensures b == Trophy <==> index == 0
    ensures b == Medal <==> index == 1
    ensures b == Award <==> index == 2
  {
    if index == 0 then Trophy
    else if index == 1 then Medal
    else if index == 2 then Award
    else Numbered(index + 1)
  }

  /** No two rows share a badge. */
  lemma RankBadgesDistinct(i: nat, j: nat)
    requires i != j
    ensures RankIcon(i) != RankIcon(j)
  {
  }
}
