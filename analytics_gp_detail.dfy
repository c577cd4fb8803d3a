/**
 * The "Total GP Added" drill-down: one row per non-renewal deal handed over
 * by the analytics page, largest value first, and their total.
 */
module AnalyticsGpDetail {
  import opened Wrappers
  import opened Schema
  import opened Seqs
  import opened Credit
  import ManagersAnalytics

  /** The deals and profiles the analytics page passes along when navigating here. */
  datatype DetailState = DetailState(deals: seq<Deal>, profiles: seq<Profile>)

  /** `location.state || { deals: [], profiles: [] }`. */
  function StateOrEmpty(state: Option<DetailState>): (s: DetailState)
    ensures state.None? ==> s.deals == [] && s.profiles == []
    ensures state.Some? ==> s == state.value
  {
    if state.Some? then state.value else DetailState([], [])
  }

  /**
   * `profiles.find(p => p.id === slotUser)?.name`: the name of the first
   * profile holding that id, absent for an empty slot or an unknown id.
   */
  function RepName(profiles: seq<Profile>, slotUser: Option<Id>): (r: Option<string>)
    ensures slotUser.None? ==> r.None?
    ensures slotUser.Some? ==> match ProfileIndex(profiles, slotUser.value)
      case None => r.None?
      case Some(k) => r == Some(profiles[k].name)
  {
    if slotUser.None? then None
    else match ProfileById(profiles, slotUser.value)
      case None => None
      case Some(p) => Some(p.name)
  }

  /** A row of the detail table. */
  datatype DetailRow = DetailRow(
    id: Id,
    dealType: DealType,
    value: real,
    createdAt: Moment,
    bdRep: Option<string>,
    dtRep: Option<string>,
    rep360: Option<string>
  )

  /** The row for one deal: its value (`Number(value_converted_gbp) || 0`) and the names in its three slots. */
  function RowOf(d: Deal, profiles: seq<Profile>): (r: DetailRow)
    ensures r.id == d.id && r.dealType == d.dealType && r.value == Value(d) && r.createdAt == d.createdAt
    ensures r.bdRep == RepName(profiles, d.bdUser)
    ensures r.dtRep == RepName(profiles, d.dtUser)
    ensures r.rep360 == RepName(profiles, d.user360)
  {
    DetailRow(d.id, d.dealType, Value(d), d.createdAt,
              RepName(profiles, d.bdUser), RepName(profiles, d.dtUser), RepName(profiles, d.user360))
  }

  function RowValue(r: DetailRow): real {
    r.value
  }

  /** `deals.map(...)`: one row per deal, in the same order. */
  function Rows(ds: seq<Deal>, profiles: seq<Profile>): (r: seq<DetailRow>)
    ensures |r| == |ds|
    ensures forall i :: 0 <= i < |ds| ==> r[i] == RowOf(ds[i], profiles)
  {
    if ds == [] then [] else [RowOf(ds[0], profiles)] + Rows(ds[1..], profiles)
  }

  /** The rows' values add up to the deals' values. */
  lemma {:induction false} RowsSum(ds: seq<Deal>, profiles: seq<Profile>)
    ensures SumOf(Rows(ds, profiles), RowValue) == SumOf(ds, Value)
  {
    if ds != [] {
      RowsSum(ds[1..], profiles);
      assert Rows(ds, profiles)[1..] == Rows(ds[1..], profiles);
    }
  }

  /** A row is listed exactly when some deal produces it. */
  lemma RowsMembers(ds: seq<Deal>, profiles: seq<Profile>)
    ensures forall d :: d in ds ==> RowOf(d, profiles) in Rows(ds, profiles)
    ensures forall row :: row in Rows(ds, profiles) ==> exists d :: d in ds && row == RowOf(d, profiles)
  {
    var r := Rows(ds, profiles);
    forall d | d in ds ensures RowOf(d, profiles) in r {
      var i :| 0 <= i < |ds| && ds[i] == d;
      assert r[i] == RowOf(d, profiles);
    }
    forall row | row in r ensures exists d :: d in ds && row == RowOf(d, profiles) {
      var i :| 0 <= i < |r| && r[i] == row;
      assert ds[i] in ds;
    }
  }

  /**
   * `dealDetails`: the non-renewal deals' rows sorted by value, largest
   * first; every non-renewal deal gives exactly one row and nothing else
   * is listed.
   */
  function GpRows(deals: seq<Deal>, profiles: seq<Profile>): (r: seq<DetailRow>)
    ensures SortedDesc(r, RowValue)
    ensures multiset(r) == multiset(Rows(NewDeals(deals), profiles))
    ensures |r| == |NewDeals(deals)|
    ensures forall d :: d in deals && IsNew(d) ==> RowOf(d, profiles) in r
    ensures forall row :: row in r ==> exists d :: d in deals && IsNew(d) && row == RowOf(d, profiles)
  {
    RowsMembers(NewDeals(deals), profiles);
    SortDesc(Rows(NewDeals(deals), profiles), RowValue)
  }

  /** `totalGP`: the sum of the listed values. */
  function GpTotal(rows: seq<DetailRow>): real {
    SumOf(rows, RowValue)
  }

  /**
   * The total is the value of the non-renewal deals whatever order the rows
   * are in, and so matches the "Total GP Added" card computed over the
   * same deals.
   */
  lemma GpTotalIsNewValue(deals: seq<Deal>, profiles: seq<Profile>)
    ensures GpTotal(GpRows(deals, profiles)) == SumOf(NewDeals(deals), Value)
    ensures GpTotal(GpRows(deals, profiles)) == ManagersAnalytics.SummaryOf(deals).totalGp
  {
    SumOfPermutation(GpRows(deals, profiles), Rows(NewDeals(deals), profiles), RowValue);
    RowsSum(NewDeals(deals), profiles);
    ManagersAnalytics.NewValueIsNewTotal(deals);
  }

  /** Without navigation state the page lists nothing and totals 0. */
  lemma NoStateNoRows()
    ensures GpRows(StateOrEmpty(None).deals, StateOrEmpty(None).profiles) == []
    ensures GpTotal(GpRows(StateOrEmpty(None).deals, StateOrEmpty(None).profiles)) == 0.0
  {
  }
}
