/**
 * The "Renewals" drill-down: one row per renewal deal handed over by the
 * analytics page, with its renewal number, and their total.
 */
module AnalyticsRenewalsDetail {
  import opened Wrappers
  import opened Schema
  import opened Seqs
  import opened Credit
  import opened AnalyticsGpDetail

  /** `deal.renewal_count || 1`: a missing or zero count reads as the first renewal. */
  function RenewalNumber(d: Deal): (n: int)
    ensures d.renewalCount.None? || d.renewalCount == Some(0) ==> n == 1
    ensures d.renewalCount.Some? && d.renewalCount.value != 0 ==> n == d.renewalCount.value
    ensures n != 0
  {
    if d.renewalCount.None? || d.renewalCount.value == 0 then 1 else d.renewalCount.value
  }

  /** A row of the renewals table: the shared deal row plus the renewal number. */
  datatype RenewalRow = RenewalRow(row: DetailRow, renewalCount: int)

  function RenewalRowOf(d: Deal, profiles: seq<Profile>): (r: RenewalRow)
    ensures r.row == RowOf(d, profiles) && r.renewalCount == RenewalNumber(d)
  {
    RenewalRow(RowOf(d, profiles), RenewalNumber(d))
  }

  function RenewalValue(r: RenewalRow): real {
    r.row.value
  }

  /** `renewalDetails` before sorting: one row per renewal deal, in the order given. */
  function RenewalRows(deals: seq<Deal>, profiles: seq<Profile>): (r: seq<RenewalRow>)
    ensures |r| == |Renewals(deals)|
    ensures forall i :: 0 <= i < |r| ==> r[i] == RenewalRowOf(Renewals(deals)[i], profiles)
    ensures forall d :: d in deals && IsRenewal(d) ==> RenewalRowOf(d, profiles) in r
    ensures forall row :: row in r ==> exists d :: d in deals && IsRenewal(d) && row == RenewalRowOf(d, profiles)
  {
    var ds := Renewals(deals);
    var r := MapRenewals(ds, profiles);
    forall d | d in deals && IsRenewal(d) ensures RenewalRowOf(d, profiles) in r {
      var i :| 0 <= i < |ds| && ds[i] == d;
      assert r[i] == RenewalRowOf(d, profiles);
    }
    forall row | row in r ensures exists d :: d in deals && IsRenewal(d) && row == RenewalRowOf(d, profiles) {
      var i :| 0 <= i < |r| && r[i] == row;
      assert ds[i] in ds;
    }
    r
  }

  function MapRenewals(ds: seq<Deal>, profiles: seq<Profile>): (r: seq<RenewalRow>)
    ensures |r| == |ds|
    ensures forall i :: 0 <= i < |ds| ==> r[i] == RenewalRowOf(ds[i], profiles)
  {
    if ds == [] then [] else [RenewalRowOf(ds[0], profiles)] + MapRenewals(ds[1..], profiles)
  }

  /** `totalValue`: the sum of the listed values. */
  function RenewalsTotal(rows: seq<RenewalRow>): real {
    SumOf(rows, RenewalValue)
  }

  lemma {:induction false} MapRenewalsSum(ds: seq<Deal>, profiles: seq<Profile>)
    ensures RenewalsTotal(MapRenewals(ds, profiles)) == SumOf(ds, Value)
  {
    if ds != [] {
      MapRenewalsSum(ds[1..], profiles);
      assert MapRenewals(ds, profiles)[1..] == MapRenewals(ds[1..], profiles);
    }
  }

  /**
   * Whatever order the page's date sort leaves the rows in, the total is
   * the value of the renewal deals, and the row count is their number.
   */
  lemma RenewalsTotalAnyOrder(deals: seq<Deal>, profiles: seq<Profile>, shown: seq<RenewalRow>)
    requires multiset(shown) == multiset(RenewalRows(deals, profiles))
    ensures RenewalsTotal(shown) == SumOf(Renewals(deals), Value)
    ensures |shown| == |Renewals(deals)|
  {
    SumOfPermutation(shown, RenewalRows(deals, profiles), RenewalValue);
    MapRenewalsSum(Renewals(deals), profiles);
    assert RenewalRows(deals, profiles) == MapRenewals(Renewals(deals), profiles);
    assert |shown| == |multiset(shown)|;
  }

  /** The two drill-downs split the handed-over deals: every deal is listed on exactly one of them. */
  lemma DetailsSplitDeals(deals: seq<Deal>, profiles: seq<Profile>)
    ensures |GpRows(deals, profiles)| + |RenewalRows(deals, profiles)| == |deals|
    ensures GpTotal(GpRows(deals, profiles)) + SumOf(Renewals(deals), Value) == SumOf(deals, Value)
  {
    NewAndRenewalsPartition(deals);
    GpTotalIsNewValue(deals, profiles);
    SumOfPermutation(NewDeals(deals) + Renewals(deals), deals, Value);
    SumOfConcat(NewDeals(deals), Renewals(deals), Value);
  }
}
