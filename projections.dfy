/**
 * The projections page: this year's approved deals split by type, the
 * value each is expected to bring in this year (a saved adjustment or an
 * unsaved edit), and the totals per type plus the GP of uploaded billings.
 */
module Projections {
  import opened Wrappers
  import opened Schema
  import opened Seqs
  import opened BillingUpload

  /** The deals query: approved deals submitted in the given year. */
  function YearDeals(deals: seq<Deal>, year: int): (r: seq<Deal>)
    ensures forall d :: d in r <==> d in deals && IsApproved(d) && d.submittedYear == Some(year)
  {
    Filter(deals, (d: Deal) => IsApproved(d) && d.submittedYear == Some(year))
  }

  predicate IsService(d: Deal) { d.dealType == Service }
  predicate IsStaff(d: Deal) { d.dealType == Staff }
  predicate IsContract(d: Deal) { d.dealType == Contract }

  /** Service, staff and contract deals split the deals: each deal is in exactly one list. */
  lemma TypesPartition(deals: seq<Deal>)
    ensures multiset(Filter(deals, IsService)) + multiset(Filter(deals, IsStaff)) + multiset(Filter(deals, IsContract))
      == multiset(deals)
    ensures |Filter(deals, IsService)| + |Filter(deals, IsStaff)| + |Filter(deals, IsContract)| == |deals|
  {
    FilterPartition3(deals, IsService, IsStaff, IsContract);
    assert |multiset(deals)| == |deals|;
  }

  /** A row of `projection_adjustments`. */
  datatype Adjustment = Adjustment(dealId: Id, valueThisYear: Option<real>, mobilisationDate: Option<string>)

  /** `adjustments?.find(a => a.deal_id === dealId)`. */
  function FindAdjustment(adjustments: seq<Adjustment>, dealId: Id): (r: Option<Adjustment>)
    ensures r.None? <==> forall i :: 0 <= i < |adjustments| ==> adjustments[i].dealId != dealId
    ensures r.Some? ==> r.value in adjustments && r.value.dealId == dealId
    ensures r.Some? ==> (exists i :: 0 <= i < |adjustments| && adjustments[i] == r.value
                           && forall j :: 0 <= j < i ==> adjustments[j].dealId != dealId)
  {
    if adjustments == [] then None
    else if adjustments[0].dealId == dealId then Some(adjustments[0])
    else
      var r := FindAdjustment(adjustments[1..], dealId);
      assert r.Some? ==> (exists i :: 0 <= i < |adjustments| && adjustments[i] == r.value
                            && forall j :: 0 <= j < i ==> adjustments[j].dealId != dealId) by {
        if r.Some? {
          var i :| 0 <= i < |adjustments[1..]| && adjustments[1..][i] == r.value
            && forall j :: 0 <= j < i ==> adjustments[1..][j].dealId != dealId;
          assert adjustments[i + 1] == r.value;
          forall j | 0 <= j < i + 1 ensures adjustments[j].dealId != dealId {
            if j > 0 {
              assert adjustments[j] == adjustments[1..][j - 1];
            }
          }
        }
      }
      r
  }

  /** A deal's unsaved edits, as typed into the inputs. */
  datatype Edit = Edit(valueThisYear: Option<string>, mobilisationDate: Option<string>)

  const NoEdit := Edit(None, None)

  /** A saved adjustment value that is truthy (present and non-zero). */
  predicate AdjustmentSet(adj: Option<Adjustment>) {
    adj.Some? && adj.value.valueThisYear.Some? && adj.value.valueThisYear.value != 0.0
  }

  /** An edited value that is truthy (present and non-empty). */
  predicate EditSet(edit: Option<Edit>) {
    edit.Some? && edit.value.valueThisYear.Some? && edit.value.valueThisYear.value != ""
  }

  /**
   * A deal's value this year as the totals count it:
   * `adjustment?.value_this_year_gbp || editedValues[id]?.valueThisYear || 0`,
   * the saved adjustment first. `number` is JavaScript's `Number`.
   */
  function TotalValue(adj: Option<Adjustment>, edit: Option<Edit>, number: string -> real): (v: real)
    ensures AdjustmentSet(adj) ==> v == adj.value.valueThisYear.value
    ensures !AdjustmentSet(adj) && EditSet(edit) ==> v == number(edit.value.valueThisYear.value)
    ensures !AdjustmentSet(adj) && !EditSet(edit) ==> v == 0.0
  {
    if AdjustmentSet(adj) then adj.value.valueThisYear.value
    else if EditSet(edit) then number(edit.value.valueThisYear.value)
    else 0.0
  }

  /**
   * A deal's value this year as its table row shows it: the edit whenever
   * one was typed (even an empty one), else the saved adjustment or 0.
   */
  function RowValue(adj: Option<Adjustment>, edit: Option<Edit>, number: string -> real): (v: real)
    ensures edit.Some? && edit.value.valueThisYear.Some? ==> v == number(edit.value.valueThisYear.value)
    ensures (edit.None? || edit.value.valueThisYear.None?) && AdjustmentSet(adj) ==> v == adj.value.valueThisYear.value
    ensures (edit.None? || edit.value.valueThisYear.None?) && !AdjustmentSet(adj) ==> v == 0.0
  {
    if edit.Some? && edit.value.valueThisYear.Some? then number(edit.value.valueThisYear.value)
    else if AdjustmentSet(adj) then adj.value.valueThisYear.value
    else 0.0
  }

  /** The row's remaining value: the submission value less the value this year the row shows. */
  function RemainingValue(d: Deal, adj: Option<Adjustment>, edit: Option<Edit>, number: string -> real): (r: real)
    ensures r + RowValue(adj, edit, number) == Value(d)
  {
    Value(d) - RowValue(adj, edit, number)
  }

  /**
   * The table and the totals disagree: with 500 saved and 800 typed but not
   * yet saved, the row shows 800 (and 200 remaining of 1000) while the
   * total still counts 500.
   */
  lemma RowAndTotalDisagree(d: Deal, number: string -> real)
    requires Value(d) == 1000.0 && number("800") == 800.0
    ensures var adj, edit := Some(Adjustment(d.id, Some(500.0), None)), Some(Edit(Some("800"), None));
      RowValue(adj, edit, number) == 800.0 && TotalValue(adj, edit, number) == 500.0
      && RemainingValue(d, adj, edit, number) == 200.0
  {
  }

  /** The edit of a deal, if any. */
  function EditOf(edits: map<Id, Edit>, dealId: Id): Option<Edit> {
    if dealId in edits then Some(edits[dealId]) else None
  }

  /** The total of a deal list's values this year, as the totals count them. */
  function AdjustedTotal(ds: seq<Deal>, adjustments: seq<Adjustment>, edits: map<Id, Edit>, number: string -> real): real {
    if ds == [] then 0.0
    else
      var d := ds[|ds| - 1];
      AdjustedTotal(ds[..|ds| - 1], adjustments, edits, number)
      + TotalValue(FindAdjustment(adjustments, d.id), EditOf(edits, d.id), number)
  }

  /** The total over two lists of deals is the sum of their totals. */
  lemma {:induction false} AdjustedTotalConcat(a: seq<Deal>, b: seq<Deal>, adjustments: seq<Adjustment>, edits: map<Id, Edit>, number: string -> real)
    ensures AdjustedTotal(a + b, adjustments, edits, number)
      == AdjustedTotal(a, adjustments, edits, number) + AdjustedTotal(b, adjustments, edits, number)
    decreases |b|
  {
    if b == [] {
      assert a + b == a;
    } else {
      assert (a + b)[..|a + b| - 1] == a + b[..|b| - 1];
      AdjustedTotalConcat(a, b[..|b| - 1], adjustments, edits, number);
    }
  }

  /** Without adjustments or edits, service and contract deals project nothing. */
  lemma {:induction false} NothingProjectedWithoutInput(ds: seq<Deal>, number: string -> real)
    ensures AdjustedTotal(ds, [], map[], number) == 0.0
  {
    if ds != [] {
      NothingProjectedWithoutInput(ds[..|ds| - 1], number);
    }
  }

  /** The total of the billing records' GP; no records count as 0. */
  function BillingsGp(records: Option<seq<BillingRecord>>): (total: real)
    ensures records.None? ==> total == 0.0
  {
    if records.None? then 0.0 else SumOf(records.value, (r: BillingRecord) => r.gpGbp)
  }

  datatype TypeTotals = TypeTotals(services: real, staff: real, contracts: real, billings: real, total: real)

  /** Adds one deal's value this year to a running total, as each `forEach` step does. */
  lemma AdjustedTotalAppend(ds: seq<Deal>, i: nat, adjustments: seq<Adjustment>, edits: map<Id, Edit>, number: string -> real)
    requires i < |ds|
    ensures AdjustedTotal(ds[..i + 1], adjustments, edits, number)
      == AdjustedTotal(ds[..i], adjustments, edits, number)
         + TotalValue(FindAdjustment(adjustments, ds[i].id), EditOf(edits, ds[i].id), number)
  {
    assert ds[..i + 1][..i] == ds[..i];
  }

  /** The services and contracts `forEach`: each deal's value this year, the adjustment first. */
  method SumValuesThisYear(ds: seq<Deal>, adjustments: seq<Adjustment>, edits: map<Id, Edit>, number: string -> real)
    returns (total: real)
    ensures total == AdjustedTotal(ds, adjustments, edits, number)
  {
    total := 0.0;
    for i := 0 to |ds|
      invariant total == AdjustedTotal(ds[..i], adjustments, edits, number)
    {
      var deal := ds[i];
      var adjustment := FindAdjustment(adjustments, deal.id);
      AdjustedTotalAppend(ds, i, adjustments, edits, number);
      total := total + TotalValue(adjustment, EditOf(edits, deal.id), number);
    }
    assert ds[..|ds|] == ds;
  }

  /** The staff `forEach`: converted values, null as 0. */
  method SumConvertedValues(ds: seq<Deal>) returns (total: real)
    ensures total == SumOf(ds, Value)
  {
    total := 0.0;
    for i := 0 to |ds|
      invariant total == SumOf(ds[..i], Value)
    {
      SumOfConcat(ds[..i], [ds[i]], Value);
      assert ds[..i + 1] == ds[..i] + [ds[i]];
      total := total + Value(ds[i]);
    }
    assert ds[..|ds|] == ds;
  }

  /**
   * `projectionTotals`: services and contracts add each deal's value this
   * year, staff adds converted values, and the overall total adds the
   * billings' GP.
   */
  method ProjectionTotals(deals: seq<Deal>, adjustments: seq<Adjustment>, edits: map<Id, Edit>,
                          records: Option<seq<BillingRecord>>, number: string -> real) returns (totals: TypeTotals)
    ensures totals.services == AdjustedTotal(Filter(deals, IsService), adjustments, edits, number)
    ensures totals.staff == SumOf(Filter(deals, IsStaff), Value)
    ensures totals.contracts == AdjustedTotal(Filter(deals, IsContract), adjustments, edits, number)
    ensures totals.billings == BillingsGp(records)
    ensures totals.total == totals.services + totals.staff + totals.contracts + totals.billings
  {
    var servicesTotal := SumValuesThisYear(Filter(deals, IsService), adjustments, edits, number);
    var staffTotal := SumConvertedValues(Filter(deals, IsStaff));
    var contractsTotal := SumValuesThisYear(Filter(deals, IsContract), adjustments, edits, number);
    var billings := BillingsGp(records);
    totals := TypeTotals(servicesTotal, staffTotal, contractsTotal, billings,
                         servicesTotal + staffTotal + contractsTotal + billings);
  }

  /** The two input fields of a row. */
  datatype EditField = ValueThisYearField | MobilisationDateField

  /** What `handleSave` sends to the upsert, with the page's year. */
  datatype SavePayload = SavePayload(dealId: Id, year: int, valueThisYear: Option<real>, mobilisationDate: Option<string>)

  /** The `projection_adjustments` row an upserted payload becomes. */
  function Stored(p: SavePayload): Adjustment {
    Adjustment(p.dealId, p.valueThisYear, p.mobilisationDate)
  }

  /** The page's unsaved edits, keyed by deal id. */
  class ProjectionsPage {
    var editedValues: map<Id, Edit>

    constructor ()
      ensures editedValues == map[]
    {
      editedValues := map[];
    }

    /** `handleValueChange`: sets one field of one deal's edits, starting from no edits. */
    method HandleValueChange(dealId: Id, field: EditField, value: string)
      modifies this
      ensures dealId in editedValues
      ensures forall id :: id != dealId ==> EditOf(editedValues, id) == EditOf(old(editedValues), id)
      ensures var before := if dealId in old(editedValues) then old(editedValues)[dealId] else NoEdit;
        editedValues[dealId] == match field
          case ValueThisYearField => before.(valueThisYear := Some(value))
          case MobilisationDateField => before.(mobilisationDate := Some(value))
    {
      var prev := if dealId in editedValues then editedValues[dealId] else NoEdit;
      var next := match field
        case ValueThisYearField => prev.(valueThisYear := Some(value))
        case MobilisationDateField => prev.(mobilisationDate := Some(value));
      editedValues := editedValues[dealId := next];
    }

    /**
     * `handleSave`: nothing without edits for the deal; otherwise the deal
     * and the page's year, the typed value parsed (an empty or missing one
     * sent as null), and the mobilisation date for contracts only.
     */
    function SaveRequest(dealId: Id, dealType: DealType, year: int, parse: string -> real): (r: Option<SavePayload>)
      reads this
      ensures r.None? <==> dealId !in editedValues
      ensures r.Some? ==> r.value.dealId == dealId && r.value.year == year
      ensures r.Some? ==> (r.value.valueThisYear.None? <==> !EditSet(Some(editedValues[dealId])))
      ensures r.Some? && EditSet(Some(editedValues[dealId])) ==>
        r.value.valueThisYear == Some(parse(editedValues[dealId].valueThisYear.value))
      ensures r.Some? && dealType != Contract ==> r.value.mobilisationDate.None?
      ensures r.Some? && dealType == Contract ==> r.value.mobilisationDate == editedValues[dealId].mobilisationDate
    {
      if dealId !in editedValues then None
      else
        var edited := editedValues[dealId];
        var valueThisYear := if EditSet(Some(edited)) then Some(parse(edited.valueThisYear.value)) else None;
        Some(SavePayload(dealId, year, valueThisYear, if dealType == Contract then edited.mobilisationDate else None))
    }

    /** After a successful save every edit is discarded. */
    method OnSaveSuccess()
      modifies this
      ensures editedValues == map[]
    {
      editedValues := map[];
    }
  }

  /**
   * Saving a typed value that parses to a non-zero amount, and then
   * discarding the edits as a successful save does, makes the row and the
   * totals agree on that amount.
   */
  lemma SaveThenAgree(page: ProjectionsPage, dealId: Id, dealType: DealType, year: int,
                      parse: string -> real, number: string -> real)
    requires dealId in page.editedValues && EditSet(Some(page.editedValues[dealId]))
    requires parse(page.editedValues[dealId].valueThisYear.value) != 0.0
    ensures var adj := Some(Stored(page.SaveRequest(dealId, dealType, year, parse).value));
      TotalValue(adj, None, number) == parse(page.editedValues[dealId].valueThisYear.value)
      && RowValue(adj, None, number) == TotalValue(adj, None, number)
  {
  }
}
