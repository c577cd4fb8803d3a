/**
 * The targets editor: an administrator picks a person and a year, edits the
 * twelve monthly GP targets, and saves them as twelve upserted rows.
 */
module TargetsManagement {
  import opened Wrappers
  import opened Schema

  /** A row of `individual_targets`, as loaded and as upserted. */
  datatype IndividualTarget = IndividualTarget(userId: Id, year: int, month: int, targetGp: real)

  /** `targets[m] || 0`: a month without an entry reads as 0. */
  function TargetOf(targets: map<int, real>, m: int): real {
    if m in targets then targets[m] else 0.0
  }

  /** The map `fetchTargets` builds: month to target, a later row for a month overwriting an earlier one. */
  function TargetMap(rows: seq<IndividualTarget>): (r: map<int, real>)
    ensures forall i :: 0 <= i < |rows| ==> rows[i].month in r
    ensures forall m :: m in r ==> exists i :: 0 <= i < |rows| && rows[i].month == m
  {
    if rows == [] then map[]
    else
      var init := rows[..|rows| - 1];
      var last := rows[|rows| - 1];
      var r := TargetMap(init)[last.month := last.targetGp];
      assert forall i :: 0 <= i < |init| ==> rows[i] == init[i];
      r
  }

  /** Each month holds the target of the last row for that month. */
  lemma {:induction false} LastRowWins(rows: seq<IndividualTarget>, i: int)
    requires 0 <= i < |rows|
    requires forall j :: i < j < |rows| ==> rows[j].month != rows[i].month
    ensures TargetMap(rows)[rows[i].month] == rows[i].targetGp
  {
    if i < |rows| - 1 {
      var init := rows[..|rows| - 1];
      assert init[i] == rows[i];
      LastRowWins(init, i);
    }
  }

  /** Some minimum exists in a non-empty set of integers. */
  lemma {:induction false} MinExists(s: set<int>)
    requires s != {}
    ensures exists k :: k in s && forall j :: j in s ==> k <= j
    decreases |s|
  {
    assert (forall y :: y !in s) ==> s == {};
    var x :| x in s;
    if s != {x} {
      MinExists(s - {x});
      var k :| k in s - {x} && forall j :: j in s - {x} ==> k <= j;
      var least := if x < k then x else k;
      forall j | j in s ensures least <= j {
        if j != x {
          assert j in s - {x};
        }
      }
    } else {
      assert forall j :: j in s ==> x <= j;
    }
  }

  /** `Object.values(targets).reduce((sum, v) => sum + v, 0)`, the entries taken in increasing month order. */
  function SumValues(m: map<int, real>): real
    decreases |m|
  {
    if m == map[] then 0.0
    else
      MinExists(m.Keys);
      var k :| k in m.Keys && forall j :: j in m.Keys ==> k <= j;
      assert |m - {k}| < |m| by {
        assert (m - {k}).Keys == m.Keys - {k};
      }
      m[k] + SumValues(m - {k})
  }

  /** The targets of months `lo` to `hi`, missing months as 0. */
  function RangeSum(m: map<int, real>, lo: int, hi: int): real
    decreases hi - lo
  {
    if lo > hi then 0.0 else RangeSum(m, lo, hi - 1) + TargetOf(m, hi)
  }

  /** A map keyed by months 1..12 sums to the whole year's range. */
  lemma WholeYearSum(m: map<int, real>)
    ensures (forall k :: k in m ==> 1 <= k <= 12) ==> SumValues(m) == RangeSum(m, 1, 12)
  {
    if forall k :: k in m ==> 1 <= k <= 12 {
      SumValuesIsRangeSum(m, 1, 12);
    }
  }

  /** A range splits at any month. */
  lemma {:induction false} RangeSumSplit(m: map<int, real>, lo: int, mid: int, hi: int)
    requires lo - 1 <= mid <= hi
    ensures RangeSum(m, lo, hi) == RangeSum(m, lo, mid) + RangeSum(m, mid + 1, hi)
    decreases hi - mid
  {
    if mid < hi {
      RangeSumSplit(m, lo, mid, hi - 1);
    }
  }

  /** Removing one in-range month's entry lowers the range's sum by that entry. */
  lemma {:induction false} RangeSumRemove(m: map<int, real>, k: int, lo: int, hi: int)
    requires k in m
    ensures RangeSum(m, lo, hi) == RangeSum(m - {k}, lo, hi) + (if lo <= k <= hi then m[k] else 0.0)
    decreases hi - lo
  {
    if lo <= hi {
      RangeSumRemove(m, k, lo, hi - 1);
    }
  }

  /** When every entry's month lies in `lo..hi`, summing the entries sums the range. */
  lemma {:induction false} SumValuesIsRangeSum(m: map<int, real>, lo: int, hi: int)
    requires forall k :: k in m ==> lo <= k <= hi
    ensures SumValues(m) == RangeSum(m, lo, hi)
    decreases |m|
  {
    if m == map[] {
      RangeSumEmpty(lo, hi);
    } else {
      MinExists(m.Keys);
      var k :| k in m.Keys && forall j :: j in m.Keys ==> k <= j;
      assert (m - {k}).Keys == m.Keys - {k};
      SumValuesIsRangeSum(m - {k}, lo, hi);
      RangeSumRemove(m, k, lo, hi);
    }
  }

  lemma {:induction false} RangeSumEmpty(lo: int, hi: int)
    ensures RangeSum(map[], lo, hi) == 0.0
    decreases hi - lo
  {
    if lo <= hi {
      RangeSumEmpty(lo, hi - 1);
    }
  }

  /** The twelve upsert rows, months 1..n, for the person and year. */
  function MonthRows(user: Id, year: int, targets: map<int, real>, n: nat): (rows: seq<IndividualTarget>)
    ensures |rows| == n
    ensures forall i :: 0 <= i < n ==> rows[i] == IndividualTarget(user, year, i + 1, TargetOf(targets, i + 1))
  {
    if n == 0 then [] else MonthRows(user, year, targets, n - 1) + [IndividualTarget(user, year, n, TargetOf(targets, n))]
  }

  /** The editor's state: the person and year selected and the month-to-target map being edited. */
  class TargetsEditor {
    var selectedUser: Id
    var selectedYear: int
    var targets: map<int, real>
    var existingTargets: seq<IndividualTarget>

    constructor (year: int)
      ensures selectedUser == "" && selectedYear == year && targets == map[] && existingTargets == []
    {
      selectedUser := "";
      selectedYear := year;
      targets := map[];
      existingTargets := [];
    }

    /**
     * `fetchTargets`, given what the query for the selected person and year
     * returned: every row writes its month, later rows overwriting; no data
     * clears the map.
     */
    method LoadTargets(data: Option<seq<IndividualTarget>>)
      modifies this
      ensures data.Some? ==> targets == TargetMap(data.value) && existingTargets == data.value
      ensures data.None? ==> targets == map[] && existingTargets == []
      ensures selectedUser == old(selectedUser) && selectedYear == old(selectedYear)
    {
      if data.None? {
        targets := map[];
        existingTargets := [];
        return;
      }
      var rows := data.value;
      existingTargets := rows;
      var targetMap: map<int, real> := map[];
      for i := 0 to |rows|
        invariant targetMap == TargetMap(rows[..i])
      {
        assert rows[..i + 1][..i] == rows[..i];
        targetMap := targetMap[rows[i].month := rows[i].targetGp];
      }
      assert rows[..|rows|] == rows;
      targets := targetMap;
    }

    /**
     * The person picker (`setSelectedUser`): only the selection changes; the
     * targets are then fetched for it through `LoadTargets`.
     */
    method SelectUser(user: Id)
      modifies this
      ensures selectedUser == user && selectedYear == old(selectedYear)
      ensures targets == old(targets) && existingTargets == old(existingTargets)
    {
      selectedUser := user;
    }

    /** The year picker (`setSelectedYear(parseInt(v))`): only the year changes. */
    method SelectYear(year: int)
      modifies this
      ensures selectedYear == year && selectedUser == old(selectedUser)
      ensures targets == old(targets) && existingTargets == old(existingTargets)
    {
      selectedYear := year;
    }

    /** `handleTargetChange`: sets one month; an empty entry is stored as 0. */
    method HandleTargetChange(month: int, value: string, parse: string -> real)
      modifies this
      ensures targets == old(targets)[month := if value == "" then 0.0 else parse(value)]
      ensures forall m :: m != month ==> TargetOf(targets, m) == TargetOf(old(targets), m)
      ensures selectedUser == old(selectedUser) && selectedYear == old(selectedYear)
      ensures existingTargets == old(existingTargets)
    {
      var numValue := if value == "" then 0.0 else parse(value);
      targets := targets[month := numValue];
    }

    /**
     * The rows `handleSaveTargets` upserts: none without a selected person,
     * otherwise twelve, months 1 to 12, missing months as 0.
     */
    function UpsertRows(): (r: Option<seq<IndividualTarget>>)
      reads this
      ensures r.None? <==> selectedUser == ""
      ensures r.Some? ==> (|r.value| == 12
        && forall i :: 0 <= i < 12 ==> r.value[i] == IndividualTarget(selectedUser, selectedYear, i + 1, TargetOf(targets, i + 1)))
    {
      if selectedUser == "" then None else Some(MonthRows(selectedUser, selectedYear, targets, 12))
    }

    /** `getYearlyTotal`: all entries of the map added. */
    function YearlyTotal(): (total: real)
      reads this
      ensures (forall k :: k in targets ==> 1 <= k <= 12) ==> total == RangeSum(targets, 1, 12)
    {
      WholeYearSum(targets);
      SumValues(targets)
    }

    /** `getQuarterlyTotal`: the three months starting at `3(q-1)+1`. */
    function QuarterlyTotal(quarter: int): (total: real)
      reads this
      ensures total == RangeSum(targets, (quarter - 1) * 3 + 1, (quarter - 1) * 3 + 3)
    {
      var start := (quarter - 1) * 3 + 1;
      assert RangeSum(targets, start, start) == TargetOf(targets, start);
      TargetOf(targets, start) + TargetOf(targets, start + 1) + TargetOf(targets, start + 2)
    }

    /** `getHalfYearlyTotal`: months 1-6 for the first half, 7-12 for any other number. */
    method HalfYearlyTotal(half: int) returns (sum: real)
      ensures half == 1 ==> sum == RangeSum(targets, 1, 6)
      ensures half != 1 ==> sum == RangeSum(targets, 7, 12)
    {
      var startMonth := if half == 1 then 1 else 7;
      var endMonth := if half == 1 then 6 else 12;
      sum := 0.0;
      var m := startMonth;
      while m <= endMonth
        invariant startMonth <= m <= endMonth + 1
        invariant sum == RangeSum(targets, startMonth, m - 1)
      {
        sum := sum + TargetOf(targets, m);
        m := m + 1;
      }
    }
  }

  /**
   * With every month in 1..12 the four quarters, the two halves and the
   * yearly total agree.
   */
  lemma TotalsAgree(e: TargetsEditor)
    requires forall k :: k in e.targets ==> 1 <= k <= 12
    ensures e.QuarterlyTotal(1) + e.QuarterlyTotal(2) == RangeSum(e.targets, 1, 6)
    ensures e.QuarterlyTotal(3) + e.QuarterlyTotal(4) == RangeSum(e.targets, 7, 12)
    ensures RangeSum(e.targets, 1, 6) + RangeSum(e.targets, 7, 12) == e.YearlyTotal()
  {
    RangeSumSplit(e.targets, 1, 3, 6);
    RangeSumSplit(e.targets, 7, 9, 12);
    RangeSumSplit(e.targets, 1, 6, 12);
    SumValuesIsRangeSum(e.targets, 1, 12);
  }

  /** Saving and then loading the saved rows gives back every month's target. */
  lemma SaveThenLoad(user: Id, year: int, targets: map<int, real>, m: int)
    requires 1 <= m <= 12
    ensures m in TargetMap(MonthRows(user, year, targets, 12))
    ensures TargetMap(MonthRows(user, year, targets, 12))[m] == TargetOf(targets, m)
  {
    var rows := MonthRows(user, year, targets, 12);
    assert rows[m - 1].month == m;
    LastRowWins(rows, m - 1);
  }
}
