/**
 * The billing-upload processing endpoint: it resolves the CSV columns of a
 * stored upload through alias lists, matches each row's name to a profile,
 * converts the amounts to GBP, sums them per profile and replaces the
 * upload's billing records. Network and database calls are parameters:
 * the exchange-rate lookup is `rate`, the stored rows and tables are values.
 */
module BillingUpload {
  import opened Wrappers
  import opened Seqs
  import opened Text
  import opened Schema

  // ---------------------------------------------------------------------
  // Column resolution

  /** The characters the pattern `[a-z0-9]` accepts. */
  predicate IsLowerAlnum(c: char) {
    IsLower(c) || IsDigit(c)
  }

  /** `s.replace(/[^a-z0-9]/g, '')`: keeps lower-case ASCII letters and digits, in order. */
  function KeepLowerAlnum(s: string): (r: string)
    ensures |r| <= |s|
    ensures forall i :: 0 <= i < |r| ==> IsLowerAlnum(r[i])
    ensures forall i :: 0 <= i < |s| && IsLowerAlnum(s[i]) ==> s[i] in r
    ensures r == Filter(s, IsLowerAlnum)
  {
    if s == [] then []
    else (if IsLowerAlnum(s[0]) then [s[0]] else []) + KeepLowerAlnum(s[1..])
  }

  /** A string made only of kept characters loses none of them. */
  lemma {:induction false} KeepLowerAlnumKeeps(s: string)
    requires forall i :: 0 <= i < |s| ==> IsLowerAlnum(s[i])
    ensures KeepLowerAlnum(s) == s
  {
    if s != [] {
      KeepLowerAlnumKeeps(s[1..]);
    }
  }

  /** `normalizeColumnName`: lower-case, trim, then drop everything but `[a-z0-9]`. */
  function NormalizeColumnName(name: string): (r: string)
    ensures forall i :: 0 <= i < |r| ==> IsLowerAlnum(r[i])
    ensures |r| <= |name|
  {
    KeepLowerAlnum(Trim(ToLower(name)))
  }

  /** Normalising twice is normalising once. */
  lemma NormalizeIdempotent(name: string)
    ensures NormalizeColumnName(NormalizeColumnName(name)) == NormalizeColumnName(name)
  {
    var n := NormalizeColumnName(name);
    assert forall i :: 0 <= i < |n| ==> !IsUpper(n[i]) && !IsSpace(n[i]);
    ToLowerKeeps(n);
    TrimKeeps(n);
    KeepLowerAlnumKeeps(n);
  }

  function NormalizeAll(names: seq<string>): (r: seq<string>)
    ensures |r| == |names|
    ensures forall i :: 0 <= i < |names| ==> r[i] == NormalizeColumnName(names[i])
  {
    if names == [] then [] else [NormalizeColumnName(names[0])] + NormalizeAll(names[1..])
  }

  /** `xs.indexOf(x)`: the first index of `x`, or -1. */
  function IndexOf(xs: seq<string>, x: string): (r: int)
    ensures -1 <= r < |xs|
    ensures r == -1 <==> x !in xs
    ensures r >= 0 ==> xs[r] == x && x !in xs[..r]
  {
    Position(xs, x) - 1
  }

  /**
   * The search `findColumnIndex` performs, over normalised headers and
   * aliases: for each alias in turn, its first position among the headers.
   */
  function FirstHit(headers: seq<string>, aliases: seq<string>): (r: int)
    ensures -1 <= r < |headers|
  {
    if aliases == [] then -1
    else
      var i := IndexOf(headers, aliases[0]);
      if i != -1 then i else FirstHit(headers, aliases[1..])
  }

  /** The search finds nothing exactly when no alias is among the headers. */
  lemma {:induction false} FirstHitMissing(headers: seq<string>, aliases: seq<string>)
    ensures FirstHit(headers, aliases) == -1 <==> forall j :: 0 <= j < |aliases| ==> aliases[j] !in headers
  {
    if aliases != [] {
      FirstHitMissing(headers, aliases[1..]);
      assert forall j :: 1 <= j < |aliases| ==> aliases[j] == aliases[1..][j - 1];
    }
  }

  /**
   * Otherwise it finds the first header equal to the earliest alias that
   * occurs among the headers at all.
   */
  lemma {:induction false} FirstHitEarliest(headers: seq<string>, aliases: seq<string>)
    requires FirstHit(headers, aliases) >= 0
    ensures exists j :: (0 <= j < |aliases|
      && headers[FirstHit(headers, aliases)] == aliases[j]
      && (forall b :: 0 <= b < j ==> aliases[b] !in headers)
      && aliases[j] !in headers[..FirstHit(headers, aliases)])
  {
    var i := IndexOf(headers, aliases[0]);
    if i == -1 {
      FirstHitEarliest(headers, aliases[1..]);
      var j :| 0 <= j < |aliases| - 1
        && headers[FirstHit(headers, aliases[1..])] == aliases[1..][j]
        && (forall b :: 0 <= b < j ==> aliases[1..][b] !in headers)
        && aliases[1..][j] !in headers[..FirstHit(headers, aliases[1..])];
      assert forall b :: 1 <= b < j + 1 ==> aliases[b] == aliases[1..][b - 1];
      assert aliases[j + 1] == aliases[1..][j];
    }
  }

  /** The column `findColumnIndex` resolves for these headers and this alias list. */
  function ColumnIndex(headers: seq<string>, aliases: seq<string>): (r: int)
    ensures -1 <= r < |headers|
  {
    FirstHit(NormalizeAll(headers), NormalizeAll(aliases))
  }

  /** One step of the search: the alias at `j` is found, or the search goes on with the next one. */
  lemma FirstHitStep(headers: seq<string>, aliases: seq<string>, j: nat)
    requires j < |aliases|
    ensures FirstHit(headers, aliases[j..])
      == if IndexOf(headers, aliases[j]) != -1 then IndexOf(headers, aliases[j]) else FirstHit(headers, aliases[j + 1..])
  {
    assert aliases[j..][0] == aliases[j];
    assert aliases[j..][1..] == aliases[j + 1..];
  }

  /** The search step of `findColumnIndex` on the alias at `j`, normalised on the fly. */
  lemma ColumnStep(normalizedHeaders: seq<string>, possibleNames: seq<string>, j: nat)
    requires j < |possibleNames|
    ensures var i := IndexOf(normalizedHeaders, NormalizeColumnName(possibleNames[j]));
      FirstHit(normalizedHeaders, NormalizeAll(possibleNames)[j..])
      == if i != -1 then i else FirstHit(normalizedHeaders, NormalizeAll(possibleNames)[j + 1..])
  {
    FirstHitStep(normalizedHeaders, NormalizeAll(possibleNames), j);
  }

  /** `findColumnIndex`: for each alias in turn, the first header that normalises to it. */
  method FindColumnIndex(headers: seq<string>, possibleNames: seq<string>) returns (index: int)
    ensures index == ColumnIndex(headers, possibleNames)
  {
    var normalizedHeaders := NormalizeAll(headers);
    ghost var normalizedNames := NormalizeAll(possibleNames);
    assert normalizedNames[0..] == normalizedNames;
    var j := 0;
    while j < |possibleNames|
      invariant 0 <= j <= |possibleNames|
      invariant ColumnIndex(headers, possibleNames) == FirstHit(normalizedHeaders, normalizedNames[j..])
    {
      var normalizedName := NormalizeColumnName(possibleNames[j]);
      var i := IndexOf(normalizedHeaders, normalizedName);
      ColumnStep(normalizedHeaders, possibleNames, j);
      if i != -1 {
        return i;
      }
      j := j + 1;
    }
    assert normalizedNames[j..] == [];
    return -1;
  }

  const NameAliases: seq<string> := ["name", "employee", "person", "worker", "salesperson"]
  const RevenueAliases: seq<string> := ["revenue", "rev"]
  const GpAliases: seq<string> := ["gp", "grosspro fit", "gross"]
  const NpAliases: seq<string> := ["np", "netprofit", "net"]
  const CurrencyAliases: seq<string> := ["currency", "curr", "ccy"]

  // ---------------------------------------------------------------------
  // Rows

  /** One parsed CSV row: its (header, text) entries in column order. */
  type Row = seq<(string, string)>

  /** `Object.keys(row)`. */
  function Keys(row: Row): (r: seq<string>)
    ensures |r| == |row|
    ensures forall i :: 0 <= i < |row| ==> r[i] == row[i].0
  {
    if row == [] then [] else [row[0].0] + Keys(row[1..])
  }

  /** `Object.values(row)`. */
  function Values(row: Row): (r: seq<string>)
    ensures |r| == |row|
    ensures forall i :: 0 <= i < |row| ==> r[i] == row[i].1
  {
    if row == [] then [] else [row[0].1] + Values(row[1..])
  }

  /** `rowValues[i] || ''`: a missing cell (no such column, or -1) reads as empty. */
  function Cell(row: Row, i: int): string {
    if 0 <= i < |row| then row[i].1 else ""
  }

  /** The resolved column of each logical field (-1 when absent). */
  datatype Columns = Columns(name: int, revenue: int, gp: int, np: int, currency: int)

  /** The `id, name` of a profile the rows are matched against. */
  datatype NamedProfile = NamedProfile(id: Id, name: string)

  /** A profile name and a row name match when either contains the other, ignoring case. */
  predicate NamesMatch(profileName: string, rowName: string) {
    Includes(ToLower(profileName), ToLower(rowName)) || Includes(ToLower(rowName), ToLower(profileName))
  }

  /** `profiles.find(...)`: the first profile whose name matches, by position. */
  function FindProfile(profiles: seq<NamedProfile>, rowName: string): (r: Option<nat>)
    ensures r.None? <==> forall k :: 0 <= k < |profiles| ==> !NamesMatch(profiles[k].name, rowName)
    ensures r.Some? ==> (r.value < |profiles| && NamesMatch(profiles[r.value].name, rowName)
      && forall k :: 0 <= k < r.value ==> !NamesMatch(profiles[k].name, rowName))
  {
    var i := FirstIndex(profiles, (p: NamedProfile) => NamesMatch(p.name, rowName));
    if i == -1 then None else Some(i)
  }

  /** Matching is symmetric: it does not matter which name contains the other. */
  lemma NamesMatchSymmetric(a: string, b: string)
    ensures NamesMatch(a, b) <==> NamesMatch(b, a)
  {
  }

  /** Matching ignores case: lower-casing either name first changes nothing. */
  lemma NamesMatchIgnoresCase(profileName: string, rowName: string)
    ensures NamesMatch(ToLower(profileName), rowName) <==> NamesMatch(profileName, rowName)
    ensures NamesMatch(profileName, ToLower(rowName)) <==> NamesMatch(profileName, rowName)
  {
    ToLowerKeeps(ToLower(profileName));
    ToLowerKeeps(ToLower(rowName));
  }

  /** `String(rowValues[nameIndex] || '').trim()`. */
  function RowName(row: Row, cols: Columns): (r: string)
    ensures r == [] || (!IsSpace(r[0]) && !IsSpace(r[|r| - 1]))
    ensures !(0 <= cols.name < |row|) ==> r == ""
    ensures 0 <= cols.name < |row| ==> r == Trim(row[cols.name].1)
  {
    Trim(Cell(row, cols.name))
  }

  /**
   * The row's currency code: "GBP" when there is no currency column or the
   * cell is empty, otherwise the cell trimmed and upper-cased.
   */
  function RowCurrency(row: Row, cols: Columns): (r: string)
    ensures cols.currency == -1 ==> r == "GBP"
    ensures cols.currency != -1 && (!(0 <= cols.currency < |row|) || row[cols.currency].1 == "") ==> r == "GBP"
    ensures 0 <= cols.currency < |row| && row[cols.currency].1 != "" ==> r == ToUpper(Trim(row[cols.currency].1))
  {
    GbpIsNormal();
    if cols.currency != -1 then
      var c := Cell(row, cols.currency);
      ToUpper(Trim(if c == "" then "GBP" else c))
    else "GBP"
  }

  /** "GBP" is already trimmed and upper-case. */
  lemma GbpIsNormal()
    ensures ToUpper(Trim("GBP")) == "GBP"
  {
    TrimKeeps("GBP");
    var u := ToUpper("GBP");
    assert u[0] == 'G' && u[1] == 'B' && u[2] == 'P';
  }

  /** The currency code is upper-cased, whatever case the cell used. */
  lemma RowCurrencyUpperCase(row: Row, cols: Columns)
    ensures forall i :: 0 <= i < |RowCurrency(row, cols)| ==> !IsLower(RowCurrency(row, cols)[i])
  {
  }

  /**
   * `parseFloat(String(rowValues[i] || 0))`; an absent column or an empty
   * cell gives 0. `parse` stands for `parseFloat` on a non-empty text.
   */
  function RowAmount(row: Row, i: int, parse: string -> real): (r: real)
    ensures !(0 <= i < |row|) || row[i].1 == "" ==> r == 0.0
    ensures 0 <= i < |row| && row[i].1 != "" ==> r == parse(row[i].1)
  {
    if i != -1 then
      var c := Cell(row, i);
      if c == "" then 0.0 else parse(c)
    else 0.0
  }

  /**
   * `convertToGBP`: GBP is returned unchanged without a lookup; any other
   * currency is multiplied by the looked-up rate, and a failed lookup fails.
   */
  function ConvertToGbp(amount: real, currency: string, rate: string -> Option<real>): (r: Option<real>)
    ensures currency == "GBP" ==> r == Some(amount)
    ensures currency != "GBP" ==> (r.None? <==> rate(currency).None?)
    ensures currency != "GBP" && rate(currency).Some? ==> r.Some? && r.value == amount * rate(currency).value
  {
    if currency == "GBP" then Some(amount)
    else
      var looked := rate(currency);
      if looked.None? then None else Some(amount * looked.value)
  }

  datatype Totals = Totals(revenue: real, gp: real, np: real)

  const NoTotals := Totals(0.0, 0.0, 0.0)

  function Plus(a: Totals, b: Totals): Totals {
    Totals(a.revenue + b.revenue, a.gp + b.gp, a.np + b.np)
  }

  lemma PlusAssoc(a: Totals, b: Totals, c: Totals)
    ensures Plus(Plus(a, b), c) == Plus(a, Plus(b, c))
  {
  }

  /** What one row does: nothing, a credit to a profile, or a failed rate lookup. */
  datatype RowOutcome = Skipped | Credited(id: Id, amounts: Totals) | RateFailed(currency: string)

  /** The context every row is read in. */
  datatype Context = Context(
    cols: Columns,
    profiles: seq<NamedProfile>,
    parse: string -> real,
    rate: string -> Option<real>)

  /** The body of the row loop, as a value. */
  function ProcessRow(row: Row, ctx: Context): RowOutcome {
    var name := RowName(row, ctx.cols);
    if name == "" then Skipped
    else
      match FindProfile(ctx.profiles, name)
      case None => Skipped
      case Some(k) =>
        var currency := RowCurrency(row, ctx.cols);
        var revenue := ConvertToGbp(RowAmount(row, ctx.cols.revenue, ctx.parse), currency, ctx.rate);
        var gp := ConvertToGbp(RowAmount(row, ctx.cols.gp, ctx.parse), currency, ctx.rate);
        var np := ConvertToGbp(RowAmount(row, ctx.cols.np, ctx.parse), currency, ctx.rate);
        if revenue.None? || gp.None? || np.None? then RateFailed(currency)
        else Credited(ctx.profiles[k].id, Totals(revenue.value, gp.value, np.value))
  }

  /**
   * A row that is not skipped has a name matching some profile; a row that
   * fails does so on a currency other than GBP whose rate cannot be fetched.
   */
  lemma ProcessRowOutcome(row: Row, ctx: Context)
    ensures ProcessRow(row, ctx) != Skipped ==>
      RowName(row, ctx.cols) != "" && FindProfile(ctx.profiles, RowName(row, ctx.cols)).Some?
    ensures ProcessRow(row, ctx).RateFailed? ==>
      var c := ProcessRow(row, ctx).currency;
      c == RowCurrency(row, ctx.cols) && c != "GBP" && ctx.rate(c).None?
  {
  }

  /** A row with an empty name, or whose name matches no profile, credits nobody. */
  lemma UnmatchedRowSkipped(row: Row, ctx: Context)
    requires RowName(row, ctx.cols) == ""
      || forall k :: 0 <= k < |ctx.profiles| ==> !NamesMatch(ctx.profiles[k].name, RowName(row, ctx.cols))
    ensures ProcessRow(row, ctx) == Skipped
  {
  }

  /** A credited row goes to the first profile whose name matches the row's name. */
  lemma CreditGoesToFirstMatch(row: Row, ctx: Context)
    requires ProcessRow(row, ctx).Credited?
    ensures exists k :: (0 <= k < |ctx.profiles|
      && ctx.profiles[k].id == ProcessRow(row, ctx).id
      && NamesMatch(ctx.profiles[k].name, RowName(row, ctx.cols))
      && forall j :: 0 <= j < k ==> !NamesMatch(ctx.profiles[j].name, RowName(row, ctx.cols)))
  {
    var k := FindProfile(ctx.profiles, RowName(row, ctx.cols)).value;
    assert ctx.profiles[k].id == ProcessRow(row, ctx).id;
  }

  /**
   * Without a currency column, or with "GBP" in it, a matched row is summed
   * unchanged: its parsed amounts, no rate lookup.
   */
  lemma GbpRowUnchanged(row: Row, ctx: Context)
    requires RowCurrency(row, ctx.cols) == "GBP"
    requires RowName(row, ctx.cols) != ""
    requires FindProfile(ctx.profiles, RowName(row, ctx.cols)).Some?
    ensures ProcessRow(row, ctx) == Credited(
      ctx.profiles[FindProfile(ctx.profiles, RowName(row, ctx.cols)).value].id,
      Totals(RowAmount(row, ctx.cols.revenue, ctx.parse),
             RowAmount(row, ctx.cols.gp, ctx.parse),
             RowAmount(row, ctx.cols.np, ctx.parse)))
  {
  }

  lemma NoCurrencyColumnIsGbp(row: Row, ctx: Context)
    requires ctx.cols.currency == -1
    ensures RowCurrency(row, ctx.cols) == "GBP"
  {
  }

  // ---------------------------------------------------------------------
  // Aggregation

  /** The `aggregated` map: totals per profile id, and the ids in insertion order. */
  datatype Aggregate = Aggregate(order: seq<Id>, totals: map<Id, Totals>)

  /** Each id is listed once, and the listed ids are exactly the map's keys. */
  ghost predicate Consistent(agg: Aggregate) {
    Distinct(agg.order)
    && (forall id :: id in agg.order ==> id in agg.totals)
    && (forall id :: id in agg.totals ==> id in agg.order)
  }

  function TotalsOf(agg: Aggregate, id: Id): Totals {
    if id in agg.totals then agg.totals[id] else NoTotals
  }

  /** One credit: a new id starts at zero, then the amounts are added (never overwritten). */
  function Credit(agg: Aggregate, id: Id, amounts: Totals): (r: Aggregate)
    ensures id in r.totals
    ensures TotalsOf(r, id) == Plus(TotalsOf(agg, id), amounts)
    ensures forall other :: other != id ==> TotalsOf(r, other) == TotalsOf(agg, other)
    ensures Consistent(agg) ==> Consistent(r)
  {
    var order := if id in agg.totals then agg.order else agg.order + [id];
    var before := if id in agg.totals then agg.totals[id] else NoTotals;
    Aggregate(order, agg.totals[id := Plus(before, amounts)])
  }

  /** `Credit` written as the row loop performs it: field by field on the running totals. */
  lemma CreditInPlace(order: seq<Id>, totals: map<Id, Totals>, id: Id, amounts: Totals, existing: Totals)
    requires existing == if id in totals then totals[id] else NoTotals
    ensures Credit(Aggregate(order, totals), id, amounts) == Aggregate(
      if id in totals then order else order + [id],
      totals[id := Totals(existing.revenue + amounts.revenue, existing.gp + amounts.gp, existing.np + amounts.np)])
  {
  }

  /** The loop from a given state: credits are applied in row order; a failed lookup aborts. */
  function Fold(agg: Aggregate, outcomes: seq<RowOutcome>): Result
    decreases |outcomes|
  {
    if outcomes == [] then Done(agg)
    else
      match outcomes[0]
      case Skipped => Fold(agg, outcomes[1..])
      case RateFailed(c) => Failed(c)
      case Credited(id, amounts) => Fold(Credit(agg, id, amounts), outcomes[1..])
  }

  lemma FoldCons(agg: Aggregate, outcome: RowOutcome, rest: seq<RowOutcome>)
    ensures outcome.Skipped? ==> Fold(agg, [outcome] + rest) == Fold(agg, rest)
    ensures outcome.RateFailed? ==> Fold(agg, [outcome] + rest) == Failed(outcome.currency)
    ensures outcome.Credited? ==>
      Fold(agg, [outcome] + rest) == Fold(Credit(agg, outcome.id, outcome.amounts), rest)
  {
    assert ([outcome] + rest)[1..] == rest;
  }

  datatype Result = Done(agg: Aggregate) | Failed(currency: string)

  function Outcomes(rows: seq<Row>, ctx: Context): (r: seq<RowOutcome>)
    ensures |r| == |rows|
    ensures forall i :: 0 <= i < |rows| ==> r[i] == ProcessRow(rows[i], ctx)
  {
    if rows == [] then [] else [ProcessRow(rows[0], ctx)] + Outcomes(rows[1..], ctx)
  }

  /** The aggregation of a whole upload. */
  function Aggregated(rows: seq<Row>, ctx: Context): Result {
    Fold(Aggregate([], map[]), Outcomes(rows, ctx))
  }

  /** The amounts credited to `id` by a list of row outcomes. */
  function CreditedTo(outcomes: seq<RowOutcome>, id: Id): Totals {
    if outcomes == [] then NoTotals
    else
      var rest := CreditedTo(outcomes[1..], id);
      match outcomes[0]
      case Credited(x, amounts) => if x == id then Plus(amounts, rest) else rest
      case _ => rest
  }

  /** Some row outcome credits `id`. */
  predicate CreditsId(outcomes: seq<RowOutcome>, id: Id) {
    exists i :: 0 <= i < |outcomes| && outcomes[i].Credited? && outcomes[i].id == id
  }

  /**
   * The aggregation sums: each id's totals are what it had plus everything the
   * rows credit to it; it fails exactly when some row's rate lookup fails
   * before the end; it keeps the map and the insertion order consistent.
   */
  lemma {:induction false} FoldSums(agg: Aggregate, outcomes: seq<RowOutcome>, id: Id)
    requires Fold(agg, outcomes).Done?
    ensures TotalsOf(Fold(agg, outcomes).agg, id) == Plus(TotalsOf(agg, id), CreditedTo(outcomes, id))
    decreases |outcomes|
  {
    if outcomes != [] {
      var rest := outcomes[1..];
      match outcomes[0]
      case Skipped =>
        FoldSums(agg, rest, id);
        assert Fold(agg, outcomes) == Fold(agg, rest);
        assert CreditedTo(outcomes, id) == CreditedTo(rest, id);
      case Credited(x, amounts) =>
        var next := Credit(agg, x, amounts);
        FoldSums(next, rest, id);
        assert Fold(agg, outcomes) == Fold(next, rest);
        if x == id {
          assert CreditedTo(outcomes, id) == Plus(amounts, CreditedTo(rest, id));
          PlusAssoc(TotalsOf(agg, id), amounts, CreditedTo(rest, id));
        } else {
          assert CreditedTo(outcomes, id) == CreditedTo(rest, id);
        }
    }
  }

  lemma {:induction false} FoldKeys(agg: Aggregate, outcomes: seq<RowOutcome>)
    requires Fold(agg, outcomes).Done?
    requires Consistent(agg)
    ensures Consistent(Fold(agg, outcomes).agg)
    ensures forall id :: id in Fold(agg, outcomes).agg.totals <==> id in agg.totals || CreditsId(outcomes, id)
    decreases |outcomes|
  {
    if outcomes != [] {
      var next := match outcomes[0] case Credited(x, amounts) => Credit(agg, x, amounts) case _ => agg;
      FoldKeys(next, outcomes[1..]);
      forall id ensures CreditsId(outcomes, id) <==> (outcomes[0].Credited? && outcomes[0].id == id) || CreditsId(outcomes[1..], id) {
        CreditsIdCons(outcomes, id);
      }
    }
  }

  /** A non-empty list of outcomes credits `id` through its head or its tail. */
  lemma CreditsIdCons(outcomes: seq<RowOutcome>, id: Id)
    requires outcomes != []
    ensures CreditsId(outcomes, id) <==> (outcomes[0].Credited? && outcomes[0].id == id) || CreditsId(outcomes[1..], id)
  {
    if CreditsId(outcomes, id) && !(outcomes[0].Credited? && outcomes[0].id == id) {
      var i :| 0 <= i < |outcomes| && outcomes[i].Credited? && outcomes[i].id == id;
      assert outcomes[1..][i - 1] == outcomes[i];
    }
    if CreditsId(outcomes[1..], id) {
      var i :| 0 <= i < |outcomes| - 1 && outcomes[1..][i].Credited? && outcomes[1..][i].id == id;
      assert outcomes[i + 1] == outcomes[1..][i];
    }
  }

  lemma {:induction false} FoldFails(agg: Aggregate, outcomes: seq<RowOutcome>)
    ensures Fold(agg, outcomes).Failed? <==> exists i :: 0 <= i < |outcomes| && outcomes[i].RateFailed?
    decreases |outcomes|
  {
    if outcomes != [] {
      var next := match outcomes[0] case Credited(x, amounts) => Credit(agg, x, amounts) case _ => agg;
      FoldFails(next, outcomes[1..]);
      if exists i :: 0 <= i < |outcomes| - 1 && outcomes[1..][i].RateFailed? {
        var i :| 0 <= i < |outcomes| - 1 && outcomes[1..][i].RateFailed?;
        assert outcomes[i + 1].RateFailed?;
      }
      if exists i :: 0 <= i < |outcomes| && outcomes[i].RateFailed? {
        var i :| 0 <= i < |outcomes| && outcomes[i].RateFailed?;
        if i > 0 { assert outcomes[1..][i - 1].RateFailed?; }
      }
    }
  }

  /**
   * The properties of a whole upload's aggregation: every matched profile's
   * revenue, GP and NP are the sums over the rows credited to it, the keys are
   * exactly the credited ids, each listed once in first-credit order, and it
   * fails exactly when some matched row's rate lookup fails.
   */
  lemma AggregatedProperties(rows: seq<Row>, ctx: Context)
    ensures Aggregated(rows, ctx).Failed? <==>
      exists i :: 0 <= i < |rows| && ProcessRow(rows[i], ctx).RateFailed?
    ensures Aggregated(rows, ctx).Done? ==>
      var agg := Aggregated(rows, ctx).agg;
      && Consistent(agg)
      && (forall id :: id in agg.totals <==> CreditsId(Outcomes(rows, ctx), id))
      && (forall id :: id in agg.totals ==> agg.totals[id] == CreditedTo(Outcomes(rows, ctx), id))
  {
    var outs := Outcomes(rows, ctx);
    var empty := Aggregate([], map[]);
    FoldFails(empty, outs);
    if Fold(empty, outs).Done? {
      FoldKeys(empty, outs);
      var agg := Fold(empty, outs).agg;
      forall id | id in agg.totals ensures agg.totals[id] == CreditedTo(outs, id) {
        FoldSums(empty, outs, id);
      }
    }
  }

  /**
   * The body of the row loop: skip a row whose name is empty or matches no
   * profile, otherwise convert its three amounts to GBP one after the other.
   */
  method ReadRow(row: Row, ctx: Context) returns (outcome: RowOutcome)
    ensures outcome == ProcessRow(row, ctx)
  {
    var nameValue := RowName(row, ctx.cols);
    if nameValue == "" {
      return Skipped;
    }
    var profile := FindProfile(ctx.profiles, nameValue);
    if profile.None? {
      return Skipped;
    }
    var currency := RowCurrency(row, ctx.cols);
    var revenue := RowAmount(row, ctx.cols.revenue, ctx.parse);
    var gp := RowAmount(row, ctx.cols.gp, ctx.parse);
    var np := RowAmount(row, ctx.cols.np, ctx.parse);
    var revenueGbp := ConvertToGbp(revenue, currency, ctx.rate);
    if revenueGbp.None? {
      return RateFailed(currency);
    }
    var gpGbp := ConvertToGbp(gp, currency, ctx.rate);
    if gpGbp.None? {
      return RateFailed(currency);
    }
    var npGbp := ConvertToGbp(np, currency, ctx.rate);
    if npGbp.None? {
      return RateFailed(currency);
    }
    return Credited(ctx.profiles[profile.value].id, Totals(revenueGbp.value, gpGbp.value, npGbp.value));
  }

  /**
   * The row loop of the endpoint: each credited row adds its amounts to the
   * profile's running totals (a new profile starts at zero and joins the
   * insertion order); a failed rate lookup aborts the whole upload.
   */
  method AggregateRows(rows: seq<Row>, ctx: Context) returns (result: Result)
    ensures result == Aggregated(rows, ctx)
  {
    var order: seq<Id> := [];
    var totals: map<Id, Totals> := map[];
    var i := 0;
    while i < |rows|
      invariant 0 <= i <= |rows|
      invariant Fold(Aggregate(order, totals), Outcomes(rows[i..], ctx)) == Aggregated(rows, ctx)
    {
      assert rows[i..][1..] == rows[i + 1..];
      assert Outcomes(rows[i..], ctx) == [ProcessRow(rows[i], ctx)] + Outcomes(rows[i + 1..], ctx);
      ghost var before := Aggregate(order, totals);
      var outcome := ReadRow(rows[i], ctx);
      FoldCons(before, outcome, Outcomes(rows[i + 1..], ctx));
      i := i + 1;
      match outcome
      case Skipped =>
      case RateFailed(currency) =>
        return Failed(currency);
      case Credited(key, amounts) =>
        var existing := if key in totals then totals[key] else NoTotals;
        CreditInPlace(order, totals, key, amounts, existing);
        if key !in totals {
          order := order + [key];
        }
        totals := totals[key := Totals(existing.revenue + amounts.revenue, existing.gp + amounts.gp, existing.np + amounts.np)];
    }
    return Done(Aggregate(order, totals));
  }

  // ---------------------------------------------------------------------
  // Records and the endpoint

  /** A row of `billing_records`. */
  datatype BillingRecord = BillingRecord(
    userId: Id, month: int, year: int,
    revenueGbp: real, gpGbp: real, npGbp: real,
    uploadId: Option<Id>)

  /** One record per aggregated profile, in insertion order, stamped with the upload's month, year and id. */
  function BuildRecords(agg: Aggregate, month: int, year: int, uploadId: Id): (rs: seq<BillingRecord>)
    requires forall id :: id in agg.order ==> id in agg.totals
    ensures |rs| == |agg.order|
    ensures forall i :: 0 <= i < |rs| ==>
      && rs[i].userId == agg.order[i]
      && rs[i].month == month && rs[i].year == year && rs[i].uploadId == Some(uploadId)
      && Totals(rs[i].revenueGbp, rs[i].gpGbp, rs[i].npGbp) == agg.totals[agg.order[i]]
    decreases |agg.order|
  {
    if agg.order == [] then []
    else
      var id := agg.order[0];
      var t := agg.totals[id];
      [BillingRecord(id, month, year, t.revenue, t.gp, t.np, Some(uploadId))]
        + BuildRecords(Aggregate(agg.order[1..], agg.totals), month, year, uploadId)
  }

  /** The request's authorization header and JSON body fields (absent fields are `None`). */
  datatype Request = Request(
    authorization: Option<string>,
    uploadId: Option<string>,
    month: Option<int>,
    year: Option<int>)

  /** A stored upload's `file_data`: an array of rows, or any other JSON value. */
  datatype FileData = RowArray(rows: seq<Row>) | NotAnArray

  /** What the endpoint sees of the backend. */
  datatype Backend = Backend(
    verifyToken: string -> Option<Id>,     // auth.getUser(token): the caller, or None on error
    roleOf: Id -> Option<RoleType>,        // the caller's profile role, or None when it cannot be read
    uploads: map<Id, FileData>,            // billing_uploads.file_data by id
    profiles: seq<NamedProfile>,           // profiles (id, name)
    records: seq<BillingRecord>,           // billing_records
    deleteFails: bool,
    insertFails: bool,
    parse: string -> real,
    rate: string -> Option<real>)

  /** The endpoint's outcomes; `Status` gives the HTTP status of each. */
  datatype Outcome =
    | MissingAuthorization
    | InvalidToken
    | RoleUnverified
    | Forbidden
    | MissingParameters
    | UploadNotFound
    | InvalidCsv
    | NoNameColumn
    | RateLookupFailed(currency: string)
    | InsertFailed
    | Processed(recordsProcessed: nat)

  function Status(o: Outcome): (s: int)
    ensures s == 401 <==> o == MissingAuthorization || o == InvalidToken
    ensures s == 403 <==> o == RoleUnverified || o == Forbidden
    ensures s == 200 <==> o.Processed?
    ensures s != 401 && s != 403 && s != 200 <==> s == 400
  {
    match o
    case MissingAuthorization => 401
    case InvalidToken => 401
    case RoleUnverified => 403
    case Forbidden => 403
    case Processed(_) => 200
    case _ => 400
  }

  /** `authHeader.replace('Bearer ', '')`: the first occurrence of the prefix is removed. */
  function RemoveFirst(s: string, pattern: string): (r: string)
    requires pattern != ""
    ensures StartsWith(s, pattern) ==> r == s[|pattern|..]
    ensures !Includes(s, pattern) ==> r == s
    decreases |s|
  {
    if StartsWith(s, pattern) then s[|pattern|..]
    else if s == [] then []
    else
      assert !Includes(s, pattern) ==> !Includes(s[1..], pattern) by {
        if Includes(s[1..], pattern) {
          var i :| OccursAt(s[1..], pattern, i);
          assert s[i + 1..i + 1 + |pattern|] == s[1..][i..i + |pattern|];
          assert OccursAt(s, pattern, i + 1);
        }
      }
      [s[0]] + RemoveFirst(s[1..], pattern)
  }

  /** A JavaScript-falsy parameter: missing, empty text or zero. */
  predicate MissingText(x: Option<string>) { x.None? || x.value == "" }

  predicate MissingNumber(x: Option<int>) { x.None? || x.value == 0 }

  /** The records of `table` that belong to another upload (`delete().eq('upload_id', id)`). */
  function WithoutUpload(table: seq<BillingRecord>, uploadId: Id): seq<BillingRecord> {
    if table == [] then []
    else if table[0].uploadId != Some(uploadId) then [table[0]] + WithoutUpload(table[1..], uploadId)
    else WithoutUpload(table[1..], uploadId)
  }

  /** The records of `table` that belong to the upload. */
  function OfUpload(table: seq<BillingRecord>, uploadId: Id): seq<BillingRecord> {
    if table == [] then []
    else if table[0].uploadId == Some(uploadId) then [table[0]] + OfUpload(table[1..], uploadId)
    else OfUpload(table[1..], uploadId)
  }

  /** The ordered alias lists of the five logical columns. */
  datatype AliasLists = AliasLists(
    name: seq<string>, revenue: seq<string>, gp: seq<string>, np: seq<string>, currency: seq<string>)

  /** The alias lists the endpoint uses. */
  const StandardAliases := AliasLists(NameAliases, RevenueAliases, GpAliases, NpAliases, CurrencyAliases)

  /** The five logical columns, each through its alias list. */
  function ResolveColumns(headers: seq<string>, aliases: AliasLists): (cols: Columns)
    ensures cols.name == ColumnIndex(headers, aliases.name)
    ensures cols.revenue == ColumnIndex(headers, aliases.revenue)
    ensures cols.gp == ColumnIndex(headers, aliases.gp)
    ensures cols.np == ColumnIndex(headers, aliases.np)
    ensures cols.currency == ColumnIndex(headers, aliases.currency)
  {
    Columns(
      ColumnIndex(headers, aliases.name),
      ColumnIndex(headers, aliases.revenue),
      ColumnIndex(headers, aliases.gp),
      ColumnIndex(headers, aliases.np),
      ColumnIndex(headers, aliases.currency))
  }

  /**
   * Wherever the first occurrence of the pattern lies, it is that occurrence
   * that is cut out, and the text on both sides of it is kept.
   */
  lemma {:induction false} RemoveFirstOccurrence(s: string, pattern: string, i: nat)
    requires pattern != ""
    requires OccursAt(s, pattern, i)
    requires forall j :: 0 <= j < i ==> !OccursAt(s, pattern, j)
    ensures RemoveFirst(s, pattern) == s[..i] + s[i + |pattern|..]
    decreases i
  {
    if i == 0 {
      assert StartsWith(s, pattern);
      assert s[..0] == [];
    } else {
      var t := s[1..];
      assert !StartsWith(s, pattern) by {
        assert !OccursAt(s, pattern, 0);
      }
      forall j | 0 <= j < i - 1 ensures !OccursAt(t, pattern, j) {
        OccursShift(s, pattern, j);
      }
      OccursShift(s, pattern, i - 1);
      RemoveFirstOccurrence(t, pattern, i - 1);
      var front, back := t[..i - 1], s[i + |pattern|..];
      assert RemoveFirst(s, pattern) == [s[0]] + RemoveFirst(t, pattern);
      assert RemoveFirst(t, pattern) == front + back by {
        assert t[i - 1 + |pattern|..] == back;
      }
      assert s[..i] == [s[0]] + front;
      ConcatAssoc([s[0]], front, back);
    }
  }

  /** An occurrence in the tail is an occurrence in the whole, one place later. */
  lemma OccursShift(s: string, pattern: string, j: nat)
    requires s != []
    ensures OccursAt(s[1..], pattern, j) <==> OccursAt(s, pattern, j + 1)
  {
    if j + 1 <= |s| - |pattern| {
      assert s[1..][j..j + |pattern|] == s[j + 1..j + 1 + |pattern|];
    }
  }

  /** The token: the header with its first `Bearer ` removed. */
  function Token(authorization: string): string {
    RemoveFirst(authorization, "Bearer ")
  }

  /** The authenticated caller, if the header is present and non-empty and its token verifies. */
  function Caller(req: Request, db: Backend): Option<Id> {
    if MissingText(req.authorization) then None else db.verifyToken(Token(req.authorization.value))
  }

  /** The caller is authenticated and their profile's role is Admin, Manager or CEO. */
  predicate Authorised(req: Request, db: Backend) {
    Caller(req, db).Some? && db.roleOf(Caller(req, db).value).Some?
    && IsManagerRole(db.roleOf(Caller(req, db).value).value)
  }

  predicate HasParameters(req: Request) {
    !MissingText(req.uploadId) && !MissingNumber(req.month) && !MissingNumber(req.year)
  }

  /**
   * The endpoint as a function of its request, the backend and the alias
   * lists: the outcome and the `billing_records` table afterwards.
   */
  function Handle(req: Request, db: Backend, aliases: AliasLists): (res: (Outcome, seq<BillingRecord>))
    ensures res.0.MissingAuthorization? <==> MissingText(req.authorization)
    ensures !res.0.InsertFailed? && !res.0.Processed? ==> res.1 == db.records
  {
    if MissingText(req.authorization) then (MissingAuthorization, db.records)
    else
      match db.verifyToken(Token(req.authorization.value))
      case None => (InvalidToken, db.records)
      case Some(caller) =>
        match db.roleOf(caller)
        case None => (RoleUnverified, db.records)
        case Some(role) =>
          if !IsManagerRole(role) then (Forbidden, db.records)
          else if !HasParameters(req) then (MissingParameters, db.records)
          else
            var uploadId := req.uploadId.value;
            if uploadId !in db.uploads then (UploadNotFound, db.records)
            else
              match db.uploads[uploadId]
              case NotAnArray => (InvalidCsv, db.records)
              case RowArray(rows) => Ingest(rows, req.month.value, req.year.value, uploadId, db, aliases)
  }

  /** The reading context of an upload's rows: columns resolved from the first row's keys. */
  function RowContext(rows: seq<Row>, db: Backend, aliases: AliasLists): Context
    requires rows != []
  {
    Context(ResolveColumns(Keys(rows[0]), aliases), db.profiles, db.parse, db.rate)
  }

  /** The table after replacing an upload's records: old ones deleted unless the delete failed, new ones appended. */
  function Replaced(table: seq<BillingRecord>, uploadId: Id, records: seq<BillingRecord>, deleteFails: bool): seq<BillingRecord> {
    (if deleteFails then table else WithoutUpload(table, uploadId)) + records
  }

  /**
   * From a stored upload's rows to the new `billing_records` table: an empty
   * array or a missing name column is rejected, a failed rate lookup aborts
   * before any write, otherwise the upload's old records are deleted (a
   * failed delete is only logged) and the aggregated records inserted.
   */
  function Ingest(rows: seq<Row>, month: int, year: int, uploadId: Id, db: Backend, aliases: AliasLists): (res: (Outcome, seq<BillingRecord>))
    ensures !res.0.InsertFailed? && !res.0.Processed? ==> res.1 == db.records
    ensures res.0 in {InvalidCsv, NoNameColumn, InsertFailed} || res.0.RateLookupFailed? || res.0.Processed?
  {
    if rows == [] then (InvalidCsv, db.records)
    else
      var ctx := RowContext(rows, db, aliases);
      if ctx.cols.name == -1 then (NoNameColumn, db.records)
      else
        match Aggregated(rows, ctx)
        case Failed(c) => (RateLookupFailed(c), db.records)
        case Done(agg) =>
          AggregatedConsistent(rows, ctx);
          var records := BuildRecords(agg, month, year, uploadId);
          if db.insertFails then (InsertFailed, if db.deleteFails then db.records else WithoutUpload(db.records, uploadId))
          else (Processed(|records|), Replaced(db.records, uploadId, records, db.deleteFails))
  }

  lemma AggregatedConsistent(rows: seq<Row>, ctx: Context)
    ensures Aggregated(rows, ctx).Done? ==> Consistent(Aggregated(rows, ctx).agg)
  {
    AggregatedProperties(rows, ctx);
  }

  /**
   * The endpoint: the caller checks in order, then the parameters, the
   * upload, the column resolution, the row loop, and the delete and insert.
   */
  method ProcessBillingUpload(req: Request, db: Backend, aliases: AliasLists)
    returns (outcome: Outcome, table: seq<BillingRecord>)
    ensures (outcome, table) == Handle(req, db, aliases)
  {
    table := db.records;
    if MissingText(req.authorization) {
      return MissingAuthorization, table;
    }
    var token := Token(req.authorization.value);
    var caller := db.verifyToken(token);
    if caller.None? {
      return InvalidToken, table;
    }
    var role := db.roleOf(caller.value);
    if role.None? {
      return RoleUnverified, table;
    }
    if !IsManagerRole(role.value) {
      return Forbidden, table;
    }
    if !HasParameters(req) {
      return MissingParameters, table;
    }
    var uploadId, month, year := req.uploadId.value, req.month.value, req.year.value;
    if uploadId !in db.uploads {
      return UploadNotFound, table;
    }
    var fileData := db.uploads[uploadId];
    if fileData.NotAnArray? || fileData.rows == [] {
      return InvalidCsv, table;
    }
    var rows := fileData.rows;
    var headers := Keys(rows[0]);
    var nameIndex := FindColumnIndex(headers, aliases.name);
    var revenueIndex := FindColumnIndex(headers, aliases.revenue);
    var gpIndex := FindColumnIndex(headers, aliases.gp);
    var npIndex := FindColumnIndex(headers, aliases.np);
    var currencyIndex := FindColumnIndex(headers, aliases.currency);
    if nameIndex == -1 {
      return NoNameColumn, table;
    }
    var ctx := Context(Columns(nameIndex, revenueIndex, gpIndex, npIndex, currencyIndex), db.profiles, db.parse, db.rate);
    assert ctx == RowContext(rows, db, aliases);
    var aggregated := AggregateRows(rows, ctx);
    if aggregated.Failed? {
      return RateLookupFailed(aggregated.currency), table;
    }
    AggregatedConsistent(rows, ctx);
    if !db.deleteFails {
      table := WithoutUpload(table, uploadId);
    }
    var records := BuildRecords(aggregated.agg, month, year, uploadId);
    if db.insertFails {
      return InsertFailed, table;
    }
    table := table + records;
    return Processed(|records|), table;
  }

  // ---------------------------------------------------------------------
  // Properties of the endpoint

  /**
   * 401 exactly when the header is missing or empty or its token does not
   * verify; a missing or empty header is refused before any token check.
   */
  lemma HandleAuthentication(req: Request, db: Backend, aliases: AliasLists)
    ensures Status(Handle(req, db, aliases).0) == 401 <==> Caller(req, db).None?
    ensures MissingText(req.authorization) ==> Handle(req, db, aliases).0 == MissingAuthorization
  {
  }

  /** 403 exactly when an authenticated caller's profile cannot be read or their role is not a manager role. */
  lemma HandleAuthorisation(req: Request, db: Backend, aliases: AliasLists)
    ensures Status(Handle(req, db, aliases).0) == 403 <==> Caller(req, db).Some? && !Authorised(req, db)
  {
  }

  /** An authorised request with a falsy `upload_id`, `month` or `year` is rejected, writing nothing. */
  lemma HandleParameters(req: Request, db: Backend, aliases: AliasLists)
    ensures Handle(req, db, aliases).0 == MissingParameters <==> Authorised(req, db) && !HasParameters(req)
  {
  }

  /** An upload's rows are rejected when there are none, or when no header of the first row names the name column. */
  lemma IngestRejects(rows: seq<Row>, month: int, year: int, uploadId: Id, db: Backend, aliases: AliasLists)
    ensures Ingest(rows, month, year, uploadId, db, aliases).0 == InvalidCsv <==> rows == []
    ensures rows != [] ==>
      (Ingest(rows, month, year, uploadId, db, aliases).0 == NoNameColumn <==> ColumnIndex(Keys(rows[0]), aliases.name) == -1)
  {
    if rows != [] {
      assert RowContext(rows, db, aliases).cols.name == ColumnIndex(Keys(rows[0]), aliases.name);
    }
  }

  /**
   * An authorised request with its parameters fails without writing when the
   * stored data is not an array or is empty, or when no header names the
   * name column.
   */
  lemma HandleRejectsUpload(req: Request, db: Backend, aliases: AliasLists)
    requires Authorised(req, db) && HasParameters(req) && req.uploadId.value in db.uploads
    ensures var data := db.uploads[req.uploadId.value];
      Handle(req, db, aliases).0 == InvalidCsv <==> data.NotAnArray? || data.rows == []
    ensures var data := db.uploads[req.uploadId.value];
      data.RowArray? && data.rows != [] ==>
        (Handle(req, db, aliases).0 == NoNameColumn <==> ColumnIndex(Keys(data.rows[0]), aliases.name) == -1)
    ensures Handle(req, db, aliases).0 in {InvalidCsv, NoNameColumn} ==> Handle(req, db, aliases).1 == db.records
  {
    var data := db.uploads[req.uploadId.value];
    if data.RowArray? {
      assert Handle(req, db, aliases) == Ingest(data.rows, req.month.value, req.year.value, req.uploadId.value, db, aliases);
      IngestRejects(data.rows, req.month.value, req.year.value, req.uploadId.value, db, aliases);
    }
  }

  /** Past the caller, parameter and upload checks, the endpoint ingests the stored rows. */
  lemma HandleReachesIngest(req: Request, db: Backend, aliases: AliasLists)
    requires Handle(req, db, aliases).0.Processed?
    ensures Authorised(req, db) && HasParameters(req)
    ensures req.uploadId.value in db.uploads && db.uploads[req.uploadId.value].RowArray?
    ensures Handle(req, db, aliases) ==
      Ingest(db.uploads[req.uploadId.value].rows, req.month.value, req.year.value, req.uploadId.value, db, aliases)
  {
  }

  /** An ingest that succeeds inserted one record per aggregated profile. */
  lemma IngestProcessed(rows: seq<Row>, month: int, year: int, uploadId: Id, db: Backend, aliases: AliasLists)
    requires Ingest(rows, month, year, uploadId, db, aliases).0.Processed?
    ensures rows != [] && Aggregated(rows, RowContext(rows, db, aliases)).Done?
    ensures var agg := Aggregated(rows, RowContext(rows, db, aliases)).agg;
      Consistent(agg) &&
      var records := BuildRecords(agg, month, year, uploadId);
      && Ingest(rows, month, year, uploadId, db, aliases).0.recordsProcessed == |records| == |agg.order|
      && Ingest(rows, month, year, uploadId, db, aliases).1 == Replaced(db.records, uploadId, records, db.deleteFails)
  {
    AggregatedConsistent(rows, RowContext(rows, db, aliases));
  }

  /**
   * A processed upload: the caller was authorised, the parameters present,
   * and the table is the old one with the upload's records replaced by one
   * record per credited profile; the count reported is that number of records.
   */
  lemma HandleProcessed(req: Request, db: Backend, aliases: AliasLists)
    requires Handle(req, db, aliases).0.Processed?
    ensures Authorised(req, db) && HasParameters(req)
    ensures req.uploadId.value in db.uploads && db.uploads[req.uploadId.value].RowArray?
    ensures var rows := db.uploads[req.uploadId.value].rows;
      rows != [] && Aggregated(rows, RowContext(rows, db, aliases)).Done?
      && var agg := Aggregated(rows, RowContext(rows, db, aliases)).agg;
      Consistent(agg) &&
      var records := BuildRecords(agg, req.month.value, req.year.value, req.uploadId.value);
      && Handle(req, db, aliases).0.recordsProcessed == |records| == |agg.order|
      && Handle(req, db, aliases).1 == Replaced(db.records, req.uploadId.value, records, db.deleteFails)
  {
    HandleReachesIngest(req, db, aliases);
    IngestProcessed(db.uploads[req.uploadId.value].rows, req.month.value, req.year.value, req.uploadId.value, db, aliases);
  }

  /** The outcome of ingesting does not depend on whether the delete fails. */
  lemma IngestIgnoresDelete(rows: seq<Row>, month: int, year: int, uploadId: Id, db: Backend, aliases: AliasLists)
    ensures Ingest(rows, month, year, uploadId, db.(deleteFails := true), aliases).0
         == Ingest(rows, month, year, uploadId, db.(deleteFails := false), aliases).0
  {
    if rows != [] {
      var ctx := RowContext(rows, db, aliases);
      assert RowContext(rows, db.(deleteFails := true), aliases) == ctx;
      assert RowContext(rows, db.(deleteFails := false), aliases) == ctx;
    }
  }

  /** A failed delete changes nothing about the outcome: the insert still runs. */
  lemma DeleteFailureOnlyLogged(req: Request, db: Backend, aliases: AliasLists)
    ensures Handle(req, db.(deleteFails := true), aliases).0 == Handle(req, db.(deleteFails := false), aliases).0
  {
    if ReachesIngest(req, db) {
      IngestDeleteFailureOnlyLogged(req, db, aliases);
    } else {
      RejectedBeforeIngest(req, db.(deleteFails := true), aliases);
      RejectedBeforeIngest(req, db.(deleteFails := false), aliases);
    }
  }

  /** The request passes every check before the upload's rows are read. */
  predicate ReachesIngest(req: Request, db: Backend) {
    Authorised(req, db) && HasParameters(req) && req.uploadId.value in db.uploads
    && db.uploads[req.uploadId.value].RowArray?
  }

  lemma IngestDeleteFailureOnlyLogged(req: Request, db: Backend, aliases: AliasLists)
    requires ReachesIngest(req, db)
    ensures Handle(req, db.(deleteFails := true), aliases).0 == Handle(req, db.(deleteFails := false), aliases).0
  {
    IngestIgnoresDelete(db.uploads[req.uploadId.value].rows, req.month.value, req.year.value, req.uploadId.value, db, aliases);
  }

  /** A request turned away before the rows are read gets an outcome that does not look at the delete. */
  lemma RejectedBeforeIngest(req: Request, db: Backend, aliases: AliasLists)
    requires !ReachesIngest(req, db)
    ensures Handle(req, db, aliases).0 == Handle(req, db.(deleteFails := false), aliases).0
  {
    var other := db.(deleteFails := false);
    assert other.verifyToken == db.verifyToken && other.roleOf == db.roleOf && other.uploads == db.uploads;
    if !MissingText(req.authorization) {
      var caller := db.verifyToken(Token(req.authorization.value));
      if caller.Some? && db.roleOf(caller.value).Some? && IsManagerRole(db.roleOf(caller.value).value) {
        assert Authorised(req, db);
        if HasParameters(req) && req.uploadId.value in db.uploads {
          assert db.uploads[req.uploadId.value].NotAnArray?;
          assert Handle(req, db, aliases).0 == InvalidCsv;
          assert Handle(req, other, aliases).0 == InvalidCsv;
        }
      }
    }
  }

  /** Records stamped with one upload id. */
  predicate AllOfUpload(records: seq<BillingRecord>, uploadId: Id) {
    forall i :: 0 <= i < |records| ==> records[i].uploadId == Some(uploadId)
  }

  lemma {:induction false} WithoutUploadConcat(a: seq<BillingRecord>, b: seq<BillingRecord>, uploadId: Id)
    ensures WithoutUpload(a + b, uploadId) == WithoutUpload(a, uploadId) + WithoutUpload(b, uploadId)
  {
    if a == [] {
      assert a + b == b;
    } else {
      WithoutUploadConcat(a[1..], b, uploadId);
      assert (a + b)[0] == a[0];
      assert (a + b)[1..] == a[1..] + b;
      ConcatAssoc([a[0]], WithoutUpload(a[1..], uploadId), WithoutUpload(b, uploadId));
    }
  }

  lemma {:induction false} OfUploadConcat(a: seq<BillingRecord>, b: seq<BillingRecord>, uploadId: Id)
    ensures OfUpload(a + b, uploadId) == OfUpload(a, uploadId) + OfUpload(b, uploadId)
  {
    if a == [] {
      assert a + b == b;
    } else {
      OfUploadConcat(a[1..], b, uploadId);
      assert (a + b)[0] == a[0];
      assert (a + b)[1..] == a[1..] + b;
      ConcatAssoc([a[0]], OfUpload(a[1..], uploadId), OfUpload(b, uploadId));
    }
  }

  lemma {:induction false} OfUploadAll(records: seq<BillingRecord>, uploadId: Id)
    requires AllOfUpload(records, uploadId)
    ensures OfUpload(records, uploadId) == records
    ensures WithoutUpload(records, uploadId) == []
  {
    if records != [] {
      OfUploadAll(records[1..], uploadId);
    }
  }

  /**
   * Replacing is exact: afterwards the upload's records are exactly the new
   * ones, and the records of every other upload are untouched.
   */
  lemma ReplaceIsExact(table: seq<BillingRecord>, uploadId: Id, records: seq<BillingRecord>)
    requires AllOfUpload(records, uploadId)
    ensures OfUpload(Replaced(table, uploadId, records, false), uploadId) == records
    ensures WithoutUpload(Replaced(table, uploadId, records, false), uploadId) == WithoutUpload(table, uploadId)
  {
    var kept := WithoutUpload(table, uploadId);
    WithoutUploadConcat(kept, records, uploadId);
    OfUploadConcat(kept, records, uploadId);
    OfUploadAll(records, uploadId);
    DeletedIsGone(table, uploadId);
  }

  /** After the delete, no record of the upload is left, and deleting again changes nothing. */
  lemma {:induction false} DeletedIsGone(table: seq<BillingRecord>, uploadId: Id)
    ensures OfUpload(WithoutUpload(table, uploadId), uploadId) == []
    ensures WithoutUpload(WithoutUpload(table, uploadId), uploadId) == WithoutUpload(table, uploadId)
  {
    if table != [] {
      DeletedIsGone(table[1..], uploadId);
      var rest := WithoutUpload(table[1..], uploadId);
      if table[0].uploadId != Some(uploadId) {
        assert ([table[0]] + rest)[0] == table[0];
        assert ([table[0]] + rest)[1..] == rest;
      }
    }
  }

  lemma BuiltRecordsOfUpload(agg: Aggregate, month: int, year: int, uploadId: Id)
    requires forall id :: id in agg.order ==> id in agg.totals
    ensures AllOfUpload(BuildRecords(agg, month, year, uploadId), uploadId)
  {
  }

  /**
   * Re-running a processed upload against the table it produced gives the
   * same outcome and the same table (when the delete succeeds).
   */
  lemma HandleIdempotent(req: Request, db: Backend, aliases: AliasLists)
    requires Handle(req, db, aliases).0.Processed? && !db.deleteFails
    ensures Handle(req, db.(records := Handle(req, db, aliases).1), aliases) == Handle(req, db, aliases)
  {
    HandleProcessed(req, db, aliases);
    var rows := db.uploads[req.uploadId.value].rows;
    var agg := Aggregated(rows, RowContext(rows, db, aliases)).agg;
    var uploadId := req.uploadId.value;
    var records := BuildRecords(agg, req.month.value, req.year.value, uploadId);
    var table := Handle(req, db, aliases).1;
    BuiltRecordsOfUpload(agg, req.month.value, req.year.value, uploadId);
    ReplaceIsExact(db.records, uploadId, records);
    var db2 := db.(records := table);
    assert RowContext(rows, db2, aliases) == RowContext(rows, db, aliases);
    assert Handle(req, db2, aliases).1 == Replaced(table, uploadId, records, false);
    assert WithoutUpload(table, uploadId) == WithoutUpload(db.records, uploadId);
  }

  // ---------------------------------------------------------------------
  // A worked example: containment is of whole lower-cased names

  /**
   * "j smith" is not a substring of "john smith", nor the other way round, so
   * a row named "J Smith" finds no profile among one named "John Smith" and
   * (by `UnmatchedRowSkipped`) credits nobody.
   */
  lemma InitialFindsNoProfile(id: Id)
    ensures FindProfile([NamedProfile(id, "John Smith")], "J Smith").None?
  {
    InitialDoesNotMatch("John Smith", "J Smith");
  }

  lemma InitialDoesNotMatch(full: string, initial: string)
    requires full == "John Smith" && initial == "J Smith"
    ensures !NamesMatch(full, initial)
  {
    var p, n := ToLower(full), ToLower(initial);
    assert |p| == 10 && |n| == 7;
    assert n[0] == LowerChar(initial[0]) == 'j';
    assert n[1] == LowerChar(initial[1]) == ' ';
    assert p[0] == LowerChar(full[0]) && p[1] == LowerChar(full[1]);
    assert p[2] == LowerChar(full[2]) && p[3] == LowerChar(full[3]);
    assert forall i :: 0 <= i <= 3 ==> !OccursAt(p, n, i);
  }

  /** A row named exactly like the profile does find it. */
  lemma FullNameMatches(id: Id)
    ensures FindProfile([NamedProfile(id, "John Smith")], "John Smith") == Some(0)
  {
    IncludesTrivial(ToLower("John Smith"));
  }
}
