/**
 * The rows of the hosted database as the pages read them: the enumerations
 * of the generated schema types and the records of the `deals`, `profiles`
 * and `teams` tables (only the columns some business rule reads).
 */
module Schema {
  import opened Wrappers

  /** A row key (a UUID in the database). */
  type Id = string

  datatype Currency = GBP | USD | EUR | SAR | AED

  datatype DealStatus = Draft | Submitted | UnderReview | Approved | Rejected | RevisionRequired | Voided

  datatype DealType = Staff | Contract | Service

  /** `role_type`; `R360` is the enumeration value "360". */
  datatype RoleType = BD | DT | R360 | Manager | CEO | Admin

  /** The three roles the privileged pages and endpoints admit. */
  predicate IsManagerRole(r: RoleType) {
    r == Manager || r == CEO || r == Admin
  }

  /**
   * The gate of the managers' analytics and approvals pages: a user without
   * a profile or a role, or with one of the three sales roles, is refused.
   */
  function HasManagerAccess(role: Option<RoleType>): (r: bool)
    ensures r <==> role.Some? && role.value !in {BD, DT, R360}
  {
    role.Some? && IsManagerRole(role.value)
  }

  /**
   * A point in time as the pages use it: calendar year, 0-based month (as
   * `Date.getMonth()` returns it) and an offset within the month.
   */
  datatype Moment = Moment(year: int, month: int, offset: int)

  /** Chronological order of two moments. */
  predicate AtOrBefore(a: Moment, b: Moment) {
    a.year < b.year
    || (a.year == b.year && a.month < b.month)
    || (a.year == b.year && a.month == b.month && a.offset <= b.offset)
  }

  /** A row of `deals`; nullable columns are `Option`s. */
  datatype Deal = Deal(
    id: Id,
    dealType: DealType,
    status: Option<DealStatus>,
    submittedBy: Id,
    approvedBy: Option<Id>,
    value: Option<real>,                  // value_converted_gbp
    bdUser: Option<Id>,
    bdPercent: Option<real>,
    dtUser: Option<Id>,
    dtPercent: Option<real>,
    user360: Option<Id>,
    percent360: Option<real>,
    isRenewal: Option<bool>,
    renewalCount: Option<int>,
    submittedMonth: Option<int>,
    submittedYear: Option<int>,
    createdAt: Moment,
    estimatedOpportunity: Option<real>,   // total_estimated_opportunity_gbp
    revisionComment: Option<string>,
    updatedAt: Option<Moment>
  )

  /** A row of `profiles`; `salesRole` is the optional display override. */
  datatype Profile = Profile(
    id: Id,
    name: string,
    email: string,
    role: RoleType,
    salesRole: Option<string>,
    teamId: Option<Id>,
    active: Option<bool>
  )

  /** A row of `teams`, joined with its member profiles (`teams.select('*, profiles(...)')`). */
  datatype Team = Team(id: Id, name: string, members: seq<Profile>)

  /** `Number(deal.value_converted_gbp) || 0`. */
  function Value(d: Deal): real {
    OrZero(d.value)
  }

  /** `deal.is_renewal` is truthy; a null flag reads as "not a renewal". */
  predicate IsRenewal(d: Deal) {
    d.isRenewal == Some(true)
  }

  /** `!deal.is_renewal`: a new placement. */
  predicate IsNew(d: Deal) {
    !IsRenewal(d)
  }

  predicate IsApproved(d: Deal) {
    d.status == Some(Approved)
  }

  /** Awaiting a decision: "Submitted" or "Under Review". */
  predicate IsPending(d: Deal) {
    d.status == Some(Submitted) || d.status == Some(UnderReview)
  }

  function Ids(ps: seq<Profile>): (r: seq<Id>)
    ensures |r| == |ps|
    ensures forall i :: 0 <= i < |ps| ==> r[i] == ps[i].id
  {
    if ps == [] then [] else [ps[0].id] + Ids(ps[1..])
  }

  /** `profiles.find(p => p.id === id)`, as an index: the first profile with that id, if any. */
  function ProfileIndex(profiles: seq<Profile>, id: Id): (r: Option<nat>)
    ensures r.None? ==> forall j :: 0 <= j < |profiles| ==> profiles[j].id != id
    ensures r.Some? ==> r.value < |profiles| && profiles[r.value].id == id
    ensures r.Some? ==> forall j :: 0 <= j < r.value ==> profiles[j].id != id
  {
    if profiles == [] then None
    else if profiles[0].id == id then Some(0)
    else match ProfileIndex(profiles[1..], id)
      case None => None
      case Some(k) => Some(k + 1)
  }

  /** The profile `profiles.find(p => p.id === id)` returns. */
  function ProfileById(profiles: seq<Profile>, id: Id): (r: Option<Profile>)
    ensures r.None? <==> forall j :: 0 <= j < |profiles| ==> profiles[j].id != id
    ensures r.Some? ==> r.value in profiles && r.value.id == id
  {
    match ProfileIndex(profiles, id)
    case None => None
    case Some(k) => Some(profiles[k])
  }
}
