/**
 * The GP credit-split rule: how much of a deal's GBP value is credited to a
 * person, and how much to a group of people (a team or everyone of a role).
 * The pages that rank people (Leaderboard, ManagersAnalytics,
 * TargetsLeaderboard) use the individual form; the pages that rank teams and
 * roles (Leaderboard, Teams, ManagersAnalytics) use the group form.
 */
module Credit {
  import opened Wrappers
  import opened Schema
  import opened Seqs

  /** The slot's user is `u` (`deal.bd_user_id === u`, likewise for DT and 360). */
  predicate Holds(slot: Option<Id>, u: Id) {
    slot == Some(u)
  }

  /** `u` occupies the BD, DT or 360 slot of `d`. */
  predicate Involves(d: Deal, u: Id) {
    Holds(d.bdUser, u) || Holds(d.dtUser, u) || Holds(d.user360, u)
  }

  /** The number of slots of `d` that `u` occupies. */
  function SlotsHeld(d: Deal, u: Id): nat {
    (if Holds(d.bdUser, u) then 1 else 0)
    + (if Holds(d.dtUser, u) then 1 else 0)
    + (if Holds(d.user360, u) then 1 else 0)
  }

  /** No slot of `d` carries a negative percentage. */
  predicate NonNegativeSplit(d: Deal) {
    OrZero(d.bdPercent) >= 0.0 && OrZero(d.dtPercent) >= 0.0 && OrZero(d.percent360) >= 0.0
  }

  /**
   * The individual percentage: the three slots are tested in the order BD,
   * DT, 360 and each match overwrites the previous one, so the last slot the
   * person occupies decides (360 over DT over BD); no slot gives 0.
   */
  function IndividualPercent(d: Deal, u: Id): (p: real)
    ensures !Involves(d, u) ==> p == 0.0
    ensures Holds(d.user360, u) ==> p == OrZero(d.percent360)
    ensures Holds(d.dtUser, u) && !Holds(d.user360, u) ==> p == OrZero(d.dtPercent)
    ensures Holds(d.bdUser, u) && !Holds(d.dtUser, u) && !Holds(d.user360, u) ==> p == OrZero(d.bdPercent)
  {
    var p0 := 0.0;
    var p1 := if Holds(d.bdUser, u) then OrZero(d.bdPercent) else p0;
    var p2 := if Holds(d.dtUser, u) then OrZero(d.dtPercent) else p1;
    if Holds(d.user360, u) then OrZero(d.percent360) else p2
  }

  /** The slot's user is one of `ids` (`memberIds.includes(deal.bd_user_id)`). */
  predicate InGroup(slot: Option<Id>, ids: seq<Id>) {
    slot.Some? && slot.value in ids
  }

  /** Some member of `ids` occupies some slot of `d`. */
  predicate InvolvesGroup(d: Deal, ids: seq<Id>) {
    InGroup(d.bdUser, ids) || InGroup(d.dtUser, ids) || InGroup(d.user360, ids)
  }

  /** The group percentage: the percentages of every slot held by a member are added. */
  function GroupPercent(d: Deal, ids: seq<Id>): (p: real)
    ensures !InvolvesGroup(d, ids) ==> p == 0.0
    ensures NonNegativeSplit(d) ==> p >= 0.0
    ensures NonNegativeSplit(d) && InGroup(d.bdUser, ids) ==> p >= OrZero(d.bdPercent)
    ensures NonNegativeSplit(d) && InGroup(d.dtUser, ids) ==> p >= OrZero(d.dtPercent)
    ensures NonNegativeSplit(d) && InGroup(d.user360, ids) ==> p >= OrZero(d.percent360)
  {
    (if InGroup(d.bdUser, ids) then OrZero(d.bdPercent) else 0.0)
    + (if InGroup(d.dtUser, ids) then OrZero(d.dtPercent) else 0.0)
    + (if InGroup(d.user360, ids) then OrZero(d.percent360) else 0.0)
  }

  /** `value * (percent / 100)` for one person. */
  function IndividualCredit(d: Deal, u: Id): (c: real)
    ensures !Involves(d, u) ==> c == 0.0
  {
    Value(d) * (IndividualPercent(d, u) / 100.0)
  }

  /** `value * (percent / 100)` for a group. */
  function GroupCredit(d: Deal, ids: seq<Id>): (c: real)
    ensures !InvolvesGroup(d, ids) ==> c == 0.0
  {
    Value(d) * (GroupPercent(d, ids) / 100.0)
  }

  /** The profiles whose `team_id` is the team's. */
  function TeamMembers(profiles: seq<Profile>, teamId: Id): (r: seq<Profile>)
    ensures forall p :: p in r <==> p in profiles && p.teamId == Some(teamId)
  {
    Filter(profiles, (p: Profile) => p.teamId == Some(teamId))
  }

  /** The deals the `.eq('status', 'Approved')` queries return. */
  function ApprovedOnly(ds: seq<Deal>): (r: seq<Deal>)
    ensures forall d :: d in r <==> d in ds && IsApproved(d)
  {
    Filter(ds, IsApproved)
  }

  /** The deals in which `u` appears in some slot. */
  function UserDeals(ds: seq<Deal>, u: Id): (r: seq<Deal>)
    ensures forall d :: d in r <==> d in ds && Involves(d, u)
  {
    Filter(ds, d => Involves(d, u))
  }

  /** The deals in which some member of `ids` appears in some slot. */
  function GroupDeals(ds: seq<Deal>, ids: seq<Id>): (r: seq<Deal>)
    ensures forall d :: d in r <==> d in ds && InvolvesGroup(d, ids)
  {
    Filter(ds, d => InvolvesGroup(d, ids))
  }

  /** The non-renewal deals (`filter(d => !d.is_renewal)`). */
  function NewDeals(ds: seq<Deal>): (r: seq<Deal>)
    ensures forall d :: d in r <==> d in ds && IsNew(d)
  {
    Filter(ds, IsNew)
  }

  /** The renewal deals (`filter(d => d.is_renewal)`). */
  function Renewals(ds: seq<Deal>): (r: seq<Deal>)
    ensures forall d :: d in r <==> d in ds && IsRenewal(d)
  {
    Filter(ds, IsRenewal)
  }

  /** New placements and renewals split any list of deals. */
  lemma NewAndRenewalsPartition(ds: seq<Deal>)
    ensures |NewDeals(ds)| + |Renewals(ds)| == |ds|
    ensures multiset(NewDeals(ds)) + multiset(Renewals(ds)) == multiset(ds)
  {
    FilterComplement(ds, IsNew, IsRenewal);
  }

  /** Individual GP Added: the individual credits of `u` over `u`'s non-renewal deals. */
  function IndividualGpAdded(ds: seq<Deal>, u: Id): (g: real)
    ensures (forall d :: d in ds ==> !Involves(d, u) || IsRenewal(d)) ==> g == 0.0
    ensures (forall d :: d in ds ==> Value(d) >= 0.0 && NonNegativeSplit(d)) ==> g >= 0.0
  {
    if ds == [] then 0.0
    else
      (if Involves(ds[0], u) && IsNew(ds[0]) then IndividualCredit(ds[0], u) else 0.0)
      + IndividualGpAdded(ds[1..], u)
  }

  /** Group GP Added: the group credits of `ids` over the group's non-renewal deals. */
  function GroupGpAdded(ds: seq<Deal>, ids: seq<Id>): (g: real)
    ensures (forall d :: d in ds ==> !InvolvesGroup(d, ids) || IsRenewal(d)) ==> g == 0.0
    ensures (forall d :: d in ds ==> Value(d) >= 0.0 && NonNegativeSplit(d)) ==> g >= 0.0
  {
    if ds == [] then 0.0
    else
      (if InvolvesGroup(ds[0], ids) && IsNew(ds[0]) then GroupCredit(ds[0], ids) else 0.0)
      + GroupGpAdded(ds[1..], ids)
  }

  /** Leaving out the deals `u` is not in changes nothing: they earn `u` no credit. */
  lemma {:induction false} IndividualGpAddedOfUserDeals(ds: seq<Deal>, u: Id)
    ensures IndividualGpAdded(UserDeals(ds, u), u) == IndividualGpAdded(ds, u)
  {
    if ds != [] {
      IndividualGpAddedOfUserDeals(ds[1..], u);
      var rest := UserDeals(ds[1..], u);
      if Involves(ds[0], u) {
        assert UserDeals(ds, u) == [ds[0]] + rest;
        assert ([ds[0]] + rest)[1..] == rest;
      } else {
        assert UserDeals(ds, u) == rest;
      }
    }
  }

  /** Leaving out the deals no member is in changes nothing: they earn the group no credit. */
  lemma {:induction false} GroupGpAddedOfGroupDeals(ds: seq<Deal>, ids: seq<Id>)
    ensures GroupGpAdded(GroupDeals(ds, ids), ids) == GroupGpAdded(ds, ids)
  {
    if ds != [] {
      GroupGpAddedOfGroupDeals(ds[1..], ids);
      var rest := GroupDeals(ds[1..], ids);
      if InvolvesGroup(ds[0], ids) {
        assert GroupDeals(ds, ids) == [ds[0]] + rest;
        assert ([ds[0]] + rest)[1..] == rest;
      } else {
        assert GroupDeals(ds, ids) == rest;
      }
    }
  }

  /** A group without members is credited nothing. */
  lemma {:induction false} EmptyGroupEarnsNothing(ds: seq<Deal>)
    ensures GroupGpAdded(ds, []) == 0.0
  {
    if ds != [] {
      EmptyGroupEarnsNothing(ds[1..]);
    }
  }

  // ---------------------------------------------------------------------
  // How the two variants relate.

  /**
   * A person's individual percentage never exceeds the group percentage of
   * the one-person group, and the two agree unless the person holds two or
   * more slots of the deal.
   */
  lemma IndividualWithinOwnGroup(d: Deal, u: Id)
    requires NonNegativeSplit(d)
    ensures IndividualPercent(d, u) <= GroupPercent(d, [u])
    ensures SlotsHeld(d, u) <= 1 ==> IndividualPercent(d, u) == GroupPercent(d, [u])
  {
    assert forall slot :: InGroup(slot, [u]) <==> Holds(slot, u);
  }

  /** The sum of the group percentages of single members. */
  function MembersHeldPercent(d: Deal, ids: seq<Id>): real {
    if ids == [] then 0.0 else GroupPercent(d, [ids[0]]) + MembersHeldPercent(d, ids[1..])
  }

  /** The sum of the individual percentages of the members. */
  function MembersIndividualPercent(d: Deal, ids: seq<Id>): real {
    if ids == [] then 0.0 else IndividualPercent(d, ids[0]) + MembersIndividualPercent(d, ids[1..])
  }

  /**
   * For a group without repeated members, the group percentage adds up what
   * every member holds: each slot has one user, so it is counted once.
   */
  lemma {:induction false} GroupIsSumOfMembers(d: Deal, ids: seq<Id>)
    requires Distinct(ids)
    ensures GroupPercent(d, ids) == MembersHeldPercent(d, ids)
  {
    if ids != [] {
      var u, rest := ids[0], ids[1..];
      assert u !in rest;
      GroupIsSumOfMembers(d, rest);
      assert forall slot :: InGroup(slot, ids) <==> Holds(slot, u) || InGroup(slot, rest);
      assert forall slot :: InGroup(slot, [u]) <==> Holds(slot, u);
    }
  }

  /**
   * The central relation: a group is credited at least the sum of its members'
   * individual percentages, and exactly that sum when no member holds two
   * slots. A member holding several slots is credited one slot as an
   * individual but all of them as part of the group.
   */
  lemma {:induction false} GroupCoversMembers(d: Deal, ids: seq<Id>)
    requires Distinct(ids)
    requires NonNegativeSplit(d)
    ensures MembersIndividualPercent(d, ids) <= GroupPercent(d, ids)
    ensures (forall u :: u in ids ==> SlotsHeld(d, u) <= 1) ==> MembersIndividualPercent(d, ids) == GroupPercent(d, ids)
  {
    GroupIsSumOfMembers(d, ids);
    IndividualBelowHeld(d, ids);
  }

  lemma {:induction false} IndividualBelowHeld(d: Deal, ids: seq<Id>)
    requires NonNegativeSplit(d)
    ensures MembersIndividualPercent(d, ids) <= MembersHeldPercent(d, ids)
    ensures (forall u :: u in ids ==> SlotsHeld(d, u) <= 1) ==> MembersIndividualPercent(d, ids) == MembersHeldPercent(d, ids)
  {
    if ids != [] {
      IndividualWithinOwnGroup(d, ids[0]);
      IndividualBelowHeld(d, ids[1..]);
    }
  }

  /** A deal where one person holds both the BD (70%) and DT (30%) slots. */
  function TwoSlotDeal(u: Id): Deal {
    Deal("deal", Staff, Some(Approved), u, None, Some(1000.0),
         Some(u), Some(70.0), Some(u), Some(30.0), None, None,
         Some(false), None, Some(1), Some(2025), Moment(2025, 0, 0), None, None, None)
  }

  /**
   * The two variants differ: the person is credited 30% (the DT slot
   * overrides BD) while the one-person team is credited 100%.
   */
  lemma TwoSlotsCreditedDifferently(u: Id)
    ensures IndividualCredit(TwoSlotDeal(u), u) == 300.0
    ensures GroupCredit(TwoSlotDeal(u), [u]) == 1000.0
  {
  }

  // ---------------------------------------------------------------------
  // The same relation over lists of deals.

  /** The sum over the members of their individual GP Added. */
  function MembersGpAdded(ds: seq<Deal>, ids: seq<Id>): real {
    if ids == [] then 0.0 else IndividualGpAdded(ds, ids[0]) + MembersGpAdded(ds, ids[1..])
  }

  /** What the members are credited individually for one deal. */
  function MembersDealCredit(d: Deal, ids: seq<Id>): real {
    if ids == [] then 0.0
    else
      (if Involves(d, ids[0]) && IsNew(d) then IndividualCredit(d, ids[0]) else 0.0)
      + MembersDealCredit(d, ids[1..])
  }

  lemma {:induction false} MembersGpAddedSplit(ds: seq<Deal>, ids: seq<Id>)
    requires ds != []
    ensures MembersGpAdded(ds, ids) == MembersDealCredit(ds[0], ids) + MembersGpAdded(ds[1..], ids)
  {
    if ids != [] {
      MembersGpAddedSplit(ds, ids[1..]);
    }
  }

  lemma {:induction false} MembersDealCreditScales(d: Deal, ids: seq<Id>)
    requires IsNew(d)
    ensures MembersDealCredit(d, ids) == Value(d) * (MembersIndividualPercent(d, ids) / 100.0)
  {
    if ids != [] {
      MembersDealCreditScales(d, ids[1..]);
    }
  }


  lemma {:induction false} MembersDealCreditOutside(d: Deal, ids: seq<Id>)
    requires !InvolvesGroup(d, ids) || !IsNew(d)
    ensures MembersDealCredit(d, ids) == 0.0
  {
    if ids != [] {
      MembersDealCreditOutside(d, ids[1..]);
    }
  }

  /**
   * Over any list of deals with non-negative values and splits, a group's GP
   * Added is at least the sum of its members' individual GP Added.
   */
  lemma {:induction false} GroupGpAddedCoversMembers(ds: seq<Deal>, ids: seq<Id>)
    requires Distinct(ids)
    requires forall d :: d in ds ==> Value(d) >= 0.0 && NonNegativeSplit(d)
    ensures MembersGpAdded(ds, ids) <= GroupGpAdded(ds, ids)
  {
    if ds == [] {
      MembersGpAddedEmpty(ids);
    } else {
      MembersGpAddedSplit(ds, ids);
      GroupGpAddedCoversMembers(ds[1..], ids);
      DealCreditCovered(ds[0], ids);
    }
  }

  /** For one deal, the members' individual credits stay within the group's credit. */
  lemma {:induction false} DealCreditCovered(d: Deal, ids: seq<Id>)
    requires Distinct(ids)
    requires Value(d) >= 0.0 && NonNegativeSplit(d)
    ensures MembersDealCredit(d, ids) <= if InvolvesGroup(d, ids) && IsNew(d) then GroupCredit(d, ids) else 0.0
  {
    if InvolvesGroup(d, ids) && IsNew(d) {
      NewDealCreditCovered(d, ids);
    } else {
      MembersDealCreditOutside(d, ids);
    }
  }

  lemma {:induction false} NewDealCreditCovered(d: Deal, ids: seq<Id>)
    requires Distinct(ids)
    requires Value(d) >= 0.0 && NonNegativeSplit(d) && IsNew(d)
    ensures MembersDealCredit(d, ids) <= GroupCredit(d, ids)
  {
    calc {
      MembersDealCredit(d, ids);
    == { MembersDealCreditScales(d, ids); }
      Value(d) * (MembersIndividualPercent(d, ids) / 100.0);
    <= { MembersWithinGroupPercent(d, ids);
         ScaleMonotone(Value(d), MembersIndividualPercent(d, ids), GroupPercent(d, ids)); }
      Value(d) * (GroupPercent(d, ids) / 100.0);
    }
  }

  lemma MembersWithinGroupPercent(d: Deal, ids: seq<Id>)
    requires Distinct(ids)
    requires NonNegativeSplit(d)
    ensures MembersIndividualPercent(d, ids) <= GroupPercent(d, ids)
  {
    GroupCoversMembers(d, ids);
  }

  lemma {:induction false} MembersGpAddedEmpty(ids: seq<Id>)
    ensures MembersGpAdded([], ids) == 0.0
  {
    if ids != [] {
      MembersGpAddedEmpty(ids[1..]);
    }
  }

  lemma {:induction false} ScaleMonotone(v: real, p: real, q: real)
    requires v >= 0.0 && p <= q
    ensures v * (p / 100.0) <= v * (q / 100.0)
  {
    assert v * (q / 100.0) - v * (p / 100.0) == v * ((q - p) / 100.0);
  }
}
