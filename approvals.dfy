/**
 * The approvals queue: which deals a manager sees, how a deal is approved or
 * sent back for revision, and how names and split lines are shown.
 */
module Approvals {
  import opened Wrappers
  import opened Schema
  import opened Seqs
  import opened Text
  import opened Credit
  import SubmitDeal

  function PendingDeals(deals: seq<Deal>): (r: seq<Deal>)
    ensures forall d :: d in r <==> d in deals && IsPending(d)
  {
    Filter(deals, IsPending)
  }

  /**
   * The pending-approvals query: deals whose status is "Submitted" or
   * "Under Review", fetched only for a reviewing role (`None`: the query is
   * disabled and the page shows "Access Denied").
   */
  function PendingQueue(role: Option<RoleType>, deals: seq<Deal>): (r: Option<seq<Deal>>)
    ensures r.Some? <==> HasManagerAccess(role)
    ensures r.Some? ==> forall d :: d in r.value ==> d in deals && (d.status == Some(Submitted) || d.status == Some(UnderReview))
    ensures r.Some? ==> forall d :: d in deals && IsPending(d) ==> d in r.value
  {
    if HasManagerAccess(role) then Some(PendingDeals(deals)) else None
  }

  /** The two updates the page issues against a deal row. */
  datatype Decision =
    | ApproveBy(approver: Option<Id>, at: Moment)
    | ReviseWith(comment: string, at: Moment)

  /** The columns one decision writes. */
  function Apply(c: Decision, d: Deal): (r: Deal)
    ensures r.id == d.id && r.updatedAt == Some(c.at)
    ensures c.ApproveBy? ==> IsApproved(r) && r.approvedBy == c.approver && r.revisionComment == d.revisionComment
    ensures c.ReviseWith? ==> r.status == Some(RevisionRequired) && r.revisionComment == Some(c.comment) && r.approvedBy == d.approvedBy
    ensures !IsPending(r)
    ensures r.value == d.value && r.bdUser == d.bdUser && r.dtUser == d.dtUser && r.user360 == d.user360
  {
    match c
    case ApproveBy(approver, at) => d.(status := Some(Approved), approvedBy := approver, updatedAt := Some(at))
    case ReviseWith(comment, at) => d.(status := Some(RevisionRequired), revisionComment := Some(comment), updatedAt := Some(at))
  }

  /** `.update(...).eq('id', dealId)`: the decision applied to every row with that id. */
  function UpdateWhere(deals: seq<Deal>, dealId: Id, c: Decision): (r: seq<Deal>)
    ensures |r| == |deals|
    ensures forall i :: 0 <= i < |deals| && deals[i].id == dealId ==> r[i] == Apply(c, deals[i])
    ensures forall i :: 0 <= i < |deals| && deals[i].id != dealId ==> r[i] == deals[i]
  {
    if deals == [] then [] else
    [if deals[0].id == dealId then Apply(c, deals[0]) else deals[0]] + UpdateWhere(deals[1..], dealId, c)
  }

  /** The rows of `s` whose id is not `dealId`, in order. */
  function Without(s: seq<Deal>, dealId: Id): (r: seq<Deal>)
    ensures forall d :: d in r <==> d in s && d.id != dealId
  {
    if s == [] then [] else
    (if s[0].id == dealId then [] else [s[0]]) + Without(s[1..], dealId)
  }

  /**
   * Either decision takes the deal out of the queue and leaves the rest of
   * the queue exactly as it was, in the same order.
   */
  lemma {:induction false} DecisionLeavesQueue(deals: seq<Deal>, dealId: Id, c: Decision)
    ensures PendingDeals(UpdateWhere(deals, dealId, c)) == Without(PendingDeals(deals), dealId)
  {
    if deals != [] {
      DecisionLeavesQueue(deals[1..], dealId, c);
      var r := UpdateWhere(deals, dealId, c);
      assert r[1..] == UpdateWhere(deals[1..], dealId, c);
      assert r == [r[0]] + r[1..];
      assert deals == [deals[0]] + deals[1..];
      FilterConcat([r[0]], r[1..], IsPending);
      FilterConcat([deals[0]], deals[1..], IsPending);
      if deals[0].id == dealId {
        assert Filter([r[0]], IsPending) == [];
      } else {
        assert r[0] == deals[0];
      }
      var pending := PendingDeals(deals);
      if IsPending(deals[0]) {
        assert pending == [deals[0]] + PendingDeals(deals[1..]);
        assert pending[1..] == PendingDeals(deals[1..]);
      } else {
        assert pending == PendingDeals(deals[1..]);
      }
    }
  }

  /** An approved deal counts towards GP from then on, credited as before. */
  lemma ApprovalCounts(deals: seq<Deal>, dealId: Id, approver: Option<Id>, at: Moment, i: nat)
    requires i < |deals| && deals[i].id == dealId
    ensures UpdateWhere(deals, dealId, ApproveBy(approver, at))[i] in ApprovedOnly(UpdateWhere(deals, dealId, ApproveBy(approver, at)))
    ensures Value(UpdateWhere(deals, dealId, ApproveBy(approver, at))[i]) == Value(deals[i])
  {
  }

  /**
   * `getProfileName`: "Unassigned" for a missing or empty id or before the
   * profiles have loaded, "Unknown" when no profile has the id or the one
   * found has an empty name, and that profile's name otherwise.
   */
  function ProfileName(userId: Option<Id>, profiles: Option<seq<Profile>>): (r: string)
    ensures userId.None? || userId == Some([]) || profiles.None? ==> r == "Unassigned"
    ensures userId.Some? && userId.value != [] && profiles.Some? ==>
      match ProfileById(profiles.value, userId.value)
      case None => r == "Unknown"
      case Some(p) => r == if p.name == [] then "Unknown" else p.name
    ensures (userId.Some? && userId.value != [] && profiles.Some? && r != "Unknown") ==>
      exists p :: p in profiles.value && p.id == userId.value && p.name == r
  {
    if userId.None? || userId.value == [] || profiles.None? then "Unassigned"
    else match ProfileById(profiles.value, userId.value)
      case None => "Unknown"
      case Some(p) => if p.name == [] then "Unknown" else p.name
  }

  datatype Slot = BDSlot | DTSlot | Slot360

  /** One line of the "GP Split" block: the slot, its percent and whose it is. */
  datatype SplitLine = SplitLine(slot: Slot, percent: real, name: string)

  /** `deal.bd_percent > 0`: false for a null percent. */
  predicate Positive(p: Option<real>) {
    p.Some? && p.value > 0.0
  }

  function SlotLine(slot: Slot, percent: Option<real>, user: Option<Id>, profiles: Option<seq<Profile>>): (r: seq<SplitLine>)
    ensures |r| <= 1
    ensures |r| == 1 <==> Positive(percent)
    ensures |r| == 1 ==> r[0] == SplitLine(slot, percent.value, ProfileName(user, profiles))
    ensures forall l :: l in r ==> l.slot == slot
  {
    if Positive(percent) then [SplitLine(slot, percent.value, ProfileName(user, profiles))] else []
  }

  /** The split lines of a deal card, BD then DT then 360, each shown only when its percent is above 0. */
  function SplitLines(d: Deal, profiles: Option<seq<Profile>>): (r: seq<SplitLine>)
    ensures |r| <= 3
    ensures (exists l :: l in r && l.slot == BDSlot) <==> Positive(d.bdPercent)
    ensures (exists l :: l in r && l.slot == DTSlot) <==> Positive(d.dtPercent)
    ensures (exists l :: l in r && l.slot == Slot360) <==> Positive(d.percent360)
    ensures forall l :: l in r && l.slot == BDSlot ==> l == SplitLine(BDSlot, d.bdPercent.value, ProfileName(d.bdUser, profiles))
    ensures forall l :: l in r && l.slot == DTSlot ==> l == SplitLine(DTSlot, d.dtPercent.value, ProfileName(d.dtUser, profiles))
    ensures forall l :: l in r && l.slot == Slot360 ==> l == SplitLine(Slot360, d.percent360.value, ProfileName(d.user360, profiles))
  {
    var bd := SlotLine(BDSlot, d.bdPercent, d.bdUser, profiles);
    var dt := SlotLine(DTSlot, d.dtPercent, d.dtUser, profiles);
    var p360 := SlotLine(Slot360, d.percent360, d.user360, profiles);
    assert forall l :: l in bd + dt + p360 <==> l in bd || l in dt || l in p360;
    bd + dt + p360
  }

  /**
   * A deal submitted with the BD_DT preset reaches the queue showing the
   * submitter's 70% and a 30% DT share that belongs to no one ("Unassigned").
   */
  lemma PresetDtShareUnassigned(nd: SubmitDeal.NewDeal, user: Id, id: Id, createdAt: Moment, profiles: Option<seq<Profile>>)
    requires nd.split == SubmitDeal.Preset(SubmitDeal.SplitBDDT, user)
    ensures SplitLines(SubmitDeal.AsDeal(nd, id, createdAt), profiles)
      == [SplitLine(BDSlot, 70.0, ProfileName(Some(user), profiles)), SplitLine(DTSlot, 30.0, "Unassigned")]
  {
  }

  /**
   * The page state: the deals table the mutations write to, the deal whose
   * revision dialog is open and the comment typed into it.
   */
  class ApprovalsPage {
    var deals: seq<Deal>
    var selectedDeal: Option<Deal>
    var rejectDialogOpen: bool
    var rejectionComment: string
    const user: Option<Id>

    /** The dialog is only ever open on a selected deal. */
    ghost predicate Valid()
      reads this
    {
      rejectDialogOpen ==> selectedDeal.Some?
    }

    constructor(user: Option<Id>, deals: seq<Deal>)
      ensures Valid()
      ensures this.user == user && this.deals == deals
      ensures selectedDeal.None? && !rejectDialogOpen && rejectionComment == []
    {
      this.user := user;
      this.deals := deals;
      selectedDeal := None;
      rejectDialogOpen := false;
      rejectionComment := [];
    }

    /**
     * `handleApprove`: marks the deal approved by the signed-in user at
     * `now`; `ok` is false when the update fails, and then nothing changes.
     */
    method HandleApprove(dealId: Id, now: Moment, ok: bool)
      requires Valid()
      modifies this
      ensures Valid()
      ensures deals == if ok then UpdateWhere(old(deals), dealId, ApproveBy(user, now)) else old(deals)
      ensures selectedDeal == old(selectedDeal) && rejectDialogOpen == old(rejectDialogOpen)
      ensures rejectionComment == old(rejectionComment)
    {
      if ok {
        deals := UpdateWhere(deals, dealId, ApproveBy(user, now));
      }
    }

    /** `handleReject`: opens the revision dialog on `deal`. */
    method HandleReject(deal: Deal)
      modifies this
      ensures Valid()
      ensures selectedDeal == Some(deal) && rejectDialogOpen
      ensures deals == old(deals) && rejectionComment == old(rejectionComment)
    {
      selectedDeal := Some(deal);
      rejectDialogOpen := true;
    }

    /** Typing into the comment box. */
    method SetRejectionComment(comment: string)
      requires Valid()
      modifies this
      ensures Valid()
      ensures rejectionComment == comment
      ensures deals == old(deals) && selectedDeal == old(selectedDeal) && rejectDialogOpen == old(rejectDialogOpen)
    {
      rejectionComment := comment;
    }

    /**
     * The dialog's Cancel button (or closing it): the dialog closes, while the
     * selected deal and the comment typed so far stay as they were.
     */
    method CancelReject()
      requires Valid()
      modifies this
      ensures Valid()
      ensures !rejectDialogOpen
      ensures deals == old(deals) && selectedDeal == old(selectedDeal) && rejectionComment == old(rejectionComment)
    {
      rejectDialogOpen := false;
    }

    /**
     * `confirmReject`: a blank comment (empty once trimmed) is refused and
     * nothing is sent; otherwise the comment, as typed, goes with the
     * "Revision Required" update. On success the dialog closes and clears;
     * when the update fails (`ok` false) everything stays as it was.
     */
    method ConfirmReject(now: Moment, ok: bool) returns (sent: bool)
      requires Valid() && rejectDialogOpen
      modifies this
      ensures Valid()
      ensures sent <==> Trim(old(rejectionComment)) != []
      ensures !(sent && ok) ==> (deals == old(deals) && selectedDeal == old(selectedDeal)
        && rejectDialogOpen == old(rejectDialogOpen) && rejectionComment == old(rejectionComment))
      ensures sent && ok ==> deals == UpdateWhere(old(deals), old(selectedDeal).value.id, ReviseWith(old(rejectionComment), now))
      ensures sent && ok ==> selectedDeal.None? && !rejectDialogOpen && rejectionComment == []
    {
      if Trim(rejectionComment) == [] {
        return false;
      }
      sent := true;
      if ok {
        deals := UpdateWhere(deals, selectedDeal.value.id, ReviseWith(rejectionComment, now));
        rejectDialogOpen := false;
        selectedDeal := None;
        rejectionComment := [];
      }
    }
  }

  /** A comment of nothing but white space is refused just like an empty one. */
  lemma BlankCommentRefused(comment: string)
    requires forall i :: 0 <= i < |comment| ==> IsSpace(comment[i])
    ensures Trim(comment) == []
  {
  }
}
