/**
 * Deal submission: the record `handleSubmit` inserts, built from the form,
 * the chosen deal type and split, and whether it is saved as a draft.
 */
module SubmitDeal {
  import opened Wrappers
  import opened Schema
  import opened Credit

  /** The form's fields, as typed. */
  datatype Form = Form(
    client: string,
    location: string,
    currency: string,
    valueOriginalCurrency: string,
    placementId: string,
    workerName: string,
    gpDaily: string,
    durationDays: string,
    serviceName: string,
    serviceDescription: string
  )

  /** The split choices: BD alone, BD with DT, or 360. */
  datatype SplitType = SplitBD | SplitBDDT | Split360

  /** The split columns of the inserted record. */
  datatype Split = Split(
    bdUser: Option<Id>, bdPercent: Option<real>,
    dtUser: Option<Id>, dtPercent: Option<real>,
    user360: Option<Id>, percent360: Option<real>
  )

  const NoSplit := Split(None, None, None, None, None, None)

  /**
   * The fixed presets: BD gives the submitter 100% as BD; BD_DT gives the
   * submitter 70% as BD and 30% to a DT slot left without a user; 360 gives
   * the submitter 100% as 360. The percentages always total 100.
   */
  function Preset(splitType: SplitType, user: Id): (s: Split)
    ensures OrZero(s.bdPercent) + OrZero(s.dtPercent) + OrZero(s.percent360) == 100.0
    ensures s.dtUser.None?
    ensures splitType == SplitBD ==> s == Split(Some(user), Some(100.0), None, None, None, None)
    ensures splitType == SplitBDDT ==> s == Split(Some(user), Some(70.0), None, Some(30.0), None, None)
    ensures splitType == Split360 ==> s == Split(None, None, None, None, Some(user), Some(100.0))
  {
    match splitType
    case SplitBD => NoSplit.(bdUser := Some(user), bdPercent := Some(100.0))
    case SplitBDDT => NoSplit.(bdUser := Some(user), bdPercent := Some(70.0), dtPercent := Some(30.0))
    case Split360 => NoSplit.(user360 := Some(user), percent360 := Some(100.0))
  }

  /** The record inserted into `deals`; the type-specific columns are absent unless set. */
  datatype NewDeal = NewDeal(
    dealType: DealType,
    client: string,
    location: string,
    currency: string,
    valueOriginalCurrency: real,
    valueConvertedGbp: real,
    submittedBy: Id,
    status: DealStatus,
    submittedMonth: int,
    submittedYear: int,
    placementId: Option<string>,
    workerName: Option<string>,
    gpDaily: Option<real>,
    durationDays: Option<int>,
    serviceName: Option<string>,
    serviceDescription: Option<string>,
    split: Split
  )

  /**
   * `handleSubmit`'s `dealData`, built field by field. `now` is the moment
   * of submission; `parseFloat` and `parseInt` are JavaScript's.
   */
  method BuildDealData(form: Form, dealType: DealType, splitType: SplitType, asDraft: bool, user: Id,
                       now: Moment, parseFloat: string -> real, parseInt: string -> int)
    returns (dealData: NewDeal)
    requires 0 <= now.month < 12
    ensures dealData.status == if asDraft then Draft else Submitted
    ensures dealData.client == form.client && dealData.location == form.location && dealData.currency == form.currency
    ensures dealData.valueConvertedGbp == dealData.valueOriginalCurrency == parseFloat(form.valueOriginalCurrency)
    ensures 1 <= dealData.submittedMonth <= 12 && dealData.submittedMonth == now.month + 1
    ensures dealData.submittedYear == now.year && dealData.submittedBy == user && dealData.dealType == dealType
    ensures dealType == Staff || dealType == Contract ==>
      dealData.placementId == Some(form.placementId) && dealData.workerName == Some(form.workerName)
      && dealData.gpDaily == Some(parseFloat(form.gpDaily)) && dealData.durationDays == Some(parseInt(form.durationDays))
      && dealData.serviceName.None? && dealData.serviceDescription.None?
    ensures dealType == Service ==>
      dealData.serviceName == Some(form.serviceName) && dealData.serviceDescription == Some(form.serviceDescription)
      && dealData.placementId.None? && dealData.workerName.None? && dealData.gpDaily.None? && dealData.durationDays.None?
    ensures dealData.split == Preset(splitType, user)
  {
    dealData := NewDeal(
      dealType, form.client, form.location, form.currency,
      parseFloat(form.valueOriginalCurrency),
      parseFloat(form.valueOriginalCurrency),
      user,
      if asDraft then Draft else Submitted,
      now.month + 1,
      now.year,
      None, None, None, None, None, None,
      NoSplit);

    if dealType == Staff || dealType == Contract {
      dealData := dealData.(placementId := Some(form.placementId));
      dealData := dealData.(workerName := Some(form.workerName));
      dealData := dealData.(gpDaily := Some(parseFloat(form.gpDaily)));
      dealData := dealData.(durationDays := Some(parseInt(form.durationDays)));
    } else if dealType == Service {
      dealData := dealData.(serviceName := Some(form.serviceName));
      dealData := dealData.(serviceDescription := Some(form.serviceDescription));
    }

    if splitType == SplitBD {
      dealData := dealData.(split := dealData.split.(bdUser := Some(user)));
      dealData := dealData.(split := dealData.split.(bdPercent := Some(100.0)));
    } else if splitType == SplitBDDT {
      dealData := dealData.(split := dealData.split.(bdUser := Some(user)));
      dealData := dealData.(split := dealData.split.(bdPercent := Some(70.0)));
      dealData := dealData.(split := dealData.split.(dtPercent := Some(30.0)));
    } else if splitType == Split360 {
      dealData := dealData.(split := dealData.split.(user360 := Some(user)));
      dealData := dealData.(split := dealData.split.(percent360 := Some(100.0)));
    }
  }

  /** The inserted record as the `deals` table later returns it. */
  function AsDeal(d: NewDeal, id: Id, createdAt: Moment): (r: Deal)
    ensures r.bdUser == d.split.bdUser && r.bdPercent == d.split.bdPercent
    ensures r.dtUser == d.split.dtUser && r.dtPercent == d.split.dtPercent
    ensures r.user360 == d.split.user360 && r.percent360 == d.split.percent360
    ensures r.value == Some(d.valueConvertedGbp) && r.submittedBy == d.submittedBy
  {
    Deal(id, d.dealType, Some(d.status), d.submittedBy, None, Some(d.valueConvertedGbp),
         d.split.bdUser, d.split.bdPercent, d.split.dtUser, d.split.dtPercent, d.split.user360, d.split.percent360,
         None, None, Some(d.submittedMonth), Some(d.submittedYear), createdAt, None, None, None)
  }

  /**
   * What the presets mean for the credit split: the submitter is credited
   * 100% under BD and 360 but only 70% under BD_DT, where the DT share has
   * no user and so is credited to no one, not even a team holding the
   * submitter.
   */
  lemma SubmitterCredit(d: NewDeal, splitType: SplitType, user: Id, id: Id, createdAt: Moment, ids: seq<Id>)
    requires d.split == Preset(splitType, user)
    requires user in ids
    ensures IndividualPercent(AsDeal(d, id, createdAt), user) == if splitType == SplitBDDT then 70.0 else 100.0
    ensures GroupPercent(AsDeal(d, id, createdAt), ids) == if splitType == SplitBDDT then 70.0 else 100.0
  {
  }
}
