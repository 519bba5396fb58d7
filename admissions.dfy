/**
 * The admissions page of a student: the badge of each application status,
 * its wording, and the split of the applications into admission offers
 * (which the student may accept or decline) and everything else.
 */
module Admissions {
  import opened Lists
  import opened Statuses

  datatype Application = Application(id: string, status: string)

  /** `getStatusColor` */
  function StatusColor(status: string): (c: string)
    ensures c in BadgeClasses
    ensures c == Success <==> status == "admitted" || status == "accepted"
    ensures c == Error <==> status == "rejected" || status == "declined"
    ensures c == Warning <==> status == "waiting-list"
  {
    match status
    case "admitted" => Success
    case "accepted" => Success
    case "rejected" => Error
    case "declined" => Error
    case "waiting-list" => Warning
    case _ => Info
  }

  const KnownStatuses: seq<string> := ["admitted", "accepted", "rejected", "declined", "waiting-list", "pending"]

  /** `getStatusText`: known statuses get a label, any other status is shown
      as it is. */
  function StatusText(status: string): (t: string)
    ensures status == "pending" ==> t == "Under Review"
    ensures status !in KnownStatuses ==> t == status
  {
    match status
    case "admitted" => "Admitted \U{1F389}"
    case "accepted" => "Accepted \U{2705}"
    case "rejected" => "Not Admitted"
    case "declined" => "Declined"
    case "waiting-list" => "Waiting List"
    case "pending" => "Under Review"
    case _ => status
  }

  /** The six known statuses are told apart by their labels. */
  lemma StatusTextDistinct(a: string, b: string)
    requires a in KnownStatuses && b in KnownStatuses && a != b
    ensures StatusText(a) != StatusText(b)
  {
  }

  predicate IsAdmitted(app: Application) {
    app.status == "admitted"
  }

  predicate IsNotAdmitted(app: Application) {
    app.status != "admitted"
  }

  /** The admission offers. */
  function AdmittedApplications(apps: seq<Application>): seq<Application> {
    Filter(IsAdmitted, apps)
  }

  /** The other applications. */
  function OtherApplications(apps: seq<Application>): seq<Application> {
    Filter(IsNotAdmitted, apps)
  }

  /** The two lists split the applications: every application is in exactly
      one of them, as often as in the whole list, and each list keeps the
      order of the applications it holds. */
  lemma PartitionOfApplications(apps: seq<Application>)
    ensures |AdmittedApplications(apps)| + |OtherApplications(apps)| == |apps|
    ensures multiset(AdmittedApplications(apps)) + multiset(OtherApplications(apps)) == multiset(apps)
    ensures forall a :: a in apps ==> (a in AdmittedApplications(apps) <==> a !in OtherApplications(apps))
    ensures forall xs, ys :: apps == xs + ys ==>
      AdmittedApplications(apps) == AdmittedApplications(xs) + AdmittedApplications(ys) &&
      OtherApplications(apps) == OtherApplications(xs) + OtherApplications(ys)
  {
    FilterPartition(IsAdmitted, IsNotAdmitted, apps);
    forall xs, ys | apps == xs + ys
      ensures AdmittedApplications(apps) == AdmittedApplications(xs) + AdmittedApplications(ys)
      ensures OtherApplications(apps) == OtherApplications(xs) + OtherApplications(ys)
    {
      FilterConcat(IsAdmitted, xs, ys);
      FilterConcat(IsNotAdmitted, xs, ys);
    }
  }

  datatype OfferAction = Accept | Decline

  /** The buttons next to an application: an offer can be accepted or
      declined; any other application has none. */
  function OfferActions(app: Application): (acts: seq<OfferAction>)
    ensures |acts| > 0 <==> app.status == "admitted"
  {
    if IsAdmitted(app) then [Accept, Decline] else []
  }

  /** Exactly the offers in the first list carry buttons. */
  lemma OfferActionsOnlyForOffers(apps: seq<Application>)
    ensures forall a :: a in AdmittedApplications(apps) ==> OfferActions(a) == [Accept, Decline]
    ensures forall a :: a in OtherApplications(apps) ==> OfferActions(a) == []
  {
  }
}
