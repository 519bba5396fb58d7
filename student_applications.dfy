/**
 * The application review page of an institution: a pending application can
 * be admitted, rejected or put on the waiting list; any other one shows
 * "Decision made".
 */
module StudentApplications {
  import opened Statuses
  import Admissions

  const Pending: string := "pending"

  /** The statuses the review buttons of an application set. */
  function DecisionTargets(status: string): (targets: seq<string>)
    ensures status == Pending ==> targets == ["admitted", "rejected", "waiting-list"]
    ensures status != Pending ==> targets == []
  {
    if status == Pending then ["admitted", "rejected", "waiting-list"] else []
  }

  /** "Decision made" is shown instead of the buttons. */
  predicate DecisionMade(status: string) {
    status != Pending
  }

  /** `getStatusColor` */
  function StatusColor(status: string): (c: string)
    ensures c in BadgeClasses
    ensures c == Success <==> status == "admitted"
    ensures c == Error <==> status == "rejected"
    ensures c == Warning <==> status == "waiting-list"
  {
    match status
    case "admitted" => Success
    case "rejected" => Error
    case "waiting-list" => Warning
    case _ => Info
  }

  /** Reviewing is a single step: every decision leaves `pending`, and from
      the status it reaches no further decision is offered. Each decision
      gets its own badge colour, none of them the neutral one. */
  lemma DecisionIsFinal(status: string)
    ensures forall t :: t in DecisionTargets(status) ==>
      DecisionMade(t) && DecisionTargets(t) == [] && StatusColor(t) != Info
    ensures DecisionMade(status) <==> DecisionTargets(status) == []
  {
  }

  /** The student's page colours the statuses an institution sets exactly as
      the review page does. */
  lemma ColoursAgreeWithStudentPage(status: string)
    requires status in ["pending", "admitted", "rejected", "waiting-list"]
    ensures StatusColor(status) == Admissions.StatusColor(status)
  {
  }
}
