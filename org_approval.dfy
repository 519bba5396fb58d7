/**
 * The approval lifecycle an administrator drives for institutions and for
 * companies; both pages offer the same buttons and colour the statuses the
 * same way. A pending organisation is approved or rejected, an approved one
 * can be suspended and a suspended one reactivated.
 */
module OrgApproval {
  import opened Statuses

  const Pending: string := "pending"
  const Approved: string := "approved"
  const Rejected: string := "rejected"
  const Suspended: string := "suspended"

  const Lifecycle: set<string> := {Pending, Approved, Rejected, Suspended}

  /** The statuses the buttons shown for an organisation set. */
  function Transitions(status: string): (next: seq<string>)
    ensures status == Pending ==> next == [Approved, Rejected]
    ensures status == Approved ==> next == [Suspended]
    ensures status == Suspended ==> next == [Approved]
    ensures status !in {Pending, Approved, Suspended} ==> next == []
  {
    match status
    case "pending" => [Approved, Rejected]
    case "approved" => [Suspended]
    case "suspended" => [Approved]
    case _ => []
  }

  /** `getStatusColor` */
  function StatusColor(status: string): (c: string)
    ensures c in BadgeClasses
    ensures c == Success <==> status == Approved
    ensures c == Warning <==> status == Pending
    ensures c == Error <==> status == Suspended || status == Rejected
    ensures c == Info <==> status !in Lifecycle
  {
    match status
    case "approved" => Success
    case "pending" => Warning
    case "suspended" => Error
    case "rejected" => Error
    case _ => Info
  }

  /** A run of status changes, each made with a button the page offers. */
  predicate IsRun(run: seq<string>) {
    forall i :: 0 < i < |run| ==> run[i] in Transitions(run[i - 1])
  }

  /** No button leads back to `pending`, and `rejected` has no way out. */
  lemma TransitionsShape(status: string)
    ensures Pending !in Transitions(status)
    ensures Transitions(Rejected) == []
    ensures forall t :: t in Transitions(status) ==> t in Lifecycle && t != status
  {
  }

  /** Along any run that starts in the lifecycle, every status stays in it,
      `pending` can only be the first, and a rejection ends the run. */
  lemma {:induction false} RunsStayInLifecycle(run: seq<string>)
    requires |run| > 0 && run[0] in Lifecycle && IsRun(run)
    ensures forall i :: 0 <= i < |run| ==> run[i] in Lifecycle
    ensures forall i :: 0 < i < |run| ==> run[i] != Pending
    ensures forall i :: 0 <= i < |run| - 1 ==> run[i] != Rejected
    decreases |run|
  {
    if |run| > 1 {
      var prefix := run[..|run| - 1];
      assert IsRun(prefix) by {
        forall i | 0 < i < |prefix|
          ensures prefix[i] in Transitions(prefix[i - 1])
        {
          assert prefix[i] == run[i] && prefix[i - 1] == run[i - 1];
        }
      }
      RunsStayInLifecycle(prefix);
      var n := |run| - 1;
      TransitionsShape(run[n - 1]);
      assert run[n] in Transitions(run[n - 1]);
    }
  }

  /** Once approved, an organisation alternates between approved and
      suspended for as long as it is managed here. */
  lemma {:induction false} ApprovedRunsAlternate(run: seq<string>)
    requires |run| > 0 && run[0] == Approved && IsRun(run)
    ensures forall i :: 0 <= i < |run| ==> run[i] == (if i % 2 == 0 then Approved else Suspended)
    decreases |run|
  {
    if |run| > 1 {
      var prefix := run[..|run| - 1];
      assert IsRun(prefix) by {
        forall i | 0 < i < |prefix|
          ensures prefix[i] in Transitions(prefix[i - 1])
        {
          assert prefix[i] == run[i] && prefix[i - 1] == run[i - 1];
        }
      }
      ApprovedRunsAlternate(prefix);
      var n := |run| - 1;
      assert run[n] in Transitions(run[n - 1]);
    }
  }
}
