/**
 * The dashboard of an institution: course and application counts, pending
 * applications and the admissions tile.
 */
module InstitutionDashboard {
  import opened Wrappers
  import opened Lists
  import Statuses

  datatype Application = Application(status: string)

  /** `list?.length || 0` */
  function CountOf<T>(list: Option<seq<T>>): (n: nat)
    ensures list.None? ==> n == 0
    ensures list.Some? ==> n == |list.value|
  {
    if list.Some? then |list.value| else 0
  }

  predicate IsPending(app: Application) {
    app.status == "pending"
  }

  /** The applications awaiting a decision. */
  function PendingApplications(apps: Option<seq<Application>>): (n: nat)
    ensures n <= CountOf(apps)
    ensures apps.Some? ==> (n == 0 <==> forall i :: 0 <= i < |apps.value| ==> !IsPending(apps.value[i]))
  {
    if apps.Some? then
      FilterEmpty(IsPending, apps.value);
      |Filter(IsPending, apps.value)|
    else 0
  }

  /** The admissions tile: its text and badge class. `admissionsOpen` is
      `None` when the profile or the flag is missing. */
  function AdmissionsTile(admissionsOpen: Option<bool>): (tile: (string, string))
    ensures tile.0 == "Open" <==> admissionsOpen == Some(true)
    ensures tile.0 == "Open" ==> tile.1 == Statuses.Success
    ensures tile.0 != "Open" ==> tile == ("Closed", Statuses.Warning)
  {
    if admissionsOpen == Some(true) then ("Open", Statuses.Success) else ("Closed", Statuses.Warning)
  }
}
