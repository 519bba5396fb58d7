/**
 * The reports page of the administrator: user counts by role and by
 * verification, the most recent registrations, and the admissions switch.
 */
module SystemReports {
  import opened Wrappers
  import opened Lists

  datatype User = User(name: string, role: string, isVerified: bool)

  datatype UserStats = UserStats(students: nat, institutions: nat, companies: nat, verified: nat, unverified: nat)

  predicate IsStudent(u: User) { u.role == "student" }
  predicate IsInstitution(u: User) { u.role == "institution" }
  predicate IsCompany(u: User) { u.role == "company" }
  predicate IsVerified(u: User) { u.isVerified }
  predicate IsUnverified(u: User) { !u.isVerified }

  /** `userStats`: each figure counts the users it names. */
  function Stats(users: seq<User>): (st: UserStats)
    ensures st.students <= |users| && st.institutions <= |users| && st.companies <= |users|
  {
    UserStats(
      |Filter(IsStudent, users)|,
      |Filter(IsInstitution, users)|,
      |Filter(IsCompany, users)|,
      |Filter(IsVerified, users)|,
      |Filter(IsUnverified, users)|)
  }

  /** The "Total Users" figure: students, institutions and companies. */
  function DisplayedTotal(st: UserStats): (n: nat)
    ensures n >= st.students && n >= st.institutions && n >= st.companies
    ensures n == 0 <==> st.students == 0 && st.institutions == 0 && st.companies == 0
  {
    st.students + st.institutions + st.companies
  }

  predicate IsListed(u: User) { IsStudent(u) || IsInstitution(u) || IsCompany(u) }
  predicate IsOther(u: User) { !IsListed(u) }

  /** Every user is verified or not: the two counts add up to the number of
      users. */
  lemma VerifiedSplit(users: seq<User>)
    ensures Stats(users).verified + Stats(users).unverified == |users|
  {
    FilterPartition(IsVerified, IsUnverified, users);
  }

  /** The displayed total counts the users of the three listed roles; users
      of any other role (administrators) are left out, so it falls short of
      the number of users by exactly their number. */
  lemma DisplayedTotalExcludesOthers(users: seq<User>)
    ensures DisplayedTotal(Stats(users)) + |Filter(IsOther, users)| == |users|
    ensures DisplayedTotal(Stats(users)) <= |users|
    ensures (exists u :: u in users && u.role == "admin") ==> DisplayedTotal(Stats(users)) < |users|
  {
    var studentOrInstitution := (u: User) => IsStudent(u) || IsInstitution(u);
    FilterDisjoint(IsStudent, IsInstitution, studentOrInstitution, users);
    FilterDisjoint(studentOrInstitution, IsCompany, IsListed, users);
    FilterPartition(IsListed, IsOther, users);
    if u :| u in users && u.role == "admin" {
      assert u in Filter(IsOther, users);
    }
  }

  const RecentLimit: nat := 10

  /** `users.slice(0, 10)`: the first ten users, or all when there are fewer. */
  function RecentUsers(users: seq<User>): (r: seq<User>)
    ensures |r| == if |users| < RecentLimit then |users| else RecentLimit
    ensures forall i :: 0 <= i < |r| ==> r[i] == users[i]
  {
    if |users| < RecentLimit then users else users[..RecentLimit]
  }

  /** The message after the admissions switch was published. */
  function PublishMessage(action: string): (m: string)
    ensures m == "Admissions opened successfully" <==> action == "open"
    ensures m == "Admissions closed successfully" <==> action != "open"
  {
    if action == "open" then "Admissions opened successfully" else "Admissions closed successfully"
  }

  /** `selectedInstitutionId || undefined`: no institution selected means
      the switch applies to all institutions. */
  function InstitutionArgument(selected: string): (arg: Option<string>)
    ensures arg.None? <==> selected == ""
    ensures arg.Some? ==> arg.value == selected
  {
    if selected == "" then None else Some(selected)
  }
}
