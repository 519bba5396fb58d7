/**
 * The registration page: the role-specific data sent with a new account,
 * where the user goes once the account exists, and the messages shown when
 * registration or verification fails.
 */
module Register {
  import opened Wrappers
  import opened Text
  import opened AppRoutes
  import Header

  datatype RegisterForm = RegisterForm(
    email: string,
    password: string,
    name: string,
    role: string,
    phone: string,
    address: string)

  /** The form as the page opens: every field blank, the role `student`. */
  const InitialForm: RegisterForm := RegisterForm("", "", "", Student, "", "")

  /** `navigateByRole`: each known role to its dashboard, anything else home. */
  function NavigateByRole(role: string): (r: string)
    ensures role in Roles ==> r == DashboardPath(role)
    ensures role !in Roles ==> r == HomePath
  {
    DashboardPathsSpelled();
    if role == Student then "/student/dashboard"
    else if role == Institution then "/institution/dashboard"
    else if role == Company then "/company/dashboard"
    else if role == Admin then "/admin/dashboard"
    else HomePath
  }

  /** The page a user is sent to after registering is the header's dashboard
      link for that user, or home where the header has no link. */
  lemma NavigationAgreesWithHeader(role: string)
    ensures var link := Header.DashboardLink(Some(User(role)));
      NavigateByRole(role) == if link == Header.NoLink then HomePath else link
  {
  }

  /** Wherever the user is sent, the router shows them that page rather
      than redirecting them again. */
  lemma NavigationOpens(role: string)
    ensures Resolve(NavigateByRole(role), Some(User(role))) == Render
  {
    if role in Roles {
      DashboardAdmitsItsRole(role, role);
    }
  }

  /** Extra account data, by field name. */
  type Data = map<string, string>

  /** The data sent besides the account fields: the phone and address of a
      student, the address of an institution as its location with the type
      `university`, the phone of a company as its industry with the address
      as its location, and nothing for any other role. */
  function AdditionalData(form: RegisterForm): (d: Data)
    ensures form.role == Student ==>
      d.Keys == {"phone", "address"} && d["phone"] == form.phone && d["address"] == form.address
    ensures form.role == Institution ==>
      d.Keys == {"location", "type"} && d["location"] == form.address && d["type"] == "university"
    ensures form.role == Company ==>
      d.Keys == {"industry", "location"} && d["industry"] == form.phone && d["location"] == form.address
    ensures form.role !in [Student, Institution, Company] ==> d == map[]
    ensures forall k :: k in d ==> d[k] in {form.phone, form.address, "university"}
  {
    if form.role == Student then map["phone" := form.phone, "address" := form.address]
    else if form.role == Institution then map["location" := form.address, "type" := "university"]
    else if form.role == Company then map["industry" := form.phone, "location" := form.address]
    else map[]
  }

  /** An administrator registers with no additional data. */
  lemma AdminSendsNoData(form: RegisterForm)
    requires form.role == Admin
    ensures AdditionalData(form) == map[]
  {
  }

  datatype Request = Request(
    email: string,
    password: string,
    name: string,
    role: string,
    additionalData: Data)

  /** The registration request: the account fields as typed and the
      role-specific data. */
  function RegisterRequest(form: RegisterForm): (q: Request)
    ensures q.email == form.email && q.password == form.password
    ensures q.name == form.name && q.role == form.role
    ensures q.additionalData == AdditionalData(form)
  {
    Request(form.email, form.password, form.name, form.role, AdditionalData(form))
  }

  /** What the page shows next: another page, or the verification step. */
  datatype Next = Navigate(path: string) | VerificationStep

  /** After a successful registration: in development mode, or for an
      account that is already verified, the user goes to the page for the
      role the server returned; otherwise the code must be entered first. */
  function AfterRegister(developmentMode: bool, returnedRole: string, isVerified: bool): (n: Next)
    ensures n.Navigate? <==> developmentMode || isVerified
    ensures n.Navigate? ==> n.path == NavigateByRole(returnedRole)
  {
    if developmentMode || isVerified then Navigate(NavigateByRole(returnedRole)) else VerificationStep
  }

  /** A registration that skips verification lands on a page the new user
      may see. */
  lemma RegisteredUserLands(developmentMode: bool, returnedRole: string, isVerified: bool)
    requires developmentMode || isVerified
    ensures AfterRegister(developmentMode, returnedRole, isVerified).Navigate?
    ensures Resolve(AfterRegister(developmentMode, returnedRole, isVerified).path, Some(User(returnedRole))) == Render
  {
    NavigationOpens(returnedRole);
  }

  /** After verifying the code, or after the development bypass logs in:
      the page for the role the server returned, or for the role chosen on
      the form when the server gave none. */
  function AfterVerification(returnedRole: Option<string>, formRole: string): (path: string)
    ensures returnedRole.Some? && returnedRole.value != "" ==> path == NavigateByRole(returnedRole.value)
    ensures !(returnedRole.Some? && returnedRole.value != "") ==> path == NavigateByRole(formRole)
  {
    NavigateByRole(OrElse(returnedRole, formRole))
  }

  /** Verifying the code keeps the signed-in user from registration, whose
      role is `heldRole`. The page navigated to after verification is shown
      exactly when that role is the one the page was chosen for; a role that
      is none of the four is sent home, which is always shown. */
  lemma VerifiedUserLands(returnedRole: Option<string>, formRole: string, heldRole: string)
    ensures var role := OrElse(returnedRole, formRole);
      role in Roles ==>
        (Resolve(AfterVerification(returnedRole, formRole), Some(User(heldRole))) == Render <==> heldRole == role)
    ensures OrElse(returnedRole, formRole) !in Roles ==>
      Resolve(AfterVerification(returnedRole, formRole), Some(User(heldRole))) == Render
  {
    var role := OrElse(returnedRole, formRole);
    if role in Roles {
      if heldRole in Roles {
        DashboardAdmitsItsRole(role, heldRole);
      } else {
        DashboardAdmitsItsRole(role, role);
        UnknownRoleSeesNoProtectedPage(DashboardPath(role), heldRole);
      }
    }
  }

  // ------------------------------------------------------ the development bypass

  /** An argument given to `login(email, password)`: a string, or an object
      of named strings. */
  datatype LoginArg = TextArg(s: string) | ObjectArg(fields: map<string, string>)

  /** The body `login` sends, `JSON.stringify({ email, password })`: a
      missing (`undefined`) password drops its key. */
  function LoginBody(email: LoginArg, password: Option<string>): (b: map<string, LoginArg>)
    ensures "email" in b && b["email"] == email
    ensures "password" in b <==> password.Some?
    ensures password.Some? ==> b["password"] == TextArg(password.value)
    ensures b.Keys <= {"email", "password"}
  {
    if password.Some? then map["email" := email, "password" := TextArg(password.value)]
    else map["email" := email]
  }

  /** The login made by the development bypass as written: one object holding
      both credentials is passed as the `email` argument, and no password. */
  function DevBypassLoginAsWritten(form: RegisterForm): map<string, LoginArg> {
    LoginBody(ObjectArg(map["email" := form.email, "password" := form.password]), None)
  }

  /** That request carries no password, and its `email` is not the typed
      address: the credentials never reach the server as the login expects
      them. */
  lemma DevBypassLoginLosesCredentials(form: RegisterForm)
    ensures "password" !in DevBypassLoginAsWritten(form)
    ensures DevBypassLoginAsWritten(form)["email"] != TextArg(form.email)
  {
  }

  /** The login the bypass evidently means to make: the typed address and
      password as the two arguments. */
  function DevBypassLogin(form: RegisterForm): map<string, LoginArg> {
    LoginBody(TextArg(form.email), Some(form.password))
  }

  /** The corrected request sends exactly the typed address and password
      under their keys. */
  lemma DevBypassLoginSendsCredentials(form: RegisterForm)
    ensures DevBypassLogin(form).Keys == {"email", "password"}
    ensures DevBypassLogin(form)["email"] == TextArg(form.email)
    ensures DevBypassLogin(form)["password"] == TextArg(form.password)
  {
  }

  const RegisterFailed: string := "Something went wrong"
  const VerificationFailed: string := "Verification failed"
  const DevVerificationFailed: string := "Development verification failed"

  /** The error shown when a request fails: the server's error, else the
      error's own message, else the page's fallback text. */
  function ErrorMessage(serverError: Option<string>, message: Option<string>, fallback: string): (m: string)
    ensures serverError.Some? && serverError.value != "" ==> m == serverError.value
    ensures !(serverError.Some? && serverError.value != "") && message.Some? && message.value != "" ==>
      m == message.value
    ensures fallback != "" ==> m != ""
    ensures !(serverError.Some? && serverError.value != "") && !(message.Some? && message.value != "") ==>
      m == fallback
  {
    OrElse(serverError, OrElse(message, fallback))
  }
}
