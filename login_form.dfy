/**
 * The login form: an e-mail of the accepted shape and a password of at
 * least four characters; after a successful login, a first login goes to
 * the password change page and every other one to the role's dashboard.
 */
module LoginForm {
  import opened Wrappers
  import opened Patterns
  import opened Rules
  import opened Forms

  datatype Credentials = Credentials(email: string, password: string)

  datatype Route = ChangePasswordPage | AdminDashboard | EmployeeDashboard | CustomerDashboard
  {
    function Path(): string {
      match this
      case ChangePasswordPage => "/change-password"
      case AdminDashboard => "/admin-dashboard"
      case EmployeeDashboard => "/employee-dashboard"
      case CustomerDashboard => "/customer-dashboard"
    }
  }

  /** `validate`'s chain. The password rule's message names six characters
      while the test is for four. */
  function Checks(c: Credentials): seq<Rule> {
    EmailChecks(c.email, "Enter a valid email address.")
    + [Rule(|c.password| >= 4, "Password must be at least 6 characters.")]
  }

  /** `validate`: null exactly for an e-mail of the accepted shape and a
      password of four characters or more. */
  function Validate(c: Credentials): (r: Option<string>)
    ensures r.None? <==> EmailShape(c.email) && |c.password| >= 4
    ensures r.Some? ==> exists i: nat :: FailsFirstAt(Checks(c), i, r.value)
  {
    var e, p := EmailChecks(c.email, "Enter a valid email address."),
      [Rule(|c.password| >= 4, "Password must be at least 6 characters.")];
    FirstFailureAppend(e, p);
    EmailChecksPass(c.email, "Enter a valid email address.");
    assert FirstFailure(p).None? <==> p[0].passes;
    FirstFailure(Checks(c))
  }

  /** Passwords of four and five characters are accepted although the
      message asks for six. */
  lemma ShortPasswordsAccepted(c: Credentials)
    requires EmailShape(c.email) && 4 <= |c.password| <= 5
    ensures Validate(c).None?
  {
  }

  /** `handleSubmit`: `login` is called only with valid credentials. */
  function HandleSubmit(c: Credentials): (s: Submission<Credentials>)
    ensures s.Sent? <==> Validate(c).None?
    ensures s.Rejected? ==> Validate(c) == Some(s.message)
    ensures s.Sent? ==> s.payload == c
  {
    match Validate(c)
    case Some(m) => Rejected(m)
    case None => Sent(c)
  }

  /** `goByRole`: ADMIN and EMPLOYEE have their own dashboards; any other
      role string lands on the customer dashboard. */
  function GoByRole(role: string): (r: Route)
    ensures r != ChangePasswordPage
    ensures r == AdminDashboard <==> role == "ADMIN"
    ensures r == EmployeeDashboard <==> role == "EMPLOYEE"
  {
    if role == "ADMIN" then AdminDashboard
    else if role == "EMPLOYEE" then EmployeeDashboard
    else CustomerDashboard
  }

  /** Where a successful login leads. */
  function AfterLogin(isFirstLogin: bool, role: string): (r: Route)
    ensures r == ChangePasswordPage <==> isFirstLogin
    ensures !isFirstLogin ==> r == GoByRole(role)
  {
    if isFirstLogin then ChangePasswordPage else GoByRole(role)
  }
}
