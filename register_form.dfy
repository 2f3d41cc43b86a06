/**
 * The customer registration form: names, e-mail, phone and the shared
 * password policy, checked in that order; the request always asks for the
 * CUSTOMER role.
 */
module RegisterForm {
  import opened Wrappers
  import opened Text
  import opened Patterns
  import opened Rules
  import opened Forms

  datatype RegisterFields = RegisterFields(
    firstName: string, lastName: string, phone: string, email: string, password: string)

  datatype RegisterPayload = RegisterPayload(
    firstName: string, lastName: string, phone: string, email: string, password: string, role: string)

  function Names(f: RegisterFields): seq<Rule> {
    [Rule(Trim(f.firstName) != "", "First name is required."),
     Rule(Trim(f.lastName) != "", "Last name is required.")]
  }

  function Phone(f: RegisterFields): seq<Rule> {
    [Rule(Trim(f.phone) != "", "Phone number is required.")]
  }

  /** `validate`'s chain: names, e-mail, phone, password. */
  function Checks(f: RegisterFields): seq<Rule> {
    Names(f) + EmailChecks(f.email, "Enter a valid email address.") + Phone(f) + PasswordPolicy(f.password)
  }

  /** The first failure is found group by group, in source order. */
  lemma ChecksInOrder(f: RegisterFields)
    ensures var n, e, p, w := Names(f), EmailChecks(f.email, "Enter a valid email address."), Phone(f),
      PasswordPolicy(f.password);
      FirstFailure(Checks(f)) ==
        if FirstFailure(n).Some? then FirstFailure(n)
        else if FirstFailure(e).Some? then FirstFailure(e)
        else if FirstFailure(p).Some? then FirstFailure(p)
        else FirstFailure(w)
  {
    var n, e, p, w := Names(f), EmailChecks(f.email, "Enter a valid email address."), Phone(f),
      PasswordPolicy(f.password);
    FirstFailureAppend(n + e + p, w);
    FirstFailureAppend(n + e, p);
    FirstFailureAppend(n, e);
  }

  /** `validate`: null exactly when both names and the phone are not blank,
      the e-mail has the accepted shape and the password is strong. */
  function Validate(f: RegisterFields): (r: Option<string>)
    ensures r.None? <==>
      Trim(f.firstName) != "" && Trim(f.lastName) != "" && EmailShape(f.email)
      && Trim(f.phone) != "" && StrongPassword(f.password)
    ensures r.Some? ==> exists i: nat :: FailsFirstAt(Checks(f), i, r.value)
  {
    ChecksInOrder(f);
    EmailChecksPass(f.email, "Enter a valid email address.");
    PasswordPolicyPasses(f.password);
    var n := Names(f);
    assert FirstFailure(n).None? <==> n[0].passes && n[1].passes;
    assert FirstFailure(Phone(f)).None? <==> Phone(f)[0].passes;
    FirstFailure(Checks(f))
  }

  /** A weak password is only reported once everything before it passes. */
  lemma PasswordCheckedLast(f: RegisterFields)
    requires Trim(f.firstName) != "" && Trim(f.lastName) != "" && EmailShape(f.email) && Trim(f.phone) != ""
    ensures Validate(f) == FirstFailure(PasswordPolicy(f.password))
  {
    ChecksInOrder(f);
    EmailChecksPass(f.email, "Enter a valid email address.");
    var n := Names(f);
    assert FirstFailure(n).None? <==> n[0].passes && n[1].passes;
    assert FirstFailure(Phone(f)).None? <==> Phone(f)[0].passes;
  }

  /** `handleSubmit`: the fields go out as typed, with the role CUSTOMER. */
  function HandleSubmit(f: RegisterFields): (s: Submission<RegisterPayload>)
    ensures s.Sent? <==> Validate(f).None?
    ensures s.Rejected? ==> Validate(f) == Some(s.message)
    ensures s.Sent? ==> s.payload.role == "CUSTOMER" && s.payload.email == f.email && s.payload.password == f.password
    ensures s.Sent? ==>
      s.payload.firstName == f.firstName && s.payload.lastName == f.lastName && s.payload.phone == f.phone
  {
    match Validate(f)
    case Some(m) => Rejected(m)
    case None => Sent(RegisterPayload(f.firstName, f.lastName, f.phone, f.email, f.password, "CUSTOMER"))
  }
}
