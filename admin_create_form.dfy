/**
 * The add-admin form: a required e-mail of the accepted shape; the other
 * fields are optional and sent trimmed, or left out when blank.
 */
module AdminCreateForm {
  import opened Wrappers
  import opened Text
  import opened Patterns
  import opened Rules
  import opened Forms

  datatype AdminFields = AdminFields(email: string, firstName: string, lastName: string, phone: string)

  /** `validate`. */
  function Validate(f: AdminFields): (r: Option<string>)
    ensures r.None? <==> EmailShape(f.email)
    ensures Trim(f.email) == "" ==> r == Some("Email is required.")
    ensures Trim(f.email) != "" && !EmailShape(f.email) ==> r == Some("Please enter a valid email.")
  {
    EmailChecksPass(f.email, "Please enter a valid email.");
    var rules := EmailChecks(f.email, "Please enter a valid email.");
    FirstFailure(rules)
  }

  /** `handleSubmit`: `addAdmin` is called only for a valid e-mail, with
      the trimmed payload. */
  function HandleSubmit(f: AdminFields): (s: Submission<StaffPayload>)
    ensures s.Sent? <==> EmailShape(f.email)
    ensures s.Rejected? ==> Validate(f) == Some(s.message)
    ensures s.Sent? ==> s.payload == StaffPayloadOf(f.email, f.firstName, f.lastName, f.phone)
  {
    match Validate(f)
    case Some(m) => Rejected(m)
    case None => Sent(StaffPayloadOf(f.email, f.firstName, f.lastName, f.phone))
  }
}
