/**
 * The forgot-password form: a required e-mail of the accepted shape; the
 * one-time code is requested only for such an e-mail.
 */
module ForgotPassword {
  import opened Wrappers
  import opened Text
  import opened Patterns
  import opened Rules
  import opened Forms

  /** `validate`: the "required" check on the trimmed input, then the
      shape of the input as typed. */
  function Validate(email: string): (r: Option<string>)
    ensures r.None? <==> EmailShape(email)
    ensures Trim(email) == "" ==> r == Some("Email is required.")
    ensures Trim(email) != "" && !EmailShape(email) ==> r == Some("Enter a valid email address.")
  {
    EmailChecksPass(email, "Enter a valid email address.");
    var rules := EmailChecks(email, "Enter a valid email address.");
    FirstFailure(rules)
  }

  /** `handleSubmit`: `forgotPassword` receives the e-mail as typed. */
  function HandleSubmit(email: string): (s: Submission<string>)
    ensures s.Sent? <==> EmailShape(email)
    ensures s.Rejected? ==> Validate(email) == Some(s.message)
    ensures s.Sent? ==> s.payload == email
  {
    match Validate(email)
    case Some(m) => Rejected(m)
    case None => Sent(email)
  }
}
