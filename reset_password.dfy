/**
 * The reset-password form: without a reset token nothing is checked or
 * sent; otherwise the new password must pass the shared policy and match
 * its confirmation.
 */
module ResetPassword {
  import opened Wrappers
  import opened Patterns
  import opened Rules
  import opened Forms

  datatype ResetForm = ResetForm(newPassword: string, confirmPassword: string)

  datatype ResetPayload = ResetPayload(resetToken: string, newPassword: string, confirmPassword: string)

  const MissingTokenMessage := "Reset token is missing. Please start the password reset process again."

  /** `validate`'s chain: presence, the policy, the match. */
  function Checks(f: ResetForm): seq<Rule> {
    [Rule(f.newPassword != "", "New password is required.")]
    + PasswordPolicy(f.newPassword)
    + [Rule(f.newPassword == f.confirmPassword, "Passwords do not match.")]
  }

  /** `validate`: null exactly for a strong, confirmed new password. */
  function Validate(f: ResetForm): (r: Option<string>)
    ensures r.None? <==> StrongPassword(f.newPassword) && f.newPassword == f.confirmPassword
    ensures r.Some? ==> exists i: nat :: FailsFirstAt(Checks(f), i, r.value)
  {
    var a, p, c := [Rule(f.newPassword != "", "New password is required.")], PasswordPolicy(f.newPassword),
      [Rule(f.newPassword == f.confirmPassword, "Passwords do not match.")];
    FirstFailureAppend(a + p, c);
    FirstFailureAppend(a, p);
    PasswordPolicyPasses(f.newPassword);
    assert FirstFailure(a).None? <==> a[0].passes;
    assert FirstFailure(c).None? <==> c[0].passes;
    FirstFailure(Checks(f))
  }

  /** `handleSubmit`: the token is checked before the passwords; the
      request goes out only with a token and a valid form. */
  function HandleSubmit(resetToken: string, f: ResetForm): (s: Submission<ResetPayload>)
    ensures resetToken == "" ==> s == Rejected(MissingTokenMessage)
    ensures s.Sent? <==> resetToken != "" && StrongPassword(f.newPassword) && f.newPassword == f.confirmPassword
    ensures resetToken != "" && s.Rejected? ==> Validate(f) == Some(s.message)
    ensures s.Sent? ==> s.payload == ResetPayload(resetToken, f.newPassword, f.confirmPassword)
  {
    if resetToken == "" then Rejected(MissingTokenMessage)
    else
      match Validate(f)
      case Some(m) => Rejected(m)
      case None => Sent(ResetPayload(resetToken, f.newPassword, f.confirmPassword))
  }
}
