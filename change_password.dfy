/**
 * The change-password form: the current (or temporary) password, the new
 * password under the shared policy, a new password different from the old
 * one, and a matching confirmation; the request is sent only when every
 * check passes.
 */
module ChangePassword {
  import opened Wrappers
  import opened Patterns
  import opened Rules
  import opened Forms

  datatype ChangePasswordForm = ChangePasswordForm(oldPassword: string, newPassword: string, confirmPassword: string)

  function OldRequiredMessage(isFirstLogin: bool): string {
    if isFirstLogin then "Temporary password is required." else "Current password is required."
  }

  function SamePasswordMessage(isFirstLogin: bool): string {
    if isFirstLogin then "New password must be different from your temporary password."
    else "New password must be different from current password."
  }

  /** The checks before the policy: both passwords present. */
  function Presence(f: ChangePasswordForm, isFirstLogin: bool): seq<Rule> {
    [Rule(f.oldPassword != "", OldRequiredMessage(isFirstLogin)),
     Rule(f.newPassword != "", "New password is required.")]
  }

  /** The checks after the policy: a different password, then the match. */
  function Agreement(f: ChangePasswordForm, isFirstLogin: bool): seq<Rule> {
    [Rule(f.oldPassword != f.newPassword, SamePasswordMessage(isFirstLogin)),
     Rule(f.newPassword == f.confirmPassword, "Passwords do not match.")]
  }

  /** `validate`'s chain, in source order. */
  function Checks(f: ChangePasswordForm, isFirstLogin: bool): seq<Rule> {
    Presence(f, isFirstLogin) + PasswordPolicy(f.newPassword) + Agreement(f, isFirstLogin)
  }

  /** The first failing check decides the message: presence, then policy,
      then agreement. */
  lemma ChecksInOrder(f: ChangePasswordForm, isFirstLogin: bool)
    ensures var a, p, c := Presence(f, isFirstLogin), PasswordPolicy(f.newPassword), Agreement(f, isFirstLogin);
      FirstFailure(Checks(f, isFirstLogin)) ==
        if FirstFailure(a).Some? then FirstFailure(a)
        else if FirstFailure(p).Some? then FirstFailure(p)
        else FirstFailure(c)
  {
    var a, p, c := Presence(f, isFirstLogin), PasswordPolicy(f.newPassword), Agreement(f, isFirstLogin);
    FirstFailureAppend(a + p, c);
    FirstFailureAppend(a, p);
  }

  /** `validate`: null exactly when the old password is given, the new one
      is strong and different from it, and the confirmation matches. */
  function Validate(f: ChangePasswordForm, isFirstLogin: bool): (r: Option<string>)
    ensures r.None? <==>
      f.oldPassword != "" && StrongPassword(f.newPassword)
      && f.oldPassword != f.newPassword && f.newPassword == f.confirmPassword
    ensures r.Some? ==> exists i: nat :: FailsFirstAt(Checks(f, isFirstLogin), i, r.value)
  {
    ChecksInOrder(f, isFirstLogin);
    PasswordPolicyPasses(f.newPassword);
    var a, c := Presence(f, isFirstLogin), Agreement(f, isFirstLogin);
    assert FirstFailure(a).None? <==> a[0].passes && a[1].passes;
    assert FirstFailure(c).None? <==> c[0].passes && c[1].passes;
    FirstFailure(Checks(f, isFirstLogin))
  }

  /** A missing old password is reported first, worded by the login kind. */
  lemma MissingOldPasswordFirst(f: ChangePasswordForm, isFirstLogin: bool)
    requires f.oldPassword == ""
    ensures Validate(f, isFirstLogin) == Some(OldRequiredMessage(isFirstLogin))
  {
    FirstFailureAt(Checks(f, isFirstLogin), 0);
  }

  /** A strong new password equal to the old one is refused before the
      confirmation is compared. */
  lemma SamePasswordRefused(f: ChangePasswordForm, isFirstLogin: bool)
    requires f.oldPassword != "" && StrongPassword(f.newPassword) && f.oldPassword == f.newPassword
    ensures Validate(f, isFirstLogin) == Some(SamePasswordMessage(isFirstLogin))
  {
    ChecksInOrder(f, isFirstLogin);
    PasswordPolicyPasses(f.newPassword);
    var a := Presence(f, isFirstLogin);
    assert FirstFailure(a).None? <==> a[0].passes && a[1].passes;
    FirstFailureAt(Agreement(f, isFirstLogin), 0);
  }

  /** `handleSubmit`: a validation message stops it; otherwise the three
      fields are sent as typed. */
  function HandleSubmit(f: ChangePasswordForm, isFirstLogin: bool): (s: Submission<ChangePasswordForm>)
    ensures s.Sent? <==> Validate(f, isFirstLogin).None?
    ensures s.Rejected? ==> Validate(f, isFirstLogin) == Some(s.message)
    ensures s.Sent? ==> s.payload == f
  {
    match Validate(f, isFirstLogin)
    case Some(m) => Rejected(m)
    case None => Sent(f)
  }
}
