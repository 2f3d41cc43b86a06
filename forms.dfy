/**
 * Checks and payload pieces several front-end forms share: the password
 * policy chain, the e-mail chain, the 2..50 name rule, the staff edit chain,
 * and the `value.trim() || undefined` optional field.
 */
module Forms {
  import opened Wrappers
  import opened Text
  import opened Patterns
  import opened Rules

  /** What a submit handler does: show a message and stop, or send. */
  datatype Submission<P> = Rejected(message: string) | Sent(payload: P)

  /** The password checks of registration, change and reset, in their
      order: length, lower case, upper case, digit, special character. */
  function PasswordPolicy(pw: string): seq<Rule> {
    [Rule(|pw| >= 8, "Password must be at least 8 characters."),
     Rule(HasLower(pw), "Password must contain at least one lowercase letter."),
     Rule(HasUpper(pw), "Password must contain at least one uppercase letter."),
     Rule(HasDigit(pw), "Password must contain at least one number."),
     Rule(HasSpecial(pw), "Password must contain at least one special character (@$!%*?&).")]
  }

  /** The policy chain passes exactly for strong passwords. */
  lemma PasswordPolicyPasses(pw: string)
    ensures FirstFailure(PasswordPolicy(pw)).None? <==> StrongPassword(pw)
  {
    var rules := PasswordPolicy(pw);
    if StrongPassword(pw) {
      forall i | 0 <= i < |rules| ensures rules[i].passes {
      }
    } else {
      assert !(rules[0].passes && rules[1].passes && rules[2].passes && rules[3].passes && rules[4].passes);
    }
  }

  /** `email.trim()` is required, then the whole input must match
      `^\S+@\S+\.\S+$`; `invalid` is the form's own wording. */
  function EmailChecks(email: string, invalid: string): seq<Rule> {
    [Rule(Trim(email) != "", "Email is required."), Rule(IsEmail(email), invalid)]
  }

  /** The e-mail chain passes exactly for e-mails of the accepted shape, and
      a blank input always gets the "required" message. */
  lemma EmailChecksPass(email: string, invalid: string)
    ensures FirstFailure(EmailChecks(email, invalid)).None? <==> EmailShape(email)
    ensures Trim(email) == "" ==> FirstFailure(EmailChecks(email, invalid)) == Some("Email is required.")
    ensures Trim(email) != "" && !EmailShape(email) ==> FirstFailure(EmailChecks(email, invalid)) == Some(invalid)
  {
    var rules := EmailChecks(email, invalid);
    if EmailShape(email) {
      ShapedEmailNotBlank(email);
      assert rules[0].passes && rules[1].passes;
    } else {
      assert !rules[1].passes;
    }
    if Trim(email) == "" {
      FirstFailureAt(rules, 0);
    } else if !EmailShape(email) {
      FirstFailureAt(rules, 1);
    }
  }

  /** An e-mail of the accepted shape is not blank. */
  lemma ShapedEmailNotBlank(email: string)
    requires EmailShape(email)
    ensures Trim(email) != ""
  {
    TrimEmptyIffBlank(email);
    assert !IsSpace(email[0]);
  }

  /** `s.trim()` has between 2 and 50 characters. */
  predicate NameLengthOk(s: string) {
    2 <= |Trim(s)| <= 50
  }

  /** The edit checks of an employee or admin record: both names 2..50
      trimmed characters, then a mobile number after trimming. */
  function StaffEditChecks(firstName: string, lastName: string, phone: string): seq<Rule> {
    [Rule(NameLengthOk(firstName), "First name must be between 2-50 characters"),
     Rule(NameLengthOk(lastName), "Last name must be between 2-50 characters"),
     Rule(IsMobile(Trim(phone)), "Invalid phone number format. Must be: 07XXXXXXXX (10 digits)")]
  }

  lemma StaffEditChecksPass(firstName: string, lastName: string, phone: string)
    ensures FirstFailure(StaffEditChecks(firstName, lastName, phone)).None? <==>
      NameLengthOk(firstName) && NameLengthOk(lastName) && IsMobile(Trim(phone))
  {
    var rules := StaffEditChecks(firstName, lastName, phone);
    if NameLengthOk(firstName) && NameLengthOk(lastName) && IsMobile(Trim(phone)) {
      forall i | 0 <= i < |rules| ensures rules[i].passes {
      }
    } else {
      assert !(rules[0].passes && rules[1].passes && rules[2].passes);
    }
  }

  /** `value.trim() || undefined`. */
  function Optional(value: string): (r: Option<string>)
    ensures r.None? <==> Trim(value) == ""
    ensures r.Some? ==> r.value == Trim(value) && r.value != ""
  {
    if Trim(value) == "" then None else Some(Trim(value))
  }

  /** The body of an add-employee or add-admin request. */
  datatype StaffPayload = StaffPayload(
    email: string, firstName: Option<string>, lastName: Option<string>, phone: Option<string>)

  /** The payload the create forms send: the trimmed e-mail and the trimmed
      optional fields, blank ones left out. */
  function StaffPayloadOf(email: string, firstName: string, lastName: string, phone: string): (p: StaffPayload)
    ensures p.email == Trim(email)
    ensures p.firstName == Optional(firstName) && p.lastName == Optional(lastName) && p.phone == Optional(phone)
  {
    StaffPayload(Trim(email), Optional(firstName), Optional(lastName), Optional(phone))
  }

  /** Every text the payload carries is trimmed and non-blank where
      optional. */
  lemma StaffPayloadTrimmed(email: string, firstName: string, lastName: string, phone: string)
    ensures var p := StaffPayloadOf(email, firstName, lastName, phone);
      Trim(p.email) == p.email
      && (p.firstName.Some? ==> Trim(p.firstName.value) == p.firstName.value != "")
      && (p.lastName.Some? ==> Trim(p.lastName.value) == p.lastName.value != "")
      && (p.phone.Some? ==> Trim(p.phone.value) == p.phone.value != "")
  {
    TrimIdempotent(email);
    TrimIdempotent(firstName);
    TrimIdempotent(lastName);
    TrimIdempotent(phone);
  }
}
