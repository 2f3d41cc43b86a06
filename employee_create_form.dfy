/**
 * The add-employee form: per-field errors for the e-mail (required, then
 * the accepted shape) and for a non-empty phone (the loose phone pattern);
 * any field error shows one banner and sends nothing.
 */
module EmployeeCreateForm {
  import opened Wrappers
  import opened Text
  import opened Patterns
  import opened Forms

  datatype EmployeeFields = EmployeeFields(email: string, firstName: string, lastName: string, phone: string)

  datatype Field = EmailField | PhoneField

  const Banner := "Please fix the highlighted fields."

  /** `validate`: fills the field errors one check at a time and returns
      the banner when any was recorded. */
  method Validate(f: EmployeeFields) returns (fieldErrors: map<Field, string>, banner: Option<string>)
    ensures EmailField in fieldErrors <==> !EmailShape(f.email)
    ensures EmailField in fieldErrors ==>
      fieldErrors[EmailField] == (if Trim(f.email) == "" then "Email is required." else "Enter a valid email (e.g. name@domain.com).")
    ensures PhoneField in fieldErrors <==> f.phone != "" && !IsLoosePhone(f.phone)
    ensures PhoneField in fieldErrors ==> fieldErrors[PhoneField] == "Enter a valid phone number."
    ensures fieldErrors.Keys <= {EmailField, PhoneField}
    ensures banner.None? <==> EmailField !in fieldErrors && PhoneField !in fieldErrors
    ensures banner.Some? ==> banner.value == Banner
  {
    fieldErrors := map[];
    if Trim(f.email) == "" {
      ShapedEmailIsNotBlank(f.email);
      fieldErrors := fieldErrors[EmailField := "Email is required."];
    } else if !IsEmail(f.email) {
      fieldErrors := fieldErrors[EmailField := "Enter a valid email (e.g. name@domain.com)."];
    }
    if f.phone != "" && !IsLoosePhone(f.phone) {
      fieldErrors := fieldErrors[PhoneField := "Enter a valid phone number."];
    }
    if |fieldErrors| > 0 {
      assert fieldErrors != map[];
      banner := Some(Banner);
    } else {
      assert fieldErrors == map[];
      banner := None;
    }
  }

  /** A blank e-mail never has the accepted shape. */
  lemma ShapedEmailIsNotBlank(email: string)
    ensures Trim(email) == "" ==> !EmailShape(email)
  {
    if EmailShape(email) {
      ShapedEmailNotBlank(email);
    }
  }

  /** `handleSubmit`: `addEmployee` is called only without field errors,
      with the trimmed payload. */
  method HandleSubmit(f: EmployeeFields) returns (s: Submission<StaffPayload>)
    ensures s.Sent? <==> EmailShape(f.email) && (f.phone == "" || IsLoosePhone(f.phone))
    ensures s.Rejected? ==> s.message == Banner
    ensures s.Sent? ==> s.payload == StaffPayloadOf(f.email, f.firstName, f.lastName, f.phone)
  {
    var payload := StaffPayloadOf(f.email, f.firstName, f.lastName, f.phone);
    var fieldErrors, banner := Validate(f);
    if banner.Some? {
      assert !(EmailShape(f.email) && (f.phone == "" || IsLoosePhone(f.phone)));
      s := Rejected(banner.value);
    } else {
      assert EmailShape(f.email) && (f.phone == "" || IsLoosePhone(f.phone));
      s := Sent(payload);
    }
  }
}
