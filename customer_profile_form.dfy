/**
 * The customer's profile page: editing the first name, last name and phone
 * number, their validation, the trimmed update request, and cancelling an
 * edit.
 */
module CustomerProfileForm {
  import opened Wrappers
  import opened Text
  import opened Patterns

  /** The profile fields the page edits, as the server returned them. */
  datatype ProfileView = ProfileView(firstName: Option<string>, lastName: Option<string>, phoneNumber: Option<string>)

  datatype ProfileForm = ProfileForm(firstName: string, lastName: string, phoneNumber: string)

  datatype ProfileField = FirstName | LastName | PhoneNumber

  /** The update request: every field trimmed. */
  datatype ProfileUpdateRequest = ProfileUpdateRequest(firstName: string, lastName: string, phoneNumber: string)

  /** The form filled from a profile, a missing field left empty. */
  function FormOf(p: ProfileView): (r: ProfileForm)
    ensures r.firstName == (if p.firstName.Some? then p.firstName.value else "")
    ensures r.lastName == (if p.lastName.Some? then p.lastName.value else "")
    ensures r.phoneNumber == (if p.phoneNumber.Some? then p.phoneNumber.value else "")
  {
    ProfileForm(p.firstName.GetOr(""), p.lastName.GetOr(""), p.phoneNumber.GetOr(""))
  }

  /** A name of 2..50 characters after trimming. */
  predicate NameOk(s: string) {
    2 <= |Trim(s)| <= 50
  }

  /** A form `validate` accepts. */
  predicate Clean(f: ProfileForm) {
    NameOk(f.firstName) && NameOk(f.lastName) && IsMobile(Trim(f.phoneNumber))
  }

  /** `validate`: for each field, "required" when blank, otherwise the
      field's rule; accepts when no field has a message. */
  method Validate(f: ProfileForm) returns (errors: map<ProfileField, string>, ok: bool)
    ensures FirstName in errors <==> !NameOk(f.firstName)
    ensures FirstName in errors ==>
      errors[FirstName] == (if Trim(f.firstName) == "" then "First name is required" else "First name must be between 2-50 characters")
    ensures LastName in errors <==> !NameOk(f.lastName)
    ensures LastName in errors ==>
      errors[LastName] == (if Trim(f.lastName) == "" then "Last name is required" else "Last name must be between 2-50 characters")
    ensures PhoneNumber in errors <==> !IsMobile(Trim(f.phoneNumber))
    ensures PhoneNumber in errors ==>
      errors[PhoneNumber] == (if Trim(f.phoneNumber) == "" then "Phone number is required" else PhonePatternMessage)
    ensures ok <==> Clean(f)
  {
    errors := map[];
    var first := Trim(f.firstName);
    if first == "" {
      errors := errors[FirstName := "First name is required"];
    } else if |first| < 2 || |first| > 50 {
      errors := errors[FirstName := "First name must be between 2-50 characters"];
    }
    var last := Trim(f.lastName);
    if last == "" {
      errors := errors[LastName := "Last name is required"];
    } else if |last| < 2 || |last| > 50 {
      errors := errors[LastName := "Last name must be between 2-50 characters"];
    }
    var phone := Trim(f.phoneNumber);
    if phone == "" {
      errors := errors[PhoneNumber := "Phone number is required"];
    } else if !IsMobile(phone) {
      errors := errors[PhoneNumber := PhonePatternMessage];
    }
    ok := |errors| == 0;
    NoErrors(errors);
  }

  const PhonePatternMessage := "Invalid phone number format. Must be: 07XXXXXXXX (10 digits starting with 07)"

  /** `Object.keys(errors).length === 0` holds exactly when no field has a
      message. */
  lemma NoErrors(errors: map<ProfileField, string>)
    ensures |errors| == 0 <==> FirstName !in errors && LastName !in errors && PhoneNumber !in errors
  {
    if |errors| != 0 {
      assert errors != map[];
      var k :| k in errors;
      match k
      case FirstName =>
      case LastName =>
      case PhoneNumber =>
    }
  }

  /** The page's state. */
  class ProfilePage {
    var profile: Option<ProfileView>
    var form: ProfileForm
    var formErrors: map<ProfileField, string>
    var isEditing: bool
    var error: Option<string>
    var success: bool

    constructor ()
      ensures profile.None? && form == ProfileForm("", "", "") && formErrors == map[]
      ensures !isEditing && error.None? && !success
    {
      profile := None;
      form := ProfileForm("", "", "");
      formErrors := map[];
      isEditing := false;
      error := None;
      success := false;
    }

    /** The fetch clears the banner; the fetched profile is shown and fills
        the form. */
    method Loaded(data: ProfileView)
      modifies this`profile, this`form, this`error
      ensures profile == Some(data) && form == FormOf(data) && error.None?
    {
      error := None;
      profile := Some(data);
      form := FormOf(data);
    }

    /** `handleSave`: clears the banner and the success flag, records the
        field messages, and yields the trimmed request only when the form
        is accepted. */
    method HandleSave() returns (request: Option<ProfileUpdateRequest>)
      modifies this`error, this`success, this`formErrors
      ensures error.None? && !success
      ensures request.Some? <==> Clean(form)
      ensures request.Some? <==> formErrors == map[]
      ensures FirstName in formErrors <==> !NameOk(form.firstName)
      ensures FirstName in formErrors ==>
        formErrors[FirstName] == (if Trim(form.firstName) == "" then "First name is required" else "First name must be between 2-50 characters")
      ensures LastName in formErrors <==> !NameOk(form.lastName)
      ensures LastName in formErrors ==>
        formErrors[LastName] == (if Trim(form.lastName) == "" then "Last name is required" else "Last name must be between 2-50 characters")
      ensures PhoneNumber in formErrors <==> !IsMobile(Trim(form.phoneNumber))
      ensures PhoneNumber in formErrors ==>
        formErrors[PhoneNumber] == (if Trim(form.phoneNumber) == "" then "Phone number is required" else PhonePatternMessage)
      ensures request.Some? ==> request.value == ProfileUpdateRequest(Trim(form.firstName), Trim(form.lastName), Trim(form.phoneNumber))
      ensures request.Some? ==> IsMobile(request.value.phoneNumber) && 2 <= |request.value.firstName| <= 50 && 2 <= |request.value.lastName| <= 50
    {
      error := None;
      success := false;
      var errors, ok := Validate(form);
      formErrors := errors;
      if !ok {
        assert formErrors != map[] by { NoErrors(errors); }
        return None;
      }
      NoErrors(errors);
      assert formErrors == map[];
      request := Some(ProfileUpdateRequest(Trim(form.firstName), Trim(form.lastName), Trim(form.phoneNumber)));
    }

    /** The server's updated profile is shown and editing ends; the form
        keeps what was typed. */
    method Saved(updated: ProfileView)
      modifies this`profile, this`success, this`isEditing
      ensures profile == Some(updated) && success && !isEditing
    {
      profile := Some(updated);
      success := true;
      isEditing := false;
    }

    /** `handleCancel`: leaves editing, clears the banner and the field
        messages, and restores the form from the shown profile if any. */
    method HandleCancel()
      modifies this`isEditing, this`error, this`formErrors, this`form
      ensures !isEditing && error.None? && formErrors == map[]
      ensures form == if old(profile).Some? then FormOf(old(profile).value) else old(form)
    {
      isEditing := false;
      error := None;
      formErrors := map[];
      if profile.Some? {
        form := FormOf(profile.value);
      }
    }
  }

  /** Cancelling after loading a profile brings the form back to it,
      whatever was typed in between. */
  method CancelRestoresLoaded(page: ProfilePage, data: ProfileView, typed: ProfileForm)
    modifies page
    ensures page.form == FormOf(data) && !page.isEditing && page.formErrors == map[]
  {
    page.Loaded(data);
    page.form := typed;
    page.HandleCancel();
  }
}
