/**
 * The admin's own profile page: the edit form's checks, the update request
 * it sends, what it shows after the update, and cancelling an edit.
 */
module AdminProfile {
  import opened Wrappers
  import opened Text
  import opened Patterns
  import opened Rules
  import opened Forms
  import AdminServices

  /** The basic profile the page shows; `id` is absent or `0` when the
      server sent none. */
  datatype AdminProfileView = AdminProfileView(
    id: Option<int>, firstName: string, lastName: string, phoneNumber: Option<string>, isActive: Option<bool>)

  /** The edit form. The employee details the form can be filled from may
      lack names or a phone (a staff record created without them), so
      those fields may be null. */
  datatype StaffForm = StaffForm(
    firstName: Option<string>, lastName: Option<string>, phoneNumber: Option<string>, isActive: bool)

  /** The form filled from the shown profile: a missing phone is empty and
      only an explicit `false` makes the account inactive. */
  function FormOf(p: AdminProfileView): (r: StaffForm)
    ensures r.firstName == Some(p.firstName) && r.lastName == Some(p.lastName)
    ensures r.phoneNumber == Some(if p.phoneNumber.Some? then p.phoneNumber.value else "")
    ensures r.isActive <==> p.isActive != Some(false)
  {
    StaffForm(Some(p.firstName), Some(p.lastName), Some(p.phoneNumber.GetOr("")), p.isActive != Some(false))
  }

  /** What the checks of `handleSave` come to. */
  datatype SaveCheckResult = Pass | Fail(message: string) | Throws

  /** The checks of `handleSave` in their order: each field is trimmed when
      its check is reached, and `.trim()` on a null field throws there. */
  function SaveCheck(f: StaffForm): (c: SaveCheckResult)
    ensures var checks := StaffEditChecks(f.firstName.GetOr(""), f.lastName.GetOr(""), f.phoneNumber.GetOr(""));
      (c.Pass? <==> FirstFailure(checks).None?)
      && (c.Pass? ==> f.firstName.Some? && f.lastName.Some? && f.phoneNumber.Some?)
      && (c.Fail? ==> FirstFailure(checks) == Some(c.message))
    ensures c.Throws? <==>
      f.firstName.None?
      || (NameLengthOk(f.firstName.value) && f.lastName.None?)
      || (NameLengthOk(f.firstName.value) && NameLengthOk(f.lastName.value) && f.phoneNumber.None?)
  {
    var checks := StaffEditChecks(f.firstName.GetOr(""), f.lastName.GetOr(""), f.phoneNumber.GetOr(""));
    StaffEditChecksPass(f.firstName.GetOr(""), f.lastName.GetOr(""), f.phoneNumber.GetOr(""));
    if f.firstName.None? then
      Throws
    else if !NameLengthOk(f.firstName.value) then
      FirstFailureAt(checks, 0);
      Fail(checks[0].message)
    else if f.lastName.None? then
      Throws
    else if !NameLengthOk(f.lastName.value) then
      FirstFailureAt(checks, 1);
      Fail(checks[1].message)
    else if f.phoneNumber.None? then
      Throws
    else if !IsMobile(Trim(f.phoneNumber.value)) then
      FirstFailureAt(checks, 2);
      Fail(checks[2].message)
    else
      Pass
  }

  /** `profile?.id` is truthy. */
  predicate HasId(p: AdminProfileView) {
    p.id.Some? && p.id.value != 0
  }

  class AdminProfilePage {
    var profile: Option<AdminProfileView>
    var form: Option<StaffForm>
    var error: Option<string>
    var isEditing: bool

    constructor ()
      ensures profile.None? && form.None? && error.None? && !isEditing
    {
      profile := None;
      form := None;
      error := None;
      isEditing := false;
    }

    /** The fetch: the basic profile is shown; the form takes the full
        employee details when the profile has an id and they could be
        fetched, and is filled from the basic profile otherwise. */
    method Loaded(basic: AdminProfileView, details: Option<StaffForm>)
      modifies this`profile, this`form, this`error
      ensures profile == Some(basic) && error.None?
      ensures form == Some(if HasId(basic) && details.Some? then details.value else FormOf(basic))
    {
      error := None;
      profile := Some(basic);
      if HasId(basic) && details.Some? {
        form := details;
      } else {
        form := Some(FormOf(basic));
      }
    }

    /** `handleSave`: without an id or a form nothing happens; otherwise
        the checks run in order. A null field reached by them throws before
        any state changes; the first failing check becomes the banner; when
        all pass the banner is cleared and the trimmed update is sent for
        the id. */
    method HandleSave() returns (request: Option<(int, AdminServices.UpdateEmployeeRequest)>, threw: bool)
      modifies this`error
      ensures !(old(profile).Some? && HasId(old(profile).value) && old(form).Some?) ==>
        request.None? && !threw && error == old(error)
      ensures old(profile).Some? && HasId(old(profile).value) && old(form).Some? ==>
        var f := old(form).value;
        var c := SaveCheck(f);
        (threw <==> c.Throws?) && (request.Some? <==> c.Pass?)
        && (c.Throws? ==> error == old(error))
        && (c.Fail? ==> error == Some(c.message))
        && (request.Some? ==>
              error.None? && request.value.0 == old(profile).value.id.value
              && request.value.1 == AdminServices.UpdateEmployeeRequest(
                   Trim(f.firstName.value), Trim(f.lastName.value), Trim(f.phoneNumber.value), f.isActive))
    {
      threw := false;
      if profile.None? || !HasId(profile.value) || form.None? {
        return None, false;
      }
      var f := form.value;
      var c := SaveCheck(f);
      match c
      case Throws =>
        return None, true;
      case Fail(message) =>
        error := Some(message);
        return None, false;
      case Pass =>
        error := None;
        request := Some((profile.value.id.value,
          AdminServices.UpdateEmployeeRequest(Trim(f.firstName.value), Trim(f.lastName.value), Trim(f.phoneNumber.value), f.isActive)));
    }

    /** After the update the shown profile takes the returned names, phone
        and active flag, keeps its id, and editing ends. */
    method Updated(updated: AdminServices.EmployeeDetails)
      requires profile.Some?
      modifies this`profile, this`isEditing
      ensures profile == Some(old(profile).value.(
        firstName := updated.firstName, lastName := updated.lastName,
        phoneNumber := Some(updated.phone), isActive := Some(updated.isActive)))
      ensures !isEditing
    {
      profile := Some(profile.value.(
        firstName := updated.firstName, lastName := updated.lastName,
        phoneNumber := Some(updated.phone), isActive := Some(updated.isActive)));
      isEditing := false;
    }

    /** Cancel: editing ends, the banner is cleared and, when a profile is
        shown, the form is filled from it. */
    method Cancel()
      modifies this`isEditing, this`error, this`form
      ensures !isEditing && error.None?
      ensures form == if old(profile).Some? then Some(FormOf(old(profile).value)) else old(form)
    {
      isEditing := false;
      error := None;
      if profile.Some? {
        form := Some(FormOf(profile.value));
      }
    }
  }

  /** A phone number the page accepts reaches the stored record as sent:
      Java's trim leaves a mobile number alone. */
  lemma AcceptedPhoneStoredAsSent(phone: string)
    requires IsMobile(Trim(phone))
    ensures JavaTrim(Trim(phone)) == Trim(phone)
  {
    var p := Trim(phone);
    assert !Dropped(Java, p[0]) && !Dropped(Java, p[|p| - 1]) by {
      assert p[|p| - 1] == p[2..][|p| - 3];
    }
    StripUnchanged(p, Java);
  }
}
