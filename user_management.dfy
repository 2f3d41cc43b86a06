/**
 * The admin's user list: the create-user form, the search and role filter,
 * the role totals, the edit gate, the staff edit checks and the initials
 * avatar.
 */
module UserManagement {
  import opened Wrappers
  import opened Text
  import opened Patterns
  import opened Rules
  import opened Lists
  import opened Forms
  import opened Domain
  import AdminServices
  import AdminProfile

  // ---------------------------------------------------------- create form

  datatype CreateFields = CreateFields(email: string, firstName: string, lastName: string, phoneNumber: string)

  datatype CreateType = CreateEmployee | CreateAdmin

  const PhoneMessage := "Enter a valid phone number."

  /** The create form's chain: the e-mail checks, then a non-empty phone
      must have the loose phone shape. */
  function CreateChecks(f: CreateFields): seq<Rule> {
    EmailChecks(f.email, "Please enter a valid email.")
      + [Rule(f.phoneNumber == "" || IsLoosePhone(f.phoneNumber), PhoneMessage)]
  }

  /** `validate`: the first failing check's message, or none. */
  function Validate(f: CreateFields): (r: Option<string>)
    ensures r.None? <==> EmailShape(f.email) && (f.phoneNumber == "" || IsLoosePhone(f.phoneNumber))
    ensures Trim(f.email) == "" ==> r == Some("Email is required.")
    ensures Trim(f.email) != "" && !EmailShape(f.email) ==> r == Some("Please enter a valid email.")
    ensures EmailShape(f.email) && f.phoneNumber != "" && !IsLoosePhone(f.phoneNumber) ==> r == Some(PhoneMessage)
  {
    var email := EmailChecks(f.email, "Please enter a valid email.");
    var phone := [Rule(f.phoneNumber == "" || IsLoosePhone(f.phoneNumber), PhoneMessage)];
    EmailChecksPass(f.email, "Please enter a valid email.");
    FirstFailureAppend(email, phone);
    FirstFailure(email + phone)
  }

  /** The call the page makes for an accepted form. */
  datatype AddCall = AddEmployee(payload: StaffPayload) | AddAdmin(payload: StaffPayload)

  /** `handleSubmit` with `handleAddUser`: a rejected form shows its
      message; an accepted one is sent trimmed to the endpoint of the chosen
      kind. */
  function HandleSubmit(createType: CreateType, f: CreateFields): (s: Submission<AddCall>)
    ensures s.Sent? <==> Validate(f).None?
    ensures s.Rejected? ==> Validate(f) == Some(s.message)
    ensures s.Sent? ==>
      (s.payload.AddAdmin? <==> createType == CreateAdmin)
      && s.payload.payload == StaffPayloadOf(f.email, f.firstName, f.lastName, f.phoneNumber)
  {
    match Validate(f)
    case Some(m) => Submission.Rejected(m)
    case None =>
      var payload := StaffPayloadOf(f.email, f.firstName, f.lastName, f.phoneNumber);
      Submission.Sent(if createType == CreateAdmin then AddAdmin(payload) else AddEmployee(payload))
  }

  // ----------------------------------------------------------- the list

  /** A user as the list shows it; a missing text is empty, a missing id
      is None. */
  datatype UserRow = UserRow(id: Option<int>, name: string, email: string, role: string)

  /** The search matches the name or the e-mail, ignoring ASCII case; it is
      not trimmed. */
  predicate MatchesSearch(u: UserRow, searchTerm: string) {
    Includes(Lower(u.name), Lower(searchTerm)) || Includes(Lower(u.email), Lower(searchTerm))
  }

  predicate MatchesRole(u: UserRow, roleFilter: string) {
    roleFilter == "ALL" || Upper(u.role) == roleFilter
  }

  predicate Shown(u: UserRow, searchTerm: string, roleFilter: string) {
    MatchesSearch(u, searchTerm) && MatchesRole(u, roleFilter)
  }

  /** `filteredUsers`: the rows passing both tests, in list order. */
  function FilteredUsers(rows: seq<UserRow>, searchTerm: string, roleFilter: string): (r: seq<UserRow>)
    ensures |r| <= |rows|
    ensures forall i | 0 <= i < |r| :: r[i] in rows && Shown(r[i], searchTerm, roleFilter)
    ensures forall i | 0 <= i < |rows| && Shown(rows[i], searchTerm, roleFilter) :: rows[i] in r
  {
    Filter(rows, (u: UserRow) => Shown(u, searchTerm, roleFilter))
  }

  /** A single row is shown iff it matches. */
  lemma FilteredUsersOne(u: UserRow, searchTerm: string, roleFilter: string)
    ensures FilteredUsers([u], searchTerm, roleFilter) == if Shown(u, searchTerm, roleFilter) then [u] else []
  {
    FilterOne(u, (u: UserRow) => Shown(u, searchTerm, roleFilter));
  }

  /** The shown rows keep the list's order: filtering two consecutive
      parts of the list and joining the results is filtering the list. */
  lemma FilteredUsersInOrder(a: seq<UserRow>, b: seq<UserRow>, searchTerm: string, roleFilter: string)
    ensures FilteredUsers(a + b, searchTerm, roleFilter) == FilteredUsers(a, searchTerm, roleFilter) + FilteredUsers(b, searchTerm, roleFilter)
  {
    FilterAppend(a, b, (u: UserRow) => Shown(u, searchTerm, roleFilter));
  }

  /** The shown rows keep the list's duplicates: each matching row occurs
      as often as in the list, any other not at all. */
  lemma FilteredUsersDuplicates(rows: seq<UserRow>, searchTerm: string, roleFilter: string)
    ensures forall x :: multiset(FilteredUsers(rows, searchTerm, roleFilter))[x] == if Shown(x, searchTerm, roleFilter) then multiset(rows)[x] else 0
  {
    FilterMultiset(rows, (u: UserRow) => Shown(u, searchTerm, roleFilter));
  }

  /** An empty search with the ALL filter shows every user. */
  lemma FilteredEverything(rows: seq<UserRow>)
    ensures FilteredUsers(rows, "", "ALL") == rows
  {
    forall u: UserRow ensures Shown(u, "", "ALL") {
      IncludesEmpty(Lower(u.name));
    }
    FilterAll(rows, (u: UserRow) => Shown(u, "", "ALL"));
  }

  /** The search ignores ASCII case: searching the lower-cased text gives
      the same list. */
  lemma SearchIgnoresCase(rows: seq<UserRow>, searchTerm: string, roleFilter: string)
    ensures FilteredUsers(rows, Lower(searchTerm), roleFilter) == FilteredUsers(rows, searchTerm, roleFilter)
  {
    LowerIdempotent(searchTerm);
    FilterSame(rows, (u: UserRow) => Shown(u, Lower(searchTerm), roleFilter), (u: UserRow) => Shown(u, searchTerm, roleFilter));
  }

  /** A user whose e-mail contains the search text, in any ASCII case, is
      found. */
  lemma SearchFindsEmail(u: UserRow, searchTerm: string)
    requires Contains(u.email, searchTerm)
    ensures MatchesSearch(u, searchTerm)
  {
    LowerContains(u.email, searchTerm);
  }

  // ------------------------------------------------------------- totals

  datatype Totals = Totals(total: nat, customers: nat, employees: nat, admins: nat)

  function HasRole(role: string): UserRow -> bool {
    (u: UserRow) => Upper(u.role) == role
  }

  /** `totals`: all users, then those whose upper-cased role is CUSTOMER,
      EMPLOYEE and ADMIN. */
  function UserTotals(rows: seq<UserRow>): Totals {
    Totals(|rows|, Count(rows, HasRole("CUSTOMER")), Count(rows, HasRole("EMPLOYEE")), Count(rows, HasRole("ADMIN")))
  }

  /** No user is counted under two roles. */
  lemma TotalsWithinTotal(rows: seq<UserRow>)
    ensures var t := UserTotals(rows); t.customers + t.employees + t.admins <= t.total
  {
    DisjointCounts(rows, HasRole("CUSTOMER"), HasRole("EMPLOYEE"), HasRole("ADMIN"));
  }

  /** For rows the server sent, each user is under exactly one role, so
      the three totals add up to the total. */
  lemma {:induction false} TotalsOfServerRows(rows: seq<UserRow>)
    requires forall i | 0 <= i < |rows| :: exists r: Role :: rows[i].role == r.Name()
    ensures var t := UserTotals(rows); t.customers + t.employees + t.admins == t.total
  {
    if rows != [] {
      var r: Role :| rows[0].role == r.Name();
      assert Upper(r.Name()) == r.Name() by {
        UpperOfRoleName(r);
      }
      assert forall i | 0 <= i < |rows[1..]| :: exists r: Role :: rows[1..][i].role == r.Name() by {
        forall i | 0 <= i < |rows[1..]| ensures exists r: Role :: rows[1..][i].role == r.Name() {
          assert rows[1..][i] == rows[i + 1];
        }
      }
      TotalsOfServerRows(rows[1..]);
    }
  }

  lemma UpperOfRoleName(r: Role)
    ensures Upper(r.Name()) == r.Name()
  {
    var n := r.Name();
    forall i | 0 <= i < |n| ensures Upper(n)[i] == n[i] {
      assert 'A' <= n[i] <= 'Z';
    }
  }

  // ---------------------------------------------------------- editing

  const NotStaffMessage := "Only employees and admins can be edited here. Customers manage their own profiles."
  const NoIdMessage := "User ID not available. Please refresh the page."

  datatype EditStart = EditRefused(message: string) | LoadDetails(id: int)

  /** The guard of `handleEdit`: only EMPLOYEE and ADMIN rows, compared exactly, and only
      with a non-zero id, load the details. */
  function EditGate(u: UserRow): (r: EditStart)
    ensures r.LoadDetails? <==> (u.role == "EMPLOYEE" || u.role == "ADMIN") && u.id.Some? && u.id.value != 0
    ensures r.LoadDetails? ==> r.id == u.id.value
    ensures u.role != "EMPLOYEE" && u.role != "ADMIN" ==> r == EditRefused(NotStaffMessage)
    ensures (u.role == "EMPLOYEE" || u.role == "ADMIN") && !(u.id.Some? && u.id.value != 0) ==>
      r == EditRefused(NoIdMessage)
  {
    if u.role != "EMPLOYEE" && u.role != "ADMIN" then EditRefused(NotStaffMessage)
    else if u.id.None? || u.id.value == 0 then EditRefused(NoIdMessage)
    else LoadDetails(u.id.value)
  }

  /** For a role name the server sends, the edit gate agrees with the
      server's staff test. */
  lemma EditGateIsStaff(u: User, row: UserRow)
    requires row.role == u.role.Name() && row.id.Some? && row.id.value != 0
    ensures EditGate(row).LoadDetails? <==> IsStaff(u)
  {
  }

  /** The totals upper-case the role but the edit gate does not: a row with
      role "employee" is counted as an employee and still refused. */
  lemma LowerCaseStaffCountedButRefused(id: int)
    ensures var row := UserRow(Some(id), "", "", "employee");
      HasRole("EMPLOYEE")(row) && EditGate(row) == EditRefused(NotStaffMessage)
  {
    var row := UserRow(Some(id), "", "", "employee");
    assert Upper(row.role) == "EMPLOYEE";
  }

  /** The edit form; `isActive` may be missing. */
  datatype EditForm = EditForm(firstName: string, lastName: string, phoneNumber: string, isActive: Option<bool>)

  datatype SaveOutcome = NothingToSave | EditError(message: string) | Update(id: int, request: AdminServices.UpdateEmployeeRequest)

  /** What `handleSaveEmployee` decides: without an editing user with an
      id, or without a form, nothing happens; otherwise the first failing
      edit check is the message, and when all pass the trimmed values and
      `!!isActive` are sent. */
  function SaveDecision(editingUserId: Option<int>, form: Option<EditForm>): (r: SaveOutcome)
    ensures r.NothingToSave? <==> editingUserId.None? || editingUserId.value == 0 || form.None?
    ensures !r.NothingToSave? ==>
      var f := form.value;
      (r.Update? <==> NameLengthOk(f.firstName) && NameLengthOk(f.lastName) && IsMobile(Trim(f.phoneNumber)))
      && (r.EditError? ==> Some(r.message) == FirstFailure(StaffEditChecks(f.firstName, f.lastName, f.phoneNumber)))
      && (r.Update? ==>
            r.id == editingUserId.value
            && r.request == AdminServices.UpdateEmployeeRequest(
                 Trim(f.firstName), Trim(f.lastName), Trim(f.phoneNumber), f.isActive == Some(true)))
  {
    if editingUserId.None? || editingUserId.value == 0 || form.None? then NothingToSave
    else
      var f := form.value;
      StaffEditChecksPass(f.firstName, f.lastName, f.phoneNumber);
      match FirstFailure(StaffEditChecks(f.firstName, f.lastName, f.phoneNumber))
      case Some(m) => EditError(m)
      case None => Update(editingUserId.value, AdminServices.UpdateEmployeeRequest(
        Trim(f.firstName), Trim(f.lastName), Trim(f.phoneNumber), f.isActive == Some(true)))
  }

  /** The edit state of the page: the user being edited, the edit form and
      the edit banner. */
  class UserManagementPage {
    var editingUser: Option<UserRow>
    var editFormData: Option<EditForm>
    var editError: Option<string>

    constructor()
      ensures editingUser.None? && editFormData.None? && editError.None?
    {
      editingUser := None;
      editFormData := None;
      editError := None;
    }

    /** `editingUser?.id`. */
    function EditingId(): Option<int>
      reads this
    {
      if editingUser.Some? then editingUser.value.id else None
    }

    /** `handleEdit` up to the details request: a refused row gives its
        alert and changes nothing; an accepted one clears the banner and
        names the id to load. */
    method HandleEdit(u: UserRow) returns (alertMessage: Option<string>, load: Option<int>)
      modifies this`editError
      ensures EditGate(u).EditRefused? ==>
        alertMessage == Some(EditGate(u).message) && load.None? && editError == old(editError)
      ensures EditGate(u).LoadDetails? ==>
        alertMessage.None? && load == Some(EditGate(u).id) && editError.None?
    {
      match EditGate(u)
      case EditRefused(m) =>
        alertMessage, load := Some(m), None;
      case LoadDetails(id) =>
        editError := None;
        alertMessage, load := None, Some(id);
    }

    /** The loaded details open the edit form on the user. */
    method DetailsLoaded(u: UserRow, details: AdminServices.EmployeeDetails)
      modifies this`editingUser, this`editFormData
      ensures editingUser == Some(u)
      ensures editFormData == Some(EditForm(details.firstName, details.lastName, details.phone, Some(details.isActive)))
    {
      editingUser := Some(u);
      editFormData := Some(EditForm(details.firstName, details.lastName, details.phone, Some(details.isActive)));
    }

    /** `handleSaveEmployee` up to the update request: the banner shows the
        first failing check, is cleared when the update is sent, and is
        left alone when there is nothing to save. */
    method HandleSaveEmployee() returns (request: Option<(int, AdminServices.UpdateEmployeeRequest)>)
      modifies this`editError
      ensures var d := SaveDecision(old(EditingId()), old(editFormData));
        (d.NothingToSave? ==> request.None? && editError == old(editError))
        && (d.EditError? ==> request.None? && editError == Some(d.message))
        && (d.Update? ==> request == Some((d.id, d.request)) && editError.None?)
    {
      match SaveDecision(EditingId(), editFormData)
      case NothingToSave =>
        request := None;
      case EditError(m) =>
        editError := Some(m);
        request := None;
      case Update(id, req) =>
        editError := None;
        request := Some((id, req));
    }

    /** After the update the edit form closes. */
    method Saved()
      modifies this`editingUser, this`editFormData
      ensures editingUser.None? && editFormData.None?
    {
      editingUser := None;
      editFormData := None;
    }
  }

  /** Opening a staff member's record with valid details and saving it
      unchanged sends the update for that member's id. */
  method OpenAndSave(u: UserRow, details: AdminServices.EmployeeDetails)
    returns (request: Option<(int, AdminServices.UpdateEmployeeRequest)>)
    requires EditGate(u).LoadDetails?
    requires NameLengthOk(details.firstName) && NameLengthOk(details.lastName) && IsMobile(Trim(details.phone))
    ensures request.Some? && request.value.0 == u.id.value
    ensures request.value.1.isActive == details.isActive
  {
    var page := new UserManagementPage();
    var alertMessage, load := page.HandleEdit(u);
    page.DetailsLoaded(u, details);
    request := page.HandleSaveEmployee();
  }

  /** A sent update stores the phone number exactly as sent, and a name
      as sent whenever its first and last characters are above U+0020. */
  lemma SentUpdateStoredAsSent(editingUserId: Option<int>, form: Option<EditForm>, u: User)
    requires SaveDecision(editingUserId, form).Update?
    ensures var req := SaveDecision(editingUserId, form).request;
      var v := AdminServices.UpdatedEmployee(u, req);
      v.phone == req.phone
      && (PrintableEnds(req.firstName) ==> v.firstName == req.firstName)
      && (PrintableEnds(req.lastName) ==> v.lastName == req.lastName)
  {
    var f := form.value;
    AdminProfile.AcceptedPhoneStoredAsSent(f.phoneNumber);
    if PrintableEnds(Trim(f.firstName)) {
      PrintableEndsKept(Trim(f.firstName));
    }
    if PrintableEnds(Trim(f.lastName)) {
      PrintableEndsKept(Trim(f.lastName));
    }
  }

  predicate PrintableEnds(s: string) {
    s != [] ==> s[0] > ' ' && s[|s| - 1] > ' '
  }

  lemma PrintableEndsKept(s: string)
    requires PrintableEnds(s)
    ensures JavaTrim(s) == s
  {
    StripUnchanged(s, Java);
  }

  /** The browser's trim keeps a leading control character that the
      server's trim removes, so such a name passes the 2..50 check as three
      characters and is stored as two. */
  lemma ControlCharacterNameShortened()
    ensures var name := "\U{0001}Jo";
      NameLengthOk(name) && Trim(name) == name && JavaTrim(Trim(name)) == "Jo"
  {
    var name := "\U{0001}Jo";
    StripUnchanged(name, Js);
    assert StripStart(name, Java) == "Jo" by {
      assert name[1..] == "Jo";
    }
    StripUnchanged("Jo", Java);
    assert StripEnd("Jo", Java) == "Jo";
  }

  // ----------------------------------------------------------- initials

  /** The first characters of the first two words. */
  function Heads(words: seq<string>): (r: string)
    requires forall i | 0 <= i < |words| :: words[i] != []
    ensures |r| == if |words| < 2 then |words| else 2
    ensures forall i | 0 <= i < |r| :: r[i] == words[i][0]
  {
    if words == [] then ""
    else if |words| == 1 then [words[0][0]]
    else [words[0][0], words[1][0]]
  }

  /** The avatar text: the upper-cased first letters of the first two
      words of the name; an empty result is shown as "U". */
  function Initials(name: string): (r: string)
    ensures |r| <= 2
    ensures r == "" <==> Words(name) == []
  {
    var words := Words(name);
    assert forall i | 0 <= i < |words| :: words[i] in words;
    Upper(Heads(words))
  }

  function Avatar(name: string): (r: string)
    ensures r != ""
    ensures Words(name) == [] ==> r == "U"
    ensures Words(name) != [] ==> r == Initials(name)
  {
    var i := Initials(name);
    if i == "" then "U" else i
  }

  /** A two-word name gives the upper-cased first letter of each word. */
  lemma TwoWordInitials(first: string, last: string)
    requires first != "" && last != "" && ' ' !in first && ' ' !in last
    ensures Initials(first + " " + last) == [UpperChar(first[0]), UpperChar(last[0])]
  {
    SplitAt(first, ' ', last);
    SplitNoSeparator(last, ' ');
    assert first + " " + last == first + [' '] + last;
    assert Split(first + " " + last, ' ') == [first, last];
    assert NonEmpty([last]) == [last];
    assert Words(first + " " + last) == [first, last];
  }

  /** A one-word name gives its upper-cased first letter. */
  lemma OneWordInitials(word: string)
    requires word != "" && ' ' !in word
    ensures Initials(word) == [UpperChar(word[0])]
    ensures Avatar(word) == Initials(word)
  {
    SplitNoSeparator(word, ' ');
    assert Words(word) == [word];
  }
}
