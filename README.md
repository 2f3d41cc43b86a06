# TechDrive service shop — verified model of its rules

TechDrive (GearSync) runs a vehicle service shop. Customers register, book service appointments for their
vehicles and request custom modification projects. Admins approve projects and assign employees to
appointments and projects. Employees log the time they spend on their assignments.

This project models two layers in Dafny:

* **The Spring services.** These are the state machines behind those workflows. They live in `AdminServices`,
  `AppointmentService`, `EmployeeTimeLogService`, `CustomerProfileService` and `TaskService`.
* **The React front end.** These are its input validators and decision functions: the sign-in and
  password forms, the customer profile and project forms, the time-log form, the OTP entry, the
  profile-picture store, and the admin pages for appointments, projects and users.

## Backend

The database is one value, `Domain.Db`: maps from ids to users, vehicles, catalog services,
appointments, projects and time logs, plus the next free id and a count of e-mails sent. `Storage.Store`
is the class that holds those maps as fields. Each service operation follows the same pattern:

* A ghost specification `XxxSpec(db, …)` returns an `Outcome`: the `Result` (the value, or a `Failure` with
  its kind and message) together with the new database.
* The spec lists the error cases in the source's order and states exactly when the call succeeds
  (`result.Ok? <==>` the guards).
* On success the spec gives the whole new state. On failure the state is unchanged.
* A `method` on the `Store` carries out the guards and the updates step by step. It is proved to end in
  exactly the outcome its spec describes.

Lemmas beside the specs show that each operation keeps the database constraints (`Domain.Valid`: unique
e-mails, ids issued by the generator, well-formed time logs). They also show that each operation keeps the
workflow invariant `Domain.Workflow`. The store methods require `Valid` and promise only their spec
equation; a caller that runs two operations in a row gets `Valid` back from these lemmas. The workflow
invariant says:

* a CONFIRMED appointment has an assignee, and a SCHEDULED one has none;
* a PENDING or REJECTED project has no assignee;
* every assignee is staff.

The error kinds are not-found, unauthorized, illegal-state, illegal-argument and duplicate. Time is
whole seconds and money is whole cents.

## Front end

The validators are ordered rule chains (`Rules.FirstFailure`). For each form the model states two things:

* the form passes exactly when every rule holds;
* a failing form reports the message of the first failing rule.

The form pages that update state step by step are classes whose methods change their fields:

* `AdminProfile.AdminProfilePage`
* `CustomerProfileForm.ProfilePage`
* `UserManagement.UserManagementPage`
* `VerifyOtp.OtpEntry`
* `ProfilePicture.PictureStore`

The time-log and create-employee validators fill an error dictionary entry by entry. They are methods that
build a `map`.

The list pages' filters and counters are functions over sequences of rows. The model relates the actions
each page offers to the backend rules that accept or refuse them.

## Model

| member | source | states |
|---|---|---|
| AdminServices.ActorCheck | backend/src/main/java/com/gearsync/backend/service/AdminServices.java:681-688 | passes iff the e-mail belongs to an ADMIN; unknown e-mail gives not-found, a non-admin gives unauthorized, with the caller's messages |
| AdminServices.CheckActor | backend/src/main/java/com/gearsync/backend/service/AdminServices.java:95-100 | the actor lookup on the store gives exactly `ActorCheck` of the current state |
| AdminServices.AssigneeCheck | backend/src/main/java/com/gearsync/backend/service/AdminServices.java:114-123 | passes iff the assignee exists, is EMPLOYEE or ADMIN and is active; each failure gives its own kind and message, in that order |
| AdminServices.AppendLine | backend/src/main/java/com/gearsync/backend/service/AdminServices.java:139-143 | the existing notes are a prefix of the result; empty notes give just the new note, otherwise the note follows a newline |
| AdminServices.AdminNoted | backend/src/main/java/com/gearsync/backend/service/AdminServices.java:135-144 | absent or empty admin notes leave the notes unchanged; otherwise the old notes are kept as a prefix |
| AdminServices.AssignedAppointment | backend/src/main/java/com/gearsync/backend/service/AdminServices.java:125-144 | stores the assignee, SCHEDULED becomes CONFIRMED and other statuses stay, finalCost changes only when given, notes appended; every other field unchanged |
| AdminServices.AssignEmployeeToAppointmentSpec | backend/src/main/java/com/gearsync/backend/service/AdminServices.java:90-155 | actor checks first; succeeds iff admin actor, appointment exists, status not COMPLETED/CANCELLED and eligible assignee; COMPLETED/CANCELLED give illegal-state; success writes the assigned appointment and counts one e-mail |
| AdminServices.AssignEmployeeToAppointment | backend/src/main/java/com/gearsync/backend/service/AdminServices.java:90-155 | the store update ends in exactly the outcome of `AssignEmployeeToAppointmentSpec` |
| AdminServices.ReassignAppointmentEmployee | backend/src/main/java/com/gearsync/backend/service/AdminServices.java:159-165 | reassigning has exactly the outcome of assigning |
| AdminServices.UnassignAppointmentSpec | backend/src/main/java/com/gearsync/backend/service/AdminServices.java:169-195 | succeeds iff admin actor, appointment exists and not IN_PROGRESS; clears the assignee, CONFIRMED goes back to SCHEDULED, other statuses unchanged |
| AdminServices.UnassignAppointmentEmployee | backend/src/main/java/com/gearsync/backend/service/AdminServices.java:169-195 | the store update ends in exactly the outcome of `UnassignAppointmentSpec` |
| AdminServices.ApproveAndAssignProjectSpec | backend/src/main/java/com/gearsync/backend/service/AdminServices.java:199-260 | succeeds iff admin actor, project exists, PENDING and eligible assignee; a non-PENDING status gives illegal-state naming it; success sets APPROVED, assignee, cost, hours, the completion date only when given, notes appended |
| AdminServices.ApproveAndAssignProject | backend/src/main/java/com/gearsync/backend/service/AdminServices.java:199-260 | the store update ends in exactly the outcome of `ApproveAndAssignProjectSpec` |
| AdminServices.RejectProjectSpec | backend/src/main/java/com/gearsync/backend/service/AdminServices.java:264-300 | succeeds iff admin actor, project exists and PENDING; sets REJECTED and always appends the rejection note to the description |
| AdminServices.RejectProject | backend/src/main/java/com/gearsync/backend/service/AdminServices.java:264-300 | the store update ends in exactly the outcome of `RejectProjectSpec` |
| AdminServices.AssignEmployeeToProjectSpec | backend/src/main/java/com/gearsync/backend/service/AdminServices.java:304-360 | succeeds iff admin actor, project exists, status APPROVED/IN_PROGRESS/ON_HOLD and eligible assignee; never changes status; sets assignee, cost, hours, notes appended |
| AdminServices.AssignEmployeeToProject | backend/src/main/java/com/gearsync/backend/service/AdminServices.java:304-360 | the store update ends in exactly the outcome of `AssignEmployeeToProjectSpec` |
| AdminServices.UnassignProjectSpec | backend/src/main/java/com/gearsync/backend/service/AdminServices.java:364-385 | succeeds iff admin actor, project exists and not IN_PROGRESS; clears only the assignee |
| AdminServices.UnassignProjectEmployee | backend/src/main/java/com/gearsync/backend/service/AdminServices.java:364-385 | the store update ends in exactly the outcome of `UnassignProjectSpec` |
| AdminServices.GetPendingAppointments | backend/src/main/java/com/gearsync/backend/service/AdminServices.java:548-556 | succeeds iff admin actor; returns, in increasing id order, exactly the appointments that are SCHEDULED and unassigned |
| AdminServices.Details | backend/src/main/java/com/gearsync/backend/service/AdminServices.java:586-608 | copies the employee's fields; completed counts never exceed assigned counts |
| AdminServices.EmployeeDetailsSpec | backend/src/main/java/com/gearsync/backend/service/AdminServices.java:572-611 | succeeds iff admin actor and the target is a staff member; a customer gives illegal-argument |
| AdminServices.GetEmployeeDetails | backend/src/main/java/com/gearsync/backend/service/AdminServices.java:572-611 | the counting loops compute exactly `EmployeeDetailsSpec` |
| AdminServices.AssignedAppointmentsStep | backend/src/main/java/com/gearsync/backend/service/AdminServices.java:582 | widening the id range by one adds one to the assigned count exactly when that id is assigned to the employee |
| AdminServices.CompletedAppointmentsStep | backend/src/main/java/com/gearsync/backend/service/AdminServices.java:585-587 | the same step for completed appointments |
| AdminServices.AssignedProjectsStep | backend/src/main/java/com/gearsync/backend/service/AdminServices.java:583 | the same step for assigned projects |
| AdminServices.CompletedProjectsStep | backend/src/main/java/com/gearsync/backend/service/AdminServices.java:589-591 | the same step for completed projects |
| AdminServices.UpdatedEmployee | backend/src/main/java/com/gearsync/backend/service/AdminServices.java:630-633 | stores Java-trimmed names and phone and the active flag; e-mail and role unchanged |
| AdminServices.UpdateEmployeeSpec | backend/src/main/java/com/gearsync/backend/service/AdminServices.java:615-638 | succeeds iff admin actor and the target is staff; writes the updated user and returns its details |
| AdminServices.UpdateEmployee | backend/src/main/java/com/gearsync/backend/service/AdminServices.java:615-638 | the store update ends in exactly the outcome of `UpdateEmployeeSpec` |
| AdminServices.UpdateUserKeepsActor | backend/src/main/java/com/gearsync/backend/service/AdminServices.java:630-635 | rewriting a user without touching e-mail and role keeps the database valid and the admin actors the same |
| AdminServices.AssignAppointmentKeepsWorkflow | backend/src/main/java/com/gearsync/backend/service/AdminServices.java:125-144 | appointment assignment keeps the workflow invariant |
| AdminServices.UnassignAppointmentKeepsWorkflow | backend/src/main/java/com/gearsync/backend/service/AdminServices.java:181-189 | appointment unassignment keeps the workflow invariant |
| AdminServices.ApproveProjectKeepsWorkflow | backend/src/main/java/com/gearsync/backend/service/AdminServices.java:231-238 | project approval keeps the workflow invariant |
| AdminServices.RejectProjectKeepsWorkflow | backend/src/main/java/com/gearsync/backend/service/AdminServices.java:280-295 | project rejection keeps the workflow invariant |
| AdminServices.AssignProjectKeepsWorkflow | backend/src/main/java/com/gearsync/backend/service/AdminServices.java:320-342 | project assignment keeps the workflow invariant |
| AdminServices.UnassignProjectKeepsWorkflow | backend/src/main/java/com/gearsync/backend/service/AdminServices.java:376-380 | project unassignment keeps the workflow invariant |
| AdminServices.UpdateEmployeeKeepsWorkflow | backend/src/main/java/com/gearsync/backend/service/AdminServices.java:630-635 | the employee update keeps the workflow invariant |
| AdminServices.AssignAppointmentKeepsValid | backend/src/main/java/com/gearsync/backend/service/AdminServices.java:125-144 | appointment assignment keeps the database constraints |
| AdminServices.UnassignAppointmentKeepsValid | backend/src/main/java/com/gearsync/backend/service/AdminServices.java:181-189 | appointment unassignment keeps the database constraints |
| AdminServices.ApproveProjectKeepsValid | backend/src/main/java/com/gearsync/backend/service/AdminServices.java:231-238 | project approval keeps the database constraints |
| AdminServices.RejectProjectKeepsValid | backend/src/main/java/com/gearsync/backend/service/AdminServices.java:280-295 | project rejection keeps the database constraints |
| AdminServices.AssignProjectKeepsValid | backend/src/main/java/com/gearsync/backend/service/AdminServices.java:320-342 | project assignment keeps the database constraints |
| AdminServices.UnassignProjectKeepsValid | backend/src/main/java/com/gearsync/backend/service/AdminServices.java:376-380 | project unassignment keeps the database constraints |
| AdminServices.UpdateEmployeeKeepsValid | backend/src/main/java/com/gearsync/backend/service/AdminServices.java:630-635 | the employee update keeps the e-mail, so the database constraints hold |
| AdminServices.AssignThenUnassign | backend/src/main/java/com/gearsync/backend/service/AdminServices.java:125-144 | assigning a pending appointment confirms it; unassigning it then returns it to SCHEDULED and unassigned, pending again |
| AppointmentService.FindAllById | backend/src/main/java/com/gearsync/backend/service/AppointmentService.java:63-67 | `findAllById` returns at most as many services as asked, all from the catalog |
| AppointmentService.FindAllByIdMembers | backend/src/main/java/com/gearsync/backend/service/AppointmentService.java:63-67 | the found ids are exactly the requested ids present in the catalog, without repeats |
| AppointmentService.AllFoundIff | backend/src/main/java/com/gearsync/backend/service/AppointmentService.java:63-67 | the size check passes iff the requested ids are distinct and all exist |
| AppointmentService.FoundIsRequest | backend/src/main/java/com/gearsync/backend/service/AppointmentService.java:63-67 | when every requested id is found, the found list is the request |
| AppointmentService.FirstInactive | backend/src/main/java/com/gearsync/backend/service/AppointmentService.java:69-73 | none iff every found service is active; otherwise the first inactive one |
| AppointmentService.CheckActive | backend/src/main/java/com/gearsync/backend/service/AppointmentService.java:69-73 | the loop fails iff some service is inactive, naming the first inactive service |
| AppointmentService.RescheduleConflictIff | backend/src/main/java/com/gearsync/backend/service/AppointmentService.java:262-291 | for a real time change, the duplicate error fires iff another SCHEDULED appointment of the customer has that time |
| AppointmentService.BookedAppointment | backend/src/main/java/com/gearsync/backend/service/AppointmentService.java:75-93 | a booking is SCHEDULED, progress 0, unassigned, costs the sum of the base prices, and holds exactly the requested services |
| AppointmentService.BookSpec | backend/src/main/java/com/gearsync/backend/service/AppointmentService.java:36-98 | unknown customer, foreign vehicle, past time and any same-time booking fail in that order with their kinds; success stores the booking under a fresh id |
| AppointmentService.BookServicesSpec | backend/src/main/java/com/gearsync/backend/service/AppointmentService.java:59-93 | the service part succeeds iff the list is non-empty, every id resolves and every service is active |
| AppointmentService.BookAppointment | backend/src/main/java/com/gearsync/backend/service/AppointmentService.java:36-98 | the store update ends in exactly the outcome of `BookSpec` |
| AppointmentService.SaveBooking | backend/src/main/java/com/gearsync/backend/service/AppointmentService.java:59-93 | the service checks and the save end in exactly the outcome of `BookServicesSpec` |
| AppointmentService.UpdateStatusCheck | backend/src/main/java/com/gearsync/backend/service/AppointmentService.java:219-229 | update passes iff the status is not IN_PROGRESS, COMPLETED or CANCELLED; otherwise illegal-state |
| AppointmentService.Updated | backend/src/main/java/com/gearsync/backend/service/AppointmentService.java:233-296 | only vehicle, services, time and notes change; a time change on CONFIRMED gives RESCHEDULED; finalCost, assignee and progress untouched |
| AppointmentService.UpdateFieldCheck | backend/src/main/java/com/gearsync/backend/service/AppointmentService.java:233-300 | passes iff the vehicle, services and time changes are allowed and something changes; a past time and a no-op request give their messages |
| AppointmentService.CheckUpdateFields | backend/src/main/java/com/gearsync/backend/service/AppointmentService.java:233-300 | the step-by-step checks with the `isUpdated` flag give exactly `UpdateFieldCheck` |
| AppointmentService.UpdateSpec | backend/src/main/java/com/gearsync/backend/service/AppointmentService.java:204-313 | succeeds iff own appointment, updatable status and field checks pass; a foreign appointment gives unauthorized |
| AppointmentService.UpdateAppointment | backend/src/main/java/com/gearsync/backend/service/AppointmentService.java:204-313 | the store update ends in exactly the outcome of `UpdateSpec` |
| AppointmentService.CancelSpec | backend/src/main/java/com/gearsync/backend/service/AppointmentService.java:316-340 | succeeds iff own appointment not CANCELLED or COMPLETED (IN_PROGRESS included); sets CANCELLED |
| AppointmentService.CancelAppointment | backend/src/main/java/com/gearsync/backend/service/AppointmentService.java:316-340 | the store update ends in exactly the outcome of `CancelSpec` |
| AppointmentService.NormalizedName | backend/src/main/java/com/gearsync/backend/service/AppointmentService.java:33 | upper-casing and trimming a status name leaves it unchanged |
| AppointmentService.DeletableIff | backend/src/main/java/com/gearsync/backend/service/AppointmentService.java:33 | a status is deletable iff it is SCHEDULED, CONFIRMED or RESCHEDULED |
| AppointmentService.DeleteSpec | backend/src/main/java/com/gearsync/backend/service/AppointmentService.java:343-362 | the status is checked before ownership; succeeds iff own appointment in a deletable status; removes exactly that appointment |
| AppointmentService.DeleteAppointment | backend/src/main/java/com/gearsync/backend/service/AppointmentService.java:343-362 | the store update ends in exactly the outcome of `DeleteSpec` |
| AppointmentService.BookKeepsInvariants | backend/src/main/java/com/gearsync/backend/service/AppointmentService.java:84-93 | booking keeps the database valid and the workflow invariant, and its new id was free |
| AppointmentService.UpdateKeepsWorkflow | backend/src/main/java/com/gearsync/backend/service/AppointmentService.java:204-313 | updating keeps the workflow invariant |
| AppointmentService.CancelKeepsWorkflow | backend/src/main/java/com/gearsync/backend/service/AppointmentService.java:316-340 | cancelling keeps the workflow invariant |
| AppointmentService.UpdateKeepsValid | backend/src/main/java/com/gearsync/backend/service/AppointmentService.java:204-313 | updating keeps the database constraints |
| AppointmentService.CancelKeepsValid | backend/src/main/java/com/gearsync/backend/service/AppointmentService.java:316-340 | cancelling keeps the database constraints |
| AppointmentService.DeleteKeepsValid | backend/src/main/java/com/gearsync/backend/service/AppointmentService.java:343-362 | deleting keeps the database constraints |
| AppointmentService.DeleteKeepsWorkflow | backend/src/main/java/com/gearsync/backend/service/AppointmentService.java:343-362 | deleting keeps the workflow invariant |
| AppointmentService.UpdateKeepsUpdatable | backend/src/main/java/com/gearsync/backend/service/AppointmentService.java:219-229 | an updated appointment can be updated again |
| TimeLogService.NewLog | backend/src/main/java/com/gearsync/backend/service/EmployeeTimeLogService.java:52-89 | a new log is well formed, references exactly the chosen target, stores Java-trimmed text, and its duration is the minutes between its ends |
| TimeLogService.TargetCheck | backend/src/main/java/com/gearsync/backend/service/EmployeeTimeLogService.java:62-89 | passes iff the target is assigned to the employee and an appointment's scheduled time is not before the log's start |
| TimeLogService.CheckTarget | backend/src/main/java/com/gearsync/backend/service/EmployeeTimeLogService.java:62-89 | the lookups give exactly `TargetCheck` |
| TimeLogService.CreateSpec | backend/src/main/java/com/gearsync/backend/service/EmployeeTimeLogService.java:26-93 | unknown employee, non-staff, no target and both targets each fail in that order; succeeds iff exactly one target, start ≤ end ≤ now and the target check passes |
| TimeLogService.CreateTimeLog | backend/src/main/java/com/gearsync/backend/service/EmployeeTimeLogService.java:26-93 | the store update ends in exactly the outcome of `CreateSpec` |
| TimeLogService.ListCheck | backend/src/main/java/com/gearsync/backend/service/EmployeeTimeLogService.java:96-135 | listing passes iff the employee exists and the target is assigned to them |
| TimeLogService.GetTimeLogs | backend/src/main/java/com/gearsync/backend/service/EmployeeTimeLogService.java:96-135 | returns, in increasing id order, exactly the logs of the target, or the check's failure |
| TimeLogService.UpdatedLog | backend/src/main/java/com/gearsync/backend/service/EmployeeTimeLogService.java:160-202 | merges the supplied fields; the duration is recomputed from the merged ends; the targets and owner stay |
| TimeLogService.UpdateSpec | backend/src/main/java/com/gearsync/backend/service/EmployeeTimeLogService.java:152-207 | succeeds iff own log, no future start or end, merged start ≤ end, and some field supplied |
| TimeLogService.UpdateTimeLog | backend/src/main/java/com/gearsync/backend/service/EmployeeTimeLogService.java:152-207 | the store update ends in exactly the outcome of `UpdateSpec` |
| TimeLogService.DeleteSpec | backend/src/main/java/com/gearsync/backend/service/EmployeeTimeLogService.java:211-224 | succeeds iff own log; removes exactly it |
| TimeLogService.DeleteTimeLog | backend/src/main/java/com/gearsync/backend/service/EmployeeTimeLogService.java:211-224 | the store update ends in exactly the outcome of `DeleteSpec` |
| TimeLogService.CreateKeepsValid | backend/src/main/java/com/gearsync/backend/service/EmployeeTimeLogService.java:52-60 | creating keeps every stored log well formed |
| TimeLogService.UpdateKeepsValid | backend/src/main/java/com/gearsync/backend/service/EmployeeTimeLogService.java:186-187 | updating keeps every stored log well formed |
| TimeLogService.DeleteKeepsValid | backend/src/main/java/com/gearsync/backend/service/EmployeeTimeLogService.java:219-221 | deleting keeps the database valid |
| TimeLogService.CreateKeepsWorkflow | backend/src/main/java/com/gearsync/backend/service/EmployeeTimeLogService.java:26-93 | creating a log keeps the workflow invariant |
| TimeLogService.UpdateKeepsWorkflow | backend/src/main/java/com/gearsync/backend/service/EmployeeTimeLogService.java:152-207 | updating a log keeps the workflow invariant |
| TimeLogService.DeleteKeepsWorkflow | backend/src/main/java/com/gearsync/backend/service/EmployeeTimeLogService.java:211-224 | deleting a log keeps the workflow invariant |
| TimeLogService.ZeroLengthLog | backend/src/main/java/com/gearsync/backend/service/EmployeeTimeLogService.java:43-45 | `isBefore` refuses only a strictly earlier end: a log whose end equals its start, with the other guards met, is accepted and lasts 0 minutes |
| Domain.Minutes | backend/src/main/java/com/gearsync/backend/service/EmployeeTimeLogService.java:59-60 | the duration is the whole minutes between start and end |
| Domain.UserIdByEmail | backend/src/main/java/com/gearsync/backend/repository/UserRepository.java:12 | `findByEmail` finds a user holding the e-mail, or none when no user holds it |
| Domain.UserIdByEmailUnique | backend/src/main/java/com/gearsync/backend/repository/UserRepository.java:12 | with unique e-mails, the user found is the one holding it |
| Domain.ReplaceUserKeepsValid | backend/src/main/java/com/gearsync/backend/service/CustomerProfileService.java:51-55 | rewriting a user without changing the e-mail keeps e-mails unique |
| Storage.Store.FindUserByEmail | backend/src/main/java/com/gearsync/backend/repository/UserRepository.java:12 | the store lookup returns exactly `UserIdByEmail` |
| Storage.Store.NewId | backend/src/main/java/com/gearsync/backend/service/AppointmentService.java:94 | hands out the next id and advances the generator |
| CustomerProfileService.ProfileOf | backend/src/main/java/com/gearsync/backend/service/CustomerProfileService.java:26-38 | the profile copies the user's fields and its name is first + " " + last |
| CustomerProfileService.GetProfileSpec | backend/src/main/java/com/gearsync/backend/service/CustomerProfileService.java:22-39 | fails with not-found iff no user has the e-mail; otherwise the profile of that user |
| CustomerProfileService.GetMyProfile | backend/src/main/java/com/gearsync/backend/service/CustomerProfileService.java:22-39 | the lookup gives exactly `GetProfileSpec` |
| CustomerProfileService.UpdatedUser | backend/src/main/java/com/gearsync/backend/service/CustomerProfileService.java:51-55 | stores trimmed names and phone; e-mail, role and active flag unchanged |
| CustomerProfileService.UpdateProfileSpec | backend/src/main/java/com/gearsync/backend/service/CustomerProfileService.java:42-58 | unknown e-mail gives not-found, a non-customer unauthorized; succeeds iff the user is a CUSTOMER |
| CustomerProfileService.UpdateMyProfile | backend/src/main/java/com/gearsync/backend/service/CustomerProfileService.java:42-58 | the store update ends in exactly the outcome of `UpdateProfileSpec` |
| CustomerProfileService.UpdateThenGet | backend/src/main/java/com/gearsync/backend/service/CustomerProfileService.java:57 | reading the profile after an update returns what the update returned |
| CustomerProfileService.UpdateIdempotent | backend/src/main/java/com/gearsync/backend/service/CustomerProfileService.java:51-55 | repeating an update changes nothing more |
| CustomerProfileService.UpdateProfileKeepsWorkflow | backend/src/main/java/com/gearsync/backend/service/CustomerProfileService.java:51-55 | a profile update keeps the workflow invariant |
| CustomerProfileService.UpdateProfileKeepsValid | backend/src/main/java/com/gearsync/backend/service/CustomerProfileService.java:51-55 | a profile update keeps the e-mail, so the database constraints hold |
| TaskService.NewService | backend/src/main/java/com/gearsync/backend/service/TaskService.java:26-32 | copies name, description, price, duration and category; active by the assumed entity default |
| TaskService.AddServiceSpec | backend/src/main/java/com/gearsync/backend/service/TaskService.java:22-35 | fails with duplicate iff the name is taken; otherwise adds the service under a fresh id, growing the catalog by one |
| TaskService.ExistsByServiceName | backend/src/main/java/com/gearsync/backend/service/TaskService.java:23 | the scan answers whether the name is taken |
| TaskService.NewServiceAdd | backend/src/main/java/com/gearsync/backend/service/TaskService.java:22-35 | the store update ends in exactly the outcome of `AddServiceSpec` |
| TaskService.AddKeepsUniqueNames | backend/src/main/java/com/gearsync/backend/service/TaskService.java:23-34 | adding keeps service names unique |
| TaskService.AddKeepsInvariants | backend/src/main/java/com/gearsync/backend/service/TaskService.java:22-35 | adding a catalog service keeps the database constraints and the workflow invariant |
| TaskService.NameLeTotal | backend/src/main/java/com/gearsync/backend/service/TaskService.java:39 | the name order is total |
| TaskService.NameLeTransitive | backend/src/main/java/com/gearsync/backend/service/TaskService.java:39 | the name order is transitive |
| TaskService.NameLeReflexive | backend/src/main/java/com/gearsync/backend/service/TaskService.java:39 | the name order is reflexive |
| TaskService.ByNameEverywhere | backend/src/main/java/com/gearsync/backend/service/TaskService.java:39 | a list sorted by adjacent pairs is sorted at every pair |
| TaskService.Ids | backend/src/main/java/com/gearsync/backend/service/TaskService.java:40-50 | the ids of the responses, position by position |
| TaskService.Insert | backend/src/main/java/com/gearsync/backend/service/TaskService.java:39 | inserting into a name-sorted list keeps it sorted and adds one element |
| TaskService.InsertAdds | backend/src/main/java/com/gearsync/backend/service/TaskService.java:39 | insertion is a permutation of the list plus the new element |
| TaskService.InsertAddsId | backend/src/main/java/com/gearsync/backend/service/TaskService.java:39-50 | insertion adds exactly the new id to the id multiset |
| TaskService.IncreasingOnce | backend/src/main/java/com/gearsync/backend/service/TaskService.java:39-50 | an id in a strictly increasing list occurs once |
| TaskService.ServiceKeys | backend/src/main/java/com/gearsync/backend/service/TaskService.java:39 | lists every catalog id once, in increasing order |
| TaskService.GetAllServiceDetails | backend/src/main/java/com/gearsync/backend/service/TaskService.java:38-51 | returns one response per catalog service, each built from the catalog, sorted by name |
| TaskService.InsertStep | backend/src/main/java/com/gearsync/backend/service/TaskService.java:39-50 | one listing step keeps the list ordered and built from the catalog, and adds exactly that key |
| TaskService.OnceEach | backend/src/main/java/com/gearsync/backend/service/TaskService.java:39-50 | a listing over the increasing catalog keys lists each service once |
| TaskService.InsertFromCatalog | backend/src/main/java/com/gearsync/backend/service/TaskService.java:40-50 | inserting a response built from the catalog keeps every response built from the catalog |
| Rules.FirstFailure | frontend/src/components/auth/ChangePassword.tsx:31-67 | none iff every rule passes; otherwise the message of the first failing rule |
| Rules.FirstFailureAt | frontend/src/components/auth/ChangePassword.tsx:31-67 | when rule k fails and all earlier ones pass, its message is the result |
| Rules.FirstFailureAppend | frontend/src/components/auth/RegisterForm.tsx:21-43 | checking two chains in a row gives the first chain's failure, else the second's |
| Forms.PasswordPolicyPasses | frontend/src/components/auth/ChangePassword.tsx:39-54 | the password rules pass iff at least 8 characters with lower, upper, digit and special |
| Forms.EmailChecksPass | frontend/src/components/auth/ForgotPassword.tsx:15-19 | the e-mail rules pass iff the e-mail has the shape; blank gives "Email is required.", otherwise the form's own message |
| Forms.ShapedEmailNotBlank | frontend/src/components/auth/ForgotPassword.tsx:16-17 | a well-shaped e-mail is never blank, so the format message can only follow the required check |
| Forms.StaffEditChecksPass | frontend/src/pages/Admin/AdminProfile.tsx:99-118 | the staff edit rules pass iff both trimmed names have 2..50 characters and the trimmed phone is a mobile number |
| Forms.Optional | frontend/src/pages/Admin/admins/AdminCreateForm.tsx:34-36 | blank after trimming becomes absent; otherwise the trimmed, non-empty value |
| Forms.StaffPayloadOf | frontend/src/pages/Admin/admins/AdminCreateForm.tsx:32-37 | the payload holds the trimmed e-mail and the optional trimmed names and phone |
| Forms.StaffPayloadTrimmed | frontend/src/pages/Admin/admins/AdminCreateForm.tsx:32-37 | every value in the payload is already trimmed, and the optional ones are non-empty |
| Patterns.IsEmail | frontend/src/components/auth/ForgotPassword.tsx:17 | the scan accepts exactly the strings of shape `\S+@\S+\.\S+` |
| Patterns.MobileIsLoosePhone | frontend/src/pages/Admin/UserManagement.tsx:65 | every mobile number also matches the loose phone pattern |
| ChangePassword.ChecksInOrder | frontend/src/components/auth/ChangePassword.tsx:31-67 | presence first, then the policy, then the agreement rules |
| ChangePassword.Validate | frontend/src/components/auth/ChangePassword.tsx:31-67 | valid iff old given, new strong, new differs from old and confirm matches; otherwise the first failing message |
| ChangePassword.MissingOldPasswordFirst | frontend/src/components/auth/ChangePassword.tsx:33-37 | an empty old password is reported first, with the first-login wording when applicable |
| ChangePassword.SamePasswordRefused | frontend/src/components/auth/ChangePassword.tsx:57-61 | a strong new password equal to the old one is refused with its message |
| ChangePassword.HandleSubmit | frontend/src/components/auth/ChangePassword.tsx:80-84 | sends the form iff it validates; otherwise shows the validation message |
| ResetPassword.Validate | frontend/src/components/auth/ResetPassword.tsx:52-73 | valid iff the new password is strong and confirmed; otherwise the first failing message |
| ResetPassword.HandleSubmit | frontend/src/components/auth/ResetPassword.tsx:81-93 | a missing token stops submit before validation; sends token and passwords iff token present and valid |
| RegisterForm.ChecksInOrder | frontend/src/components/auth/RegisterForm.tsx:21-43 | names, then e-mail, then phone, then password |
| RegisterForm.Validate | frontend/src/components/auth/RegisterForm.tsx:21-43 | valid iff trimmed names and phone are non-empty, the e-mail has the shape and the password is strong |
| RegisterForm.PasswordCheckedLast | frontend/src/components/auth/RegisterForm.tsx:27-41 | with the other fields valid, the result is the password policy's |
| RegisterForm.HandleSubmit | frontend/src/components/auth/RegisterForm.tsx:58-65 | sends iff valid; the payload copies the fields and its role is always CUSTOMER |
| LoginForm.Validate | frontend/src/components/auth/LoginForm.tsx:30-35 | valid iff the e-mail has the shape and the password has at least 4 characters |
| LoginForm.ShortPasswordsAccepted | frontend/src/components/auth/LoginForm.tsx:33 | passwords of 4 or 5 characters pass although the message asks for 6 |
| LoginForm.HandleSubmit | frontend/src/components/auth/LoginForm.tsx:47-51 | login is called iff the credentials validate |
| LoginForm.GoByRole | frontend/src/components/auth/LoginForm.tsx:37-41 | ADMIN to the admin dashboard, EMPLOYEE to the employee dashboard, anything else to the customer dashboard |
| LoginForm.AfterLogin | frontend/src/components/auth/LoginForm.tsx:59-63 | a first login goes to the password change page, otherwise by role |
| ForgotPassword.Validate | frontend/src/components/auth/ForgotPassword.tsx:15-19 | valid iff the e-mail has the shape; blank and malformed get their messages in that order |
| ForgotPassword.HandleSubmit | frontend/src/components/auth/ForgotPassword.tsx:26-30 | the request is sent iff the e-mail is valid |
| AdminCreateForm.Validate | frontend/src/pages/Admin/admins/AdminCreateForm.tsx:18-22 | valid iff the e-mail has the shape; blank and malformed get their messages |
| AdminCreateForm.HandleSubmit | frontend/src/pages/Admin/admins/AdminCreateForm.tsx:26-37 | sends iff valid, with the trimmed payload |
| EmployeeCreateForm.Validate | frontend/src/pages/Admin/employees/EmployeeCreateForm.tsx:36-43 | an e-mail error iff not the shape; a phone error iff a non-empty phone misses the loose pattern; the banner iff any error |
| EmployeeCreateForm.ShapedEmailIsNotBlank | frontend/src/pages/Admin/employees/EmployeeCreateForm.tsx:38-39 | a blank e-mail never has the shape |
| EmployeeCreateForm.HandleSubmit | frontend/src/pages/Admin/employees/EmployeeCreateForm.tsx:47-58 | sends iff no field error, with the trimmed payload; otherwise the banner |
| MyProjects.Validate | frontend/src/pages/Customer/MyProjects.tsx:114-121 | valid iff a vehicle when creating, non-blank name and description, name ≥ 3 and description ≥ 10 trimmed characters |
| MyProjects.MissingDescriptionBeforeShortName | frontend/src/pages/Customer/MyProjects.tsx:116-117 | a blank description is reported before the name's length |
| MyProjects.HandleSubmit | frontend/src/pages/Customer/MyProjects.tsx:136-148 | sends iff valid; create or update by the edited id; trimmed fields, optional notes, no vehicle on update |
| TimeLogsForm.Set | frontend/src/pages/Employee/TimeLogs.tsx:239-253 | writes one field and leaves the others |
| TimeLogsForm.ClockMinutes | frontend/src/pages/Employee/TimeLogs.tsx:175-179 | a parsed clock time is under 24 hours |
| TimeLogsForm.Pad | frontend/src/pages/Employee/TimeLogs.tsx:199-214 | two digits whose value is the number |
| TimeLogsForm.ClockText | frontend/src/pages/Employee/TimeLogs.tsx:199-214 | `HH:mm`, five characters with a colon |
| TimeLogsForm.ClockRoundTrip | frontend/src/pages/Employee/TimeLogs.tsx:199-214 | parsing the rendered clock time gives back the minutes |
| TimeLogsForm.TimeErrors | frontend/src/pages/Employee/TimeLogs.tsx:171-179 | date, start and end each required; an end not after the start errs on the end time |
| TimeLogsForm.TargetErrors | frontend/src/pages/Employee/TimeLogs.tsx:181-186 | no target errs on the project field; both targets err on the appointment field |
| TimeLogsForm.DescriptionErrors | frontend/src/pages/Employee/TimeLogs.tsx:188-190 | the trimmed description is required and at least 10 characters |
| TimeLogsForm.Validate | frontend/src/pages/Employee/TimeLogs.tsx:169-194 | every field's error iff its rule fails, with its message; true iff no error |
| TimeLogsForm.NoErrors | frontend/src/pages/Employee/TimeLogs.tsx:192-193 | an error map is empty iff no field has an error |
| TimeLogsForm.OnChangeField | frontend/src/pages/Employee/TimeLogs.tsx:239-253 | writes the field, clears the other target when a target is chosen, clears only that field's error |
| TimeLogsForm.OnChangeKeepsOneTarget | frontend/src/pages/Employee/TimeLogs.tsx:242-252 | editing never leaves both targets chosen |
| TimeLogsForm.IfChosen | frontend/src/pages/Employee/TimeLogs.tsx:266-267 | an id is sent iff it was chosen |
| TimeLogsForm.Save | frontend/src/pages/Employee/TimeLogs.tsx:255-279 | calls iff the form validates iff no field has a message; each field's message exactly as `validate` gives it; create or update by the edited id; date-time strings, trimmed description, blank notes absent, only the chosen target |
| CustomerProfileForm.FormOf | frontend/src/pages/Customer/Profile.tsx:56-62 | the form takes the loaded values, missing ones as "" |
| CustomerProfileForm.Validate | frontend/src/pages/Customer/Profile.tsx:77-97 | each name errs iff blank or out of 2..50 trimmed characters, the phone iff not a mobile number; one message per field; ok iff none |
| CustomerProfileForm.NoErrors | frontend/src/pages/Customer/Profile.tsx:95-96 | the error map is empty iff no field has an error |
| CustomerProfileForm.ProfilePage.constructor | frontend/src/pages/Customer/Profile.tsx:56-62 | starts empty and not editing |
| CustomerProfileForm.ProfilePage.Loaded | frontend/src/pages/Customer/Profile.tsx:54-62 | clears the error, keeps the profile and fills the form from it |
| CustomerProfileForm.ProfilePage.HandleSave | frontend/src/pages/Customer/Profile.tsx:99-116 | clears the banner and success flag; records each field's message exactly as `validate` gives it; sends the trimmed values iff the form validates, and then the values meet the server's rules |
| CustomerProfileForm.ProfilePage.Saved | frontend/src/pages/Customer/Profile.tsx:112-114 | keeps the returned profile and leaves editing |
| CustomerProfileForm.ProfilePage.HandleCancel | frontend/src/pages/Customer/Profile.tsx:129-140 | restores the form from the loaded profile and clears the errors |
| CustomerProfileForm.CancelRestoresLoaded | frontend/src/pages/Customer/Profile.tsx:129-140 | whatever was typed, cancel brings back the loaded values |
| AdminProfile.FormOf | frontend/src/pages/Admin/AdminProfile.tsx:73-78 | the form takes the profile's names, a missing phone as empty text, and is active unless the profile says false |
| AdminProfile.SaveCheck | frontend/src/pages/Admin/AdminProfile.tsx:98-116 | passes iff every field is present and the staff rules pass; a failure gives the first failing rule's message; throws iff the checks reach a null field |
| AdminProfile.AdminProfilePage.constructor | frontend/src/pages/Admin/AdminProfile.tsx:44-93 | starts with no profile, no form and not editing |
| AdminProfile.AdminProfilePage.Loaded | frontend/src/pages/Admin/AdminProfile.tsx:48-78 | clears the error and keeps the profile; the form copies the fetched details, null fields included, else comes from the profile |
| AdminProfile.AdminProfilePage.HandleSave | frontend/src/pages/Admin/AdminProfile.tsx:95-122 | nothing without id or form; a null field reached by the checks throws with no state change; otherwise the first message, or the trimmed update iff all checks pass |
| AdminProfile.AdminProfilePage.Updated | frontend/src/pages/Admin/AdminProfile.tsx:123-136 | copies the returned names, phone and active flag into the profile and leaves editing |
| AdminProfile.AdminProfilePage.Cancel | frontend/src/pages/Admin/AdminProfile.tsx:426-436 | restores the form from the profile and clears the error |
| AdminProfile.AcceptedPhoneStoredAsSent | frontend/src/pages/Admin/AdminProfile.tsx:113-116 | an accepted phone survives the server's trim unchanged |
| VerifyOtp.Chars | frontend/src/components/auth/VerifyOtp.tsx:47-56 | splits text into one-character slots |
| VerifyOtp.JoinedSlots | frontend/src/components/auth/VerifyOtp.tsx:58-67 | joined digit slots have length 6 iff every slot is filled |
| VerifyOtp.JoinChars | frontend/src/components/auth/VerifyOtp.tsx:47-56 | joining the split text gives it back |
| VerifyOtp.OtpEntry.constructor | frontend/src/components/auth/VerifyOtp.tsx:25-31 | six empty slots |
| VerifyOtp.OtpEntry.HandleOtpChange | frontend/src/components/auth/VerifyOtp.tsx:25-31 | input longer than one character or non-digit is ignored; otherwise only slot `index` changes |
| VerifyOtp.OtpEntry.HandlePaste | frontend/src/components/auth/VerifyOtp.tsx:47-56 | replaces all slots iff the first six characters are six digits |
| VerifyOtp.OtpEntry.HandleSubmit | frontend/src/components/auth/VerifyOtp.tsx:58-67 | sends the six digits iff every slot is filled; otherwise the incomplete message |
| VerifyOtp.OtpEntry.Refused | frontend/src/components/auth/VerifyOtp.tsx:102 | a server refusal empties all six slots and shows the message |
| VerifyOtp.PasteThenSubmit | frontend/src/components/auth/VerifyOtp.tsx:47-67 | pasting a six-digit code and submitting sends that code |
| ProfilePicture.ValidateImageFile | frontend/src/utils/profilePicture.ts:71-91 | valid iff an accepted image type and at most 2 MiB; type checked first; valid iff no error |
| ProfilePicture.KeyFor | frontend/src/utils/profilePicture.ts:7 | keys carry the `profile_picture_` prefix |
| ProfilePicture.KeyForInjective | frontend/src/utils/profilePicture.ts:7 | different users get different keys |
| ProfilePicture.Without | frontend/src/utils/profilePicture.ts:110-111 | removes one key and nothing else |
| ProfilePicture.PictureKeys | frontend/src/utils/profilePicture.ts:101-107 | exactly the keys with the picture prefix |
| ProfilePicture.PictureKeysWithout | frontend/src/utils/profilePicture.ts:110-111 | removing a key commutes with selecting picture keys |
| ProfilePicture.PictureStore.SetItem | frontend/src/utils/profilePicture.ts:15 | stores the value; a new key goes last in key order |
| ProfilePicture.PictureStore.RemoveItem | frontend/src/utils/profilePicture.ts:47 | removes the key from the items and the key order |
| ProfilePicture.PictureStore.Get | frontend/src/utils/profilePicture.ts:31-39 | the stored picture of the user, if any |
| ProfilePicture.PictureStore.CollectPictureKeys | frontend/src/utils/profilePicture.ts:101-107 | collects exactly the picture keys, in storage order |
| ProfilePicture.PictureStore.RemoveOldest | frontend/src/utils/profilePicture.ts:109-112 | removes the first n picture keys and nothing else |
| ProfilePicture.RemoveFirstPictureKey | frontend/src/utils/profilePicture.ts:110-111 | removing the oldest picture key drops exactly the head of the picture keys |
| ProfilePicture.PictureStore.ClearOld | frontend/src/utils/profilePicture.ts:96-118 | keeps only the last 10 picture keys; never adds or changes an item and never removes a non-picture key |
| ProfilePicture.PictureStore.Save | frontend/src/utils/profilePicture.ts:12-26 | when a write fits, get returns the saved data; a first write that fits changes only the user's entry; non-picture entries and their values are always kept; after a full storage, another picture stays iff it was among the last ten |
| ProfilePicture.PictureStore.Remove | frontend/src/utils/profilePicture.ts:44-51 | exactly the user's entry is removed: get then returns nothing, other users unchanged |
| ProjectsManagement.BadgeFor | frontend/src/pages/Admin/ProjectsManagement.tsx:27-41 | a known status keeps its badge; an unknown one falls back to PENDING |
| ProjectsManagement.ServerStatusesHaveBadges | frontend/src/pages/Admin/ProjectsManagement.tsx:27-41 | every server project status has its own badge |
| ProjectsManagement.Filtered | frontend/src/pages/Admin/ProjectsManagement.tsx:98-117 | keeps the rows matching the status filter and the lower-cased trimmed search, and only those |
| ProjectsManagement.FilteredOne | frontend/src/pages/Admin/ProjectsManagement.tsx:98-117 | one row is shown iff it matches |
| ProjectsManagement.FilteredInOrder | frontend/src/pages/Admin/ProjectsManagement.tsx:98-117 | the shown rows keep the list order: filtering two consecutive parts and joining is filtering the whole |
| ProjectsManagement.FilteredDuplicates | frontend/src/pages/Admin/ProjectsManagement.tsx:98-117 | each matching row occurs as often as in the list, any other not at all |
| ProjectsManagement.FilteredEverything | frontend/src/pages/Admin/ProjectsManagement.tsx:98-117 | a blank search with ALL keeps every row |
| ProjectsManagement.SearchFindsProjectName | frontend/src/pages/Admin/ProjectsManagement.tsx:98-117 | a search contained in the project name finds it |
| ProjectsManagement.StatsWithinTotal | frontend/src/pages/Admin/ProjectsManagement.tsx:119-128 | pending + active + completed ≤ total |
| Lists.Count | frontend/src/pages/Admin/ProjectsManagement.tsx:119-128 | a counter is the number of positions whose row passes its test |
| ProjectsManagement.Actions | frontend/src/pages/Admin/ProjectsManagement.tsx:376-415 | PENDING offers approve and reject; COMPLETED, CANCELLED and REJECTED nothing; otherwise assign when unassigned, else exactly reassign then unassign |
| ProjectsManagement.ActionsMatchServer | frontend/src/pages/Admin/ProjectsManagement.tsx:376-415 | assignment is offered exactly in the statuses where the server accepts it, approval exactly for PENDING |
| ProjectsManagement.UnassignOfferedButRefused | frontend/src/pages/Admin/ProjectsManagement.tsx:393-415 | an assigned IN_PROGRESS project offers Unassign, which the server refuses |
| ProjectsManagement.DoSubmit | frontend/src/pages/Admin/ProjectsManagement.tsx:158-203 | calls iff a target and (reject: a reason; otherwise an employee, cost and hours), with each message in order and the matching request |
| AppointmentsManagement.BadgeFor | frontend/src/pages/Admin/AppointmentsManagement.tsx:37-53 | a known status keeps its badge; an unknown one falls back to PENDING |
| AppointmentsManagement.ServerStatusesHaveBadges | frontend/src/pages/Admin/AppointmentsManagement.tsx:37-53 | every server status has its own badge |
| AppointmentsManagement.Filtered | frontend/src/pages/Admin/AppointmentsManagement.tsx:106-123 | keeps the rows matching the status filter and the lower-cased trimmed search, and only those |
| AppointmentsManagement.FilteredOne | frontend/src/pages/Admin/AppointmentsManagement.tsx:106-123 | one row is shown iff it matches |
| AppointmentsManagement.FilteredInOrder | frontend/src/pages/Admin/AppointmentsManagement.tsx:106-123 | the shown rows keep the list order: filtering two consecutive parts and joining is filtering the whole |
| AppointmentsManagement.FilteredDuplicates | frontend/src/pages/Admin/AppointmentsManagement.tsx:106-123 | each matching row occurs as often as in the list, any other not at all |
| AppointmentsManagement.FilteredEverything | frontend/src/pages/Admin/AppointmentsManagement.tsx:106-123 | a blank search with ALL keeps every row |
| AppointmentsManagement.SearchFindsPlate | frontend/src/pages/Admin/AppointmentsManagement.tsx:106-123 | a search contained in the registration number finds it |
| AppointmentsManagement.StatsWithinTotal | frontend/src/pages/Admin/AppointmentsManagement.tsx:125-134 | pending + in progress + completed ≤ total |
| AppointmentsManagement.ServerStatusNotPending | frontend/src/pages/Admin/AppointmentsManagement.tsx:130 | no server appointment status is PENDING |
| AppointmentsManagement.PendingIsScheduled | frontend/src/pages/Admin/AppointmentsManagement.tsx:130 | on server rows the pending count is the SCHEDULED count |
| AppointmentsManagement.Actions | frontend/src/pages/Admin/AppointmentsManagement.tsx:400-422 | assign iff unassigned, else exactly reassign then unassign, whatever the status |
| AppointmentsManagement.AssignOfferedButRefused | frontend/src/pages/Admin/AppointmentsManagement.tsx:400-422 | an unassigned COMPLETED or CANCELLED appointment offers Assign, which the server refuses |
| AppointmentsManagement.UnassignOfferedButRefused | frontend/src/pages/Admin/AppointmentsManagement.tsx:400-422 | an assigned IN_PROGRESS appointment offers Unassign, which the server refuses |
| AppointmentsManagement.WithoutCommas | frontend/src/pages/Admin/AppointmentsManagement.tsx:167-168 | the cost without its thousands separators |
| AppointmentsManagement.DoAssign | frontend/src/pages/Admin/AppointmentsManagement.tsx:155-174 | calls iff a target and an employee; assign or reassign by mode; optional notes; a blank cost omitted |
| UserManagement.Validate | frontend/src/pages/Admin/UserManagement.tsx:62-67 | valid iff the e-mail has the shape and the phone is empty or loose-phone; messages in order |
| UserManagement.HandleSubmit | frontend/src/pages/Admin/UserManagement.tsx:69-80 | sends iff valid; admin or employee by the chosen type; trimmed payload |
| UserManagement.FilteredUsers | frontend/src/pages/Admin/UserManagement.tsx:183-189 | keeps the rows whose name or e-mail contains the lower-cased search and whose upper-cased role matches the filter, and only those |
| UserManagement.FilteredUsersOne | frontend/src/pages/Admin/UserManagement.tsx:183-189 | one row is shown iff it matches |
| UserManagement.FilteredUsersInOrder | frontend/src/pages/Admin/UserManagement.tsx:183-189 | the shown rows keep the list order: filtering two consecutive parts and joining is filtering the whole |
| UserManagement.FilteredUsersDuplicates | frontend/src/pages/Admin/UserManagement.tsx:183-189 | each matching row occurs as often as in the list, any other not at all |
| UserManagement.FilteredEverything | frontend/src/pages/Admin/UserManagement.tsx:183-189 | an empty search with ALL keeps every row |
| UserManagement.SearchIgnoresCase | frontend/src/pages/Admin/UserManagement.tsx:183-189 | lower-casing the search does not change the list |
| UserManagement.SearchFindsEmail | frontend/src/pages/Admin/UserManagement.tsx:183-189 | a search contained in the e-mail finds it |
| UserManagement.TotalsWithinTotal | frontend/src/pages/Admin/UserManagement.tsx:280-286 | customers + employees + admins ≤ total |
| UserManagement.TotalsOfServerRows | frontend/src/pages/Admin/UserManagement.tsx:280-286 | when every role is a server role the three totals add up to the total |
| UserManagement.UpperOfRoleName | frontend/src/pages/Admin/UserManagement.tsx:186 | upper-casing a server role name leaves it unchanged |
| UserManagement.EditGate | frontend/src/pages/Admin/UserManagement.tsx:211-233 | loads details iff staff with an id; a non-staff role and a missing id each get their message |
| UserManagement.EditGateIsStaff | frontend/src/pages/Admin/UserManagement.tsx:212-219 | for a server user with an id, editing is offered iff the server counts them as staff |
| UserManagement.LowerCaseStaffCountedButRefused | frontend/src/pages/Admin/UserManagement.tsx:212-219 | a row with role "employee" is counted as an employee but refused editing |
| UserManagement.SaveDecision | frontend/src/pages/Admin/UserManagement.tsx:239-265 | nothing without id or form; sends the trimmed update iff the staff rules pass; otherwise the first message |
| UserManagement.UserManagementPage.constructor | frontend/src/pages/Admin/UserManagement.tsx:239-265 | nothing being edited |
| UserManagement.UserManagementPage.HandleEdit | frontend/src/pages/Admin/UserManagement.tsx:211-233 | a refusal alerts and keeps the state; otherwise requests the details and clears the error |
| UserManagement.UserManagementPage.DetailsLoaded | frontend/src/pages/Admin/UserManagement.tsx:224-230 | the edit form takes the fetched details |
| UserManagement.UserManagementPage.HandleSaveEmployee | frontend/src/pages/Admin/UserManagement.tsx:239-265 | acts exactly as `SaveDecision` on the page state |
| UserManagement.UserManagementPage.Saved | frontend/src/pages/Admin/UserManagement.tsx:259-260 | closes the editor |
| UserManagement.OpenAndSave | frontend/src/pages/Admin/UserManagement.tsx:211-265 | opening a staff user with valid details and saving sends an update for that id keeping the active flag |
| UserManagement.SentUpdateStoredAsSent | frontend/src/pages/Admin/UserManagement.tsx:253-258 | the server stores the sent phone, and names with printable ends, exactly as sent |
| UserManagement.PrintableEndsKept | frontend/src/pages/Admin/UserManagement.tsx:253-258 | Java's trim leaves a string with printable ends unchanged |
| UserManagement.ControlCharacterNameShortened | frontend/src/pages/Admin/UserManagement.tsx:240-249 | a name passing the page's rules can still be shortened by the server's trim |
| UserManagement.Heads | frontend/src/pages/Admin/UserManagement.tsx:403-409 | the first letters of at most the first two words |
| UserManagement.Initials | frontend/src/pages/Admin/UserManagement.tsx:403-409 | at most two letters, empty iff the name has no words |
| UserManagement.Avatar | frontend/src/pages/Admin/UserManagement.tsx:414 | never empty; "U" for a name without words, otherwise the initials |
| UserManagement.TwoWordInitials | frontend/src/pages/Admin/UserManagement.tsx:403-409 | "first last" gives both upper-cased first letters |
| UserManagement.OneWordInitials | frontend/src/pages/Admin/UserManagement.tsx:403-409 | a single word gives its upper-cased first letter |

## Behaviour worth noting

These points follow from the code at the cited lines; the model keeps each of them.

* **Booking duplicate check.** `bookAppointment` calls the derived query
  `existsByCustomerAndScheduledDateTime(User, LocalDateTime)` (`AppointmentRepository.java:23`), which
  does not look at the status. Any appointment of that customer at that time, even a CANCELLED or
  COMPLETED one, blocks the booking. The repository also has a query that skips CANCELLED and COMPLETED
  appointments (`AppointmentRepository.java:56-63`), but only rescheduling uses it
  (`AppointmentService.java:269`).
* **Time-log appointment check.** `createTimeLog` refuses an appointment scheduled before the log's start
  (`EmployeeTimeLogService.java:72-74`). Its message, "Cannot log time for an appointment that has not yet
  occurred", describes the opposite case. A log that starts before its appointment is accepted.
* **Assignment in IN_PROGRESS.** Assigning refuses only COMPLETED and CANCELLED appointments
  (`AdminServices.java:106-112`), so an IN_PROGRESS appointment can be given a new employee. Unassigning
  it is refused (`AdminServices.java:181-189`).
* **Cancel in IN_PROGRESS.** `cancelAppointment` refuses only CANCELLED and COMPLETED
  (`AppointmentService.java:328-334`), so an IN_PROGRESS appointment can be cancelled.
* **Delete check order.** `deleteAppointment` checks the status before ownership
  (`AppointmentService.java:352-358`), so the error tells a stranger the status of someone else's appointment.

## Left out

- Controllers, HTTP routing and the mapping of exceptions to status codes: plumbing only.
- Repositories are modelled as lookups over the in-memory maps. JPQL, sorting collation and `createdAt`
  are not modelled.
- DTO converters are modelled only as far as the fields the contracts mention (`Details`, `ProfileOf`).
- EmailService becomes a counter of e-mails sent. Mail content and delivery are I/O.
- PasswordEncoder, JWT and ModelMapper are foreign library calls. `addEmployee` and `addAdmin` are not part
  of this model: they only encode a password and save.
- BigDecimal amounts are whole cents, so the model has no scale or rounding.
- `LocalDateTime` values are whole seconds, and `now` is a parameter. The timestamp text inside notes is a
  parameter `stamp`.
- Domain.ErrorKind: `UserNotFoundException` and `VehicleNotFoundException` (AppointmentService.java:39 and
  42) share the kind `NotFound` with `ResourceNotFoundException`; only the messages tell them apart.
- Domain.Minutes: does not model the `long` range of `Duration.toMinutes`, because times are unbounded
  integers.
- Request fields the model treats as required strings are never null. A null Java field appears only where
  the source tests it (`Option`).
- The front end's `parseInt`/`Number` conversions are not modelled. Ids are `Option<int>`, and the final
  cost is kept as the comma-free string that is sent.
- Case mapping covers ASCII only, and lengths count characters rather than UTF-16 units.
- Date parsing is not modelled: times in the time-log form are `HH:mm` and the date is opaque text.
- localStorage quota errors become the parameters `firstFits` and `retryFits` of `PictureStore.Save`.
- ProfilePicture.PictureStore.ClearOld: removes the oldest picture keys in insertion order. The code stamps
  each key with `Date.now()` inside the enumeration loop. The stamps never decrease along the loop and
  `Array.prototype.sort` is stable, so the code removes the first keys in `localStorage.key(i)` order. The
  Web Storage standard leaves that order to the browser; `PictureStore.SetItem` assumes insertion order.
- React rendering, alerts, `setTimeout` navigation, server error banners, loading flags and refetches
  after a save are UI effects. Clearing a field error by setting it to `undefined` is modelled as
  removing the key.
- `deleteUser` in UserManagement.tsx only shows an alert. Closing the modal and refetching in
  `handleAddUser` are UI effects.
- AdminServices.GetPendingAppointments: returns the appointments in increasing id order. `findByStatus`
  has no ORDER BY, so the program promises no order; the model fixes one.
- TimeLogService.GetTimeLogs: returns the logs in increasing id order. `findByAppointmentId` and
  `findByProjectId` have no ORDER BY, so the program promises no order; the model fixes one.
- AppointmentService.FirstInactive: names the first inactive service in request order. `findAllById`
  returns its rows in an unspecified order, so the program may name another inactive service.
- TaskService.NewService: sets `isActive` to true. `addService` never sets it, and the `Services` entity
  is not part of this model; the model assumes the entity's default is active.
- The admin list endpoints other than `getPendingAppointments`, and the dashboard services, are plain
  repository queries.
