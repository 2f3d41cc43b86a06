/**
 * The employee time-log form: its per-field validation, the way choosing a
 * project clears the appointment (and the reverse), and the request body
 * the save handler builds.
 */
module TimeLogsForm {
  import opened Wrappers
  import opened Text

  /** The form's text fields, as the inputs hold them. */
  datatype TimeLogFormData = TimeLogFormData(
    workDate: string, startTime: string, endTime: string,
    projectId: string, appointmentId: string,
    workDescription: string, notes: string)

  datatype FormField = WorkDate | StartTime | EndTime | ProjectId | AppointmentId | WorkDescription | Notes

  function Get(f: TimeLogFormData, name: FormField): string {
    match name
    case WorkDate => f.workDate
    case StartTime => f.startTime
    case EndTime => f.endTime
    case ProjectId => f.projectId
    case AppointmentId => f.appointmentId
    case WorkDescription => f.workDescription
    case Notes => f.notes
  }

  /** `{ ...f, [name]: value }`: the named field takes the value and no
      other field changes. */
  function Set(f: TimeLogFormData, name: FormField, value: string): (r: TimeLogFormData)
    ensures Get(r, name) == value
    ensures forall other: FormField :: other != name ==> Get(r, other) == Get(f, other)
  {
    match name
    case WorkDate => f.(workDate := value)
    case StartTime => f.(startTime := value)
    case EndTime => f.(endTime := value)
    case ProjectId => f.(projectId := value)
    case AppointmentId => f.(appointmentId := value)
    case WorkDescription => f.(workDescription := value)
    case Notes => f.(notes := value)
  }

  // ------------------------------------------------------------ clock times

  function DigitValue(c: char): nat
    requires IsDigit(c)
  {
    c as int - '0' as int
  }

  /** The minute of the day a time input's `HH:mm` denotes; any other text
      denotes no time, so no ordering between the two can be seen. */
  function ClockMinutes(s: string): (r: Option<nat>)
    ensures r.Some? ==> r.value < 24 * 60
  {
    if |s| == 5 && IsDigit(s[0]) && IsDigit(s[1]) && s[2] == ':' && IsDigit(s[3]) && IsDigit(s[4])
       && 10 * DigitValue(s[0]) + DigitValue(s[1]) < 24 && 10 * DigitValue(s[3]) + DigitValue(s[4]) < 60
    then Some(60 * (10 * DigitValue(s[0]) + DigitValue(s[1])) + 10 * DigitValue(s[3]) + DigitValue(s[4]))
    else None
  }

  /** `String(n).padStart(2, "0")` for a number below 100. */
  function Pad(n: nat): (r: string)
    requires n < 100
    ensures |r| == 2 && IsDigit(r[0]) && IsDigit(r[1])
    ensures 10 * DigitValue(r[0]) + DigitValue(r[1]) == n
  {
    [DigitChar(n / 10), DigitChar(n % 10)]
  }

  /** The `HH:mm` text the edit dialog fills in for a minute of the day. */
  function ClockText(minutes: nat): (r: string)
    requires minutes < 24 * 60
    ensures |r| == 5 && r[2] == ':'
  {
    Pad(minutes / 60) + ":" + Pad(minutes % 60)
  }

  /** Reading the text the edit dialog fills in gives its minute back. */
  lemma ClockRoundTrip(minutes: nat)
    requires minutes < 24 * 60
    ensures ClockMinutes(ClockText(minutes)) == Some(minutes)
  {
    var h := Pad(minutes / 60);
    var m := Pad(minutes % 60);
    var s := ClockText(minutes);
    assert s[0] == h[0] && s[1] == h[1] && s[3] == m[0] && s[4] == m[1];
  }

  /** Both times on the work date are read and the end is not after the
      start. */
  predicate EndNotAfterStart(f: TimeLogFormData) {
    var start := ClockMinutes(f.startTime);
    var end := ClockMinutes(f.endTime);
    start.Some? && end.Some? && end.value <= start.value
  }

  // -------------------------------------------------------------- validation

  /** All three date and time inputs are filled and the end is not after
      the start; with an empty work date neither time is a valid date, and
      invalid dates compare as unordered. */
  predicate OrderError(f: TimeLogFormData) {
    f.workDate != "" && EndNotAfterStart(f)
  }

  /** A form `validate` accepts. */
  predicate Clean(f: TimeLogFormData) {
    f.workDate != "" && f.startTime != "" && f.endTime != ""
    && !OrderError(f)
    && (f.projectId == "") != (f.appointmentId == "")
    && |Trim(f.workDescription)| >= 10
  }

  /** The date and time checks of `validate`. */
  method TimeErrors(f: TimeLogFormData) returns (errors: map<FormField, string>)
    ensures ProjectId !in errors && AppointmentId !in errors && WorkDescription !in errors && Notes !in errors
    ensures WorkDate in errors <==> f.workDate == ""
    ensures WorkDate in errors ==> errors[WorkDate] == "Work date is required"
    ensures StartTime in errors <==> f.startTime == ""
    ensures StartTime in errors ==> errors[StartTime] == "Start time is required"
    ensures EndTime in errors <==> f.endTime == "" || OrderError(f)
    ensures EndTime in errors ==>
      errors[EndTime] == (if f.endTime == "" then "End time is required" else "End time must be after start time")
  {
    errors := map[];
    if f.workDate == "" {
      errors := errors[WorkDate := "Work date is required"];
    }
    if f.startTime == "" {
      errors := errors[StartTime := "Start time is required"];
    }
    if f.endTime == "" {
      errors := errors[EndTime := "End time is required"];
    }
    if f.workDate != "" && f.startTime != "" && f.endTime != "" {
      if EndNotAfterStart(f) {
        errors := errors[EndTime := "End time must be after start time"];
      }
    }
  }

  /** The project-or-appointment checks of `validate`. */
  method TargetErrors(f: TimeLogFormData) returns (errors: map<FormField, string>)
    ensures WorkDate !in errors && StartTime !in errors && EndTime !in errors
    ensures WorkDescription !in errors && Notes !in errors
    ensures ProjectId in errors <==> f.projectId == "" && f.appointmentId == ""
    ensures ProjectId in errors ==> errors[ProjectId] == "Pick a Project or an Appointment"
    ensures AppointmentId in errors <==> f.projectId != "" && f.appointmentId != ""
    ensures AppointmentId in errors ==> errors[AppointmentId] == "Can't select both"
  {
    errors := map[];
    if f.projectId == "" && f.appointmentId == "" {
      errors := errors[ProjectId := "Pick a Project or an Appointment"];
    }
    if f.projectId != "" && f.appointmentId != "" {
      errors := errors[AppointmentId := "Can't select both"];
    }
  }

  /** The description check of `validate`, on the trimmed text. */
  method DescriptionErrors(f: TimeLogFormData) returns (errors: map<FormField, string>)
    ensures WorkDate !in errors && StartTime !in errors && EndTime !in errors
    ensures ProjectId !in errors && AppointmentId !in errors && Notes !in errors
    ensures WorkDescription in errors <==> |Trim(f.workDescription)| < 10
    ensures WorkDescription in errors ==>
      errors[WorkDescription] == (if Trim(f.workDescription) == "" then "Description is required" else "Minimum 10 characters")
  {
    errors := map[];
    var desc := Trim(f.workDescription);
    if desc == "" {
      errors := errors[WorkDescription := "Description is required"];
    } else if |desc| < 10 {
      errors := errors[WorkDescription := "Minimum 10 characters"];
    }
  }

  /** `validate`: collects one message per failing field, a later check of
      the same field replacing an earlier one, and accepts when none was
      recorded. */
  method Validate(f: TimeLogFormData) returns (errors: map<FormField, string>, ok: bool)
    ensures WorkDate in errors <==> f.workDate == ""
    ensures WorkDate in errors ==> errors[WorkDate] == "Work date is required"
    ensures StartTime in errors <==> f.startTime == ""
    ensures StartTime in errors ==> errors[StartTime] == "Start time is required"
    ensures EndTime in errors <==> f.endTime == "" || OrderError(f)
    ensures EndTime in errors ==>
      errors[EndTime] == (if f.endTime == "" then "End time is required" else "End time must be after start time")
    ensures ProjectId in errors <==> f.projectId == "" && f.appointmentId == ""
    ensures ProjectId in errors ==> errors[ProjectId] == "Pick a Project or an Appointment"
    ensures AppointmentId in errors <==> f.projectId != "" && f.appointmentId != ""
    ensures AppointmentId in errors ==> errors[AppointmentId] == "Can't select both"
    ensures WorkDescription in errors <==> |Trim(f.workDescription)| < 10
    ensures WorkDescription in errors ==>
      errors[WorkDescription] == (if Trim(f.workDescription) == "" then "Description is required" else "Minimum 10 characters")
    ensures Notes !in errors
    ensures ok <==> Clean(f)
  {
    var timeErrors := TimeErrors(f);
    var targetErrors := TargetErrors(f);
    var descriptionErrors := DescriptionErrors(f);
    errors := timeErrors + targetErrors + descriptionErrors;
    ok := |errors| == 0;
    NoErrors(errors);
  }

  /** `Object.keys(errors).length === 0` holds exactly when no field has a
      message. */
  lemma NoErrors(errors: map<FormField, string>)
    ensures |errors| == 0 <==>
      WorkDate !in errors && StartTime !in errors && EndTime !in errors && ProjectId !in errors
      && AppointmentId !in errors && WorkDescription !in errors && Notes !in errors
  {
    if |errors| != 0 {
      assert errors != map[];
      var k :| k in errors;
      match k
      case WorkDate =>
      case StartTime =>
      case EndTime =>
      case ProjectId =>
      case AppointmentId =>
      case WorkDescription =>
      case Notes =>
    }
  }

  // ------------------------------------------------------------ field edits

  /** At most one of project and appointment is chosen. */
  predicate AtMostOneTarget(f: TimeLogFormData) {
    f.projectId == "" || f.appointmentId == ""
  }

  /** The other target field, for the two target fields. */
  function Partner(name: FormField): Option<FormField> {
    match name
    case ProjectId => Some(AppointmentId)
    case AppointmentId => Some(ProjectId)
    case _ => None
  }

  /** `onChangeField`: the edited field takes the value; choosing a project
      empties the appointment and the reverse; the edited field's message is
      dropped and the others are kept. */
  function OnChangeField(f: TimeLogFormData, errors: map<FormField, string>, name: FormField, value: string)
    : (r: (TimeLogFormData, map<FormField, string>))
    ensures Get(r.0, name) == value
    ensures forall other: FormField :: other != name ==>
      Get(r.0, other) == (if value != "" && Partner(name) == Some(other) then "" else Get(f, other))
    ensures name !in r.1
    ensures forall other :: other != name ==> (other in r.1 <==> other in errors)
    ensures forall other :: other != name && other in r.1 ==> r.1[other] == errors[other]
  {
    var form :=
      if name == ProjectId && value != "" then f.(projectId := value, appointmentId := "")
      else if name == AppointmentId && value != "" then f.(appointmentId := value, projectId := "")
      else Set(f, name, value);
    (form, errors - {name})
  }

  /** Edits never lead to both a project and an appointment being chosen,
      and choosing one leaves only that one. */
  lemma OnChangeKeepsOneTarget(f: TimeLogFormData, errors: map<FormField, string>, name: FormField, value: string)
    requires AtMostOneTarget(f)
    ensures AtMostOneTarget(OnChangeField(f, errors, name, value).0)
    ensures value != "" && Partner(name).Some? ==>
      Get(OnChangeField(f, errors, name, value).0, Partner(name).value) == ""
  {
    var r := OnChangeField(f, errors, name, value).0;
    assert Get(r, ProjectId) == r.projectId && Get(r, AppointmentId) == r.appointmentId;
    assert Get(f, ProjectId) == f.projectId && Get(f, AppointmentId) == f.appointmentId;
  }

  // ---------------------------------------------------------------- saving

  /** The request body; the ids stay the text the selects hold. */
  datatype TimeLogPayload = TimeLogPayload(
    startTime: string, endTime: string, workDescription: string, notes: Option<string>,
    projectId: Option<string>, appointmentId: Option<string>)

  /** A new log is posted; a log opened for editing is put under its id. */
  datatype TimeLogCall = CreateLog(payload: TimeLogPayload) | UpdateLog(id: int, payload: TimeLogPayload)

  /** `${date}T${time}:00`. */
  function LocalDateTime(date: string, time: string): string {
    date + "T" + time + ":00"
  }

  /** An id field is sent only when chosen. */
  function IfChosen(id: string): (r: Option<string>)
    ensures r.Some? <==> id != ""
    ensures r.Some? ==> r.value == id
  {
    if id == "" then None else Some(id)
  }

  /** `save`: nothing is sent unless `validate` accepts; the body carries
      both instants on the work date, the trimmed description, the trimmed
      notes or `null`, and exactly one of the two targets. */
  method Save(f: TimeLogFormData, editing: Option<int>) returns (errors: map<FormField, string>, call: Option<TimeLogCall>)
    ensures call.Some? <==> Clean(f)
    ensures call.Some? <==> errors == map[]
    ensures WorkDate in errors <==> f.workDate == ""
    ensures WorkDate in errors ==> errors[WorkDate] == "Work date is required"
    ensures StartTime in errors <==> f.startTime == ""
    ensures StartTime in errors ==> errors[StartTime] == "Start time is required"
    ensures EndTime in errors <==> f.endTime == "" || OrderError(f)
    ensures EndTime in errors ==>
      errors[EndTime] == (if f.endTime == "" then "End time is required" else "End time must be after start time")
    ensures ProjectId in errors <==> f.projectId == "" && f.appointmentId == ""
    ensures ProjectId in errors ==> errors[ProjectId] == "Pick a Project or an Appointment"
    ensures AppointmentId in errors <==> f.projectId != "" && f.appointmentId != ""
    ensures AppointmentId in errors ==> errors[AppointmentId] == "Can't select both"
    ensures WorkDescription in errors <==> |Trim(f.workDescription)| < 10
    ensures WorkDescription in errors ==>
      errors[WorkDescription] == (if Trim(f.workDescription) == "" then "Description is required" else "Minimum 10 characters")
    ensures Notes !in errors
    ensures call.Some? ==> (call.value.UpdateLog? <==> editing.Some?)
    ensures call.Some? && editing.Some? ==> call.value.id == editing.value
    ensures call.Some? ==>
      var p := call.value.payload;
      p.startTime == LocalDateTime(f.workDate, f.startTime) && p.endTime == LocalDateTime(f.workDate, f.endTime)
      && p.workDescription == Trim(f.workDescription) && |p.workDescription| >= 10
      && (p.notes.None? <==> Trim(f.notes) == "") && (p.notes.Some? ==> p.notes.value == Trim(f.notes))
      && (p.projectId.Some? != p.appointmentId.Some?)
      && (p.projectId.Some? ==> p.projectId.value == f.projectId)
      && (p.appointmentId.Some? ==> p.appointmentId.value == f.appointmentId)
  {
    var ok;
    errors, ok := Validate(f);
    NoErrors(errors);
    if !ok {
      assert errors != map[];
      return errors, None;
    }
    assert Clean(f) && errors == map[];
    var description := Trim(f.workDescription);
    var trimmedNotes := Trim(f.notes);
    var notes := if trimmedNotes != "" then Some(trimmedNotes) else None;
    var payload := TimeLogPayload(
      LocalDateTime(f.workDate, f.startTime), LocalDateTime(f.workDate, f.endTime),
      description, notes, IfChosen(f.projectId), IfChosen(f.appointmentId));
    if editing.Some? {
      call := Some(UpdateLog(editing.value, payload));
    } else {
      call := Some(CreateLog(payload));
    }
  }
}
