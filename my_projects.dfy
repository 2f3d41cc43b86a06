/**
 * The customer's project form: choosing a vehicle (only when creating),
 * the presence checks before the length checks, and the create or update
 * request it sends.
 */
module MyProjects {
  import opened Wrappers
  import opened Text
  import opened Rules
  import opened Forms

  datatype ProjectForm = ProjectForm(
    vehicleId: Option<int>, projectName: string, description: string, additionalNotes: string)

  /** A new project names its vehicle; an edited one keeps it. */
  datatype ProjectCall =
    | CreateProject(vehicleId: int, projectName: string, description: string, additionalNotes: Option<string>)
    | UpdateMyProject(id: int, projectName: string, description: string, additionalNotes: Option<string>)

  /** `f.vehicleId` is truthy. */
  predicate HasVehicle(f: ProjectForm) {
    f.vehicleId.Some? && f.vehicleId.value != 0
  }

  /** `validate`'s chain: the vehicle (unless editing), both texts present,
      then their lengths. */
  function Checks(f: ProjectForm, editing: bool): seq<Rule> {
    [Rule(HasVehicle(f) || editing, "Please select a vehicle."),
     Rule(Trim(f.projectName) != "", "Project name is required."),
     Rule(Trim(f.description) != "", "Description is required."),
     Rule(|Trim(f.projectName)| >= 3, "Project name must be at least 3 characters."),
     Rule(|Trim(f.description)| >= 10, "Description must be at least 10 characters.")]
  }

  /** A form `validate` accepts. */
  predicate Acceptable(f: ProjectForm, editing: bool) {
    (HasVehicle(f) || editing) && |Trim(f.projectName)| >= 3 && |Trim(f.description)| >= 10
  }

  /** `validate`: null exactly for acceptable forms, else the first failing
      check's message. */
  function Validate(f: ProjectForm, editing: bool): (r: Option<string>)
    ensures r.None? <==> Acceptable(f, editing)
    ensures r.Some? ==> exists i: nat :: FailsFirstAt(Checks(f, editing), i, r.value)
  {
    var rules := Checks(f, editing);
    assert Acceptable(f, editing) ==> forall i | 0 <= i < |rules| :: rules[i].passes;
    assert !Acceptable(f, editing) ==> !(rules[0].passes && rules[3].passes && rules[4].passes);
    FirstFailure(rules)
  }

  /** A blank description is reported before a name that is too short. */
  lemma MissingDescriptionBeforeShortName(f: ProjectForm, editing: bool)
    requires HasVehicle(f) || editing
    requires Trim(f.projectName) != "" && Trim(f.description) == ""
    ensures Validate(f, editing) == Some("Description is required.")
  {
    FirstFailureAt(Checks(f, editing), 2);
  }

  /** `handleSubmit`: an edited project is updated under its id without a
      vehicle; a new one is created for the chosen vehicle; both carry the
      trimmed texts and the trimmed notes or nothing. */
  function HandleSubmit(f: ProjectForm, editProject: Option<int>): (s: Submission<ProjectCall>)
    ensures s.Sent? <==> Acceptable(f, editProject.Some?)
    ensures s.Rejected? ==> Validate(f, editProject.Some?) == Some(s.message)
    ensures s.Sent? ==> (s.payload.UpdateMyProject? <==> editProject.Some?)
    ensures s.Sent? && s.payload.UpdateMyProject? ==> s.payload.id == editProject.value
    ensures s.Sent? && s.payload.CreateProject? ==> Some(s.payload.vehicleId) == f.vehicleId && s.payload.vehicleId != 0
    ensures s.Sent? ==>
      s.payload.projectName == Trim(f.projectName) && |s.payload.projectName| >= 3
      && s.payload.description == Trim(f.description) && |s.payload.description| >= 10
      && s.payload.additionalNotes == Optional(f.additionalNotes)
  {
    match Validate(f, editProject.Some?)
    case Some(m) => Rejected(m)
    case None =>
      if editProject.Some? then
        Sent(UpdateMyProject(editProject.value, Trim(f.projectName), Trim(f.description), Optional(f.additionalNotes)))
      else
        Sent(CreateProject(f.vehicleId.value, Trim(f.projectName), Trim(f.description), Optional(f.additionalNotes)))
  }
}
