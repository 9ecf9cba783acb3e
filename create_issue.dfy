/** Issue creation of src/team_devtools/jira/create_issue.py: the option wrappers and the field
    map create_issue submits. The Jira connection is an oracle (module value Jira) and the
    template loader a function from file name to text. */
module CreateIssue {
  import opened Wrappers
  import opened Text
  import opened JsonValue
  import opened JiraConst
  import opened IndexOrName

  /** parse_priority. */
  function ParsePriority(value: string): (r: Result<string, string>)
    ensures r.Success? ==> r.value in Priorities
    ensures r.Success? <==> (IsDigits(value) && DigitsValue(value) < |Priorities|) || (!IsDigits(value) && value in Priorities)
  {
    ParseIndexOrName(value, Priorities, "priority")
  }

  /** parse_issue_type. */
  function ParseIssueType(value: string): (r: Result<string, string>)
    ensures r.Success? ==> r.value in IssueTypes
    ensures r.Success? <==> (IsDigits(value) && DigitsValue(value) < |IssueTypes|) || (!IsDigits(value) && value in IssueTypes)
  {
    ParseIndexOrName(value, IssueTypes, "issue type")
  }

  /** parse_affects_version. */
  function ParseAffectsVersion(value: string): (r: Result<string, string>)
    ensures r.Success? ==> r.value in AffectsVersions
    ensures r.Success? <==> (IsDigits(value) && DigitsValue(value) < |AffectsVersions|) || (!IsDigits(value) && value in AffectsVersions)
  {
    ParseIndexOrName(value, AffectsVersions, "affects version")
  }

  /** parse_component. */
  function ParseComponent(value: string): (r: Result<string, string>)
    ensures r.Success? ==> r.value in Components
    ensures r.Success? <==> (IsDigits(value) && DigitsValue(value) < |Components|) || (!IsDigits(value) && value in Components)
  {
    ParseIndexOrName(value, Components, "component")
  }

  /** What the Jira connection answers: the component names of the project (or the error
      project_components raises), the current user's key at each of the two myself() calls
      (the one that assigns a sprint issue before the create and the one after it), each
      possibly an error, and the answer to a create request for a field map (the new issue's
      key, or the error). */
  datatype Jira = Jira(projectComponents: Result<seq<string>, string>,
                       myselfForSprint: Result<string, string>,
                       myselfAfterCreate: Result<string, string>,
                       create: IssueTemplate -> Result<string, string>)

  /** A component argument: one name or a list of names. */
  datatype ComponentArg = Single(name: string) | Several(names: seq<string>)

  function ComponentNames(c: ComponentArg): seq<string> {
    match c
    case Single(name) => [name]
    case Several(names) => names
  }

  /** The arguments of create_issue after the connection. */
  datatype IssueArgs = IssueArgs(
    summary: string,
    priority: string,
    issueType: string,
    component: ComponentArg,
    epicLink: Option<string>,
    affectsVersion: Option<string>,
    storyPoints: Option<int>,
    sprint: Option<int>,
    descriptionFile: string,
    description: Option<string>,
    acceptanceCriteria: Option<string>,
    acceptanceCriteriaFile: string,
    assignee: Option<string>)

  /** How a call ends: the new issue's key, an exception raised to the caller, or the process
      exiting through sys.exit (which no `except Exception` catches). */
  datatype Outcome = Created(key: string) | Raised(message: string) | Exited(code: int)

  /** A string argument that is truthy: given and not empty. */
  predicate Given(s: Option<string>) { s.Some? && s.value != "" }

  /** An int argument that is truthy: given and not zero. */
  predicate NonZero(n: Option<int>) { n.Some? && n.value != 0 }

  function OptText(s: Option<string>): Json {
    match s
    case None => Null
    case Some(v) => Str(v)
  }

  /** {"name": name}. */
  function Named(name: string): Json {
    Object(map["name" := Str(name)])
  }

  /** [{"name": n} for n in names]. */
  function NamedList(names: seq<string>): (j: Json)
    ensures j.Array? && |j.items| == |names|
    ensures forall i :: 0 <= i < |names| ==> j.items[i] == Named(names[i])
  {
    if names == [] then Array([])
    else Array(NamedList(names[..|names| - 1]).items + [Named(names[|names| - 1])])
  }

  function AffectsMessage(issueType: string): string {
    "affects_version can only be specified for Bug issue types, not '" + issueType + "'"
  }

  /** The field map create_issue submits, one component per entry. The optional entries are
      None when the key is absent from the map; AsFields gives the map as Jira receives it. */
  datatype IssueTemplate = IssueTemplate(
    assignee: Option<string>,
    summary: string,
    description: string,
    issueType: string,
    components: seq<string>,
    priority: string,
    acceptanceCriteria: string,
    storyPoints: Option<int>,
    sprint: Option<int>,
    epicLink: Option<string>,
    versions: Option<string>)

  /** The issue_template dict: fixed keys, and the optional ones only when present. */
  function AsFields(t: IssueTemplate): map<string, Json> {
    var fixed := map[
      "assignee" := OptText(t.assignee),
      "project" := Str("AAP"),
      "summary" := Str(t.summary),
      "description" := Str(t.description),
      "issuetype" := Named(t.issueType),
      "components" := NamedList(t.components),
      "priority" := Named(t.priority),
      WorkstreamField := Array([Object(map["value" := Str(Workstream)])]),
      AcceptanceCriteriaField := Str(t.acceptanceCriteria)];
    var withPoints := if t.storyPoints.Some? then fixed[StoryPointsField := Number(t.storyPoints.value)] else fixed;
    var withSprint := if t.sprint.Some? then withPoints[SprintField := Number(t.sprint.value)] else withPoints;
    var withEpic := if t.epicLink.Some? then withSprint[EpicLinkField := Str(t.epicLink.value)] else withSprint;
    if t.versions.Some? then withEpic["versions" := Array([Named(t.versions.value)])] else withEpic
  }

  /** The affects version is given for a type other than Bug. */
  predicate Misplaced(args: IssueArgs) { Given(args.affectsVersion) && args.issueType != "Bug" }

  /** Every requested component is one of the project's (none requested: nothing to find). */
  predicate ComponentsFound(jira: Jira, names: seq<string>) {
    names == [] || (jira.projectComponents.Success? && forall n :: n in names ==> n in jira.projectComponents.value)
  }

  /** The text of a template argument: the argument when truthy, else the loaded file. */
  function TemplateText(given: Option<string>, file: string, templates: string -> string): string {
    if Given(given) then given.value else templates(file)
  }

  /** The field map create_issue submits: the template texts fall back to the loaded files,
      a single component becomes a one-element list, story points, sprint, epic link and
      affects version are present exactly when truthy, and with a sprint but no assignee the
      issue is assigned to the current user. */
  function IssueFields(args: IssueArgs, myself: string, templates: string -> string): (t: IssueTemplate)
    ensures t.summary == args.summary && t.issueType == args.issueType && t.priority == args.priority
    ensures t.description == TemplateText(args.description, args.descriptionFile, templates)
    ensures t.acceptanceCriteria == TemplateText(args.acceptanceCriteria, args.acceptanceCriteriaFile, templates)
    ensures t.components == ComponentNames(args.component)
    ensures args.component.Single? ==> t.components == [args.component.name]
    ensures t.storyPoints.Some? <==> NonZero(args.storyPoints)
    ensures t.sprint.Some? <==> NonZero(args.sprint)
    ensures t.epicLink.Some? <==> Given(args.epicLink)
    ensures t.versions.Some? <==> Given(args.affectsVersion)
    ensures t.storyPoints.Some? ==> t.storyPoints == args.storyPoints
    ensures t.sprint.Some? ==> t.sprint == args.sprint
    ensures t.epicLink.Some? ==> t.epicLink == args.epicLink
    ensures t.versions.Some? ==> t.versions == args.affectsVersion
    ensures t.assignee == if NonZero(args.sprint) && !Given(args.assignee) then Some(myself) else args.assignee
  {
    IssueTemplate(
      if NonZero(args.sprint) && !Given(args.assignee) then Some(myself) else args.assignee,
      args.summary,
      TemplateText(args.description, args.descriptionFile, templates),
      args.issueType,
      ComponentNames(args.component),
      args.priority,
      TemplateText(args.acceptanceCriteria, args.acceptanceCriteriaFile, templates),
      if NonZero(args.storyPoints) then args.storyPoints else None,
      if NonZero(args.sprint) then args.sprint else None,
      if Given(args.epicLink) then args.epicLink else None,
      if Given(args.affectsVersion) then args.affectsVersion else None)
  }

  /** A sprint without an assignee: the field map asks myself() for the assignee. */
  predicate NeedsMyself(args: IssueArgs) { NonZero(args.sprint) && !Given(args.assignee) }

  /** The myself() call that assigns a sprint issue is made and raises. */
  predicate AssignLookupFails(jira: Jira, args: IssueArgs) { NeedsMyself(args) && jira.myselfForSprint.Failure? }

  /** The user key the sprint assignment receives (only read when the lookup succeeded). */
  function SprintUser(jira: Jira): string {
    if jira.myselfForSprint.Success? then jira.myselfForSprint.value else ""
  }

  /** The field map submitted against this connection. */
  function Submitted(jira: Jira, templates: string -> string, args: IssueArgs): IssueTemplate {
    IssueFields(args, SprintUser(jira), templates)
  }

  /** How create_issue ends. The myself() call after a successful create sits in the else of
      the try around the create, so its error escapes although the issue exists. */
  function IssueOutcome(jira: Jira, templates: string -> string, args: IssueArgs): (o: Outcome)
    ensures o.Created? ==> !Misplaced(args) && ComponentsFound(jira, ComponentNames(args.component))
                           && !AssignLookupFails(jira, args)
                           && jira.create(Submitted(jira, templates, args)) == Success(o.key)
                           && jira.myselfAfterCreate.Success?
    ensures o.Raised? <==> Misplaced(args) || (ComponentNames(args.component) != [] && jira.projectComponents.Failure?)
                           || (ComponentsFound(jira, ComponentNames(args.component))
                               && (AssignLookupFails(jira, args)
                                   || (jira.create(Submitted(jira, templates, args)).Success? && jira.myselfAfterCreate.Failure?)))
  {
    var names := ComponentNames(args.component);
    if Misplaced(args) then Raised(AffectsMessage(args.issueType))
    else if names != [] && jira.projectComponents.Failure? then Raised(jira.projectComponents.error)
    else if !ComponentsFound(jira, names) then Exited(1)
    else if AssignLookupFails(jira, args) then Raised(jira.myselfForSprint.error)
    else
      match jira.create(Submitted(jira, templates, args))
      case Failure(_) => Exited(1)
      case Success(key) =>
        if jira.myselfAfterCreate.Failure? then Raised(jira.myselfAfterCreate.error) else Created(key)
  }

  lemma SubmitOutcome(jira: Jira, templates: string -> string, args: IssueArgs)
    requires !Misplaced(args) && ComponentsFound(jira, ComponentNames(args.component)) && !AssignLookupFails(jira, args)
    ensures IssueOutcome(jira, templates, args)
         == match jira.create(Submitted(jira, templates, args))
            case Success(key) => if jira.myselfAfterCreate.Failure? then Raised(jira.myselfAfterCreate.error) else Created(key)
            case Failure(_) => Exited(1)
  {
  }

  /** The dict literal of create_issue followed by the conditional insertions, in their order. */
  method BuildTemplate(args: IssueArgs, myself: string, templates: string -> string, components: seq<string>)
    returns (template: IssueTemplate)
    requires components == ComponentNames(args.component)
    ensures template == IssueFields(args, myself, templates)
  {
    var description := if Given(args.description) then args.description.value else templates(args.descriptionFile);
    var acceptance := if Given(args.acceptanceCriteria) then args.acceptanceCriteria.value else templates(args.acceptanceCriteriaFile);
    ghost var expected := IssueFields(args, myself, templates);
    template := IssueTemplate(args.assignee, args.summary, description, args.issueType, components,
                              args.priority, acceptance, None, None, None, None);
    if NonZero(args.storyPoints) {
      template := template.(storyPoints := args.storyPoints);
    }
    assert template.storyPoints == expected.storyPoints;
    if NonZero(args.sprint) {
      template := template.(sprint := args.sprint);
    }
    assert template.sprint == expected.sprint;
    if Given(args.epicLink) {
      template := template.(epicLink := args.epicLink);
    }
    assert template.epicLink == expected.epicLink;
    if Given(args.affectsVersion) {
      template := template.(versions := args.affectsVersion);
    }
    assert template.versions == expected.versions;
    if NonZero(args.sprint) && !Given(args.assignee) {
      template := template.(assignee := Some(myself));
    }
    assert template.assignee == expected.assignee;
    assert template == expected;
  }

  /** create_issue: validates the affects version first, then looks up each component, then
      builds the field map key by key and submits it. submitted is the map sent to Jira. */
  method CreateIssue(jira: Jira, templates: string -> string, args: IssueArgs) returns (outcome: Outcome, submitted: Option<IssueTemplate>)
    ensures outcome == IssueOutcome(jira, templates, args)
    ensures Misplaced(args) ==> outcome == Raised(AffectsMessage(args.issueType))
    ensures AssignLookupFails(jira, args) && !Misplaced(args) && ComponentsFound(jira, ComponentNames(args.component))
            ==> outcome == Raised(jira.myselfForSprint.error)
    ensures submitted.Some? <==> !Misplaced(args) && ComponentsFound(jira, ComponentNames(args.component)) && !AssignLookupFails(jira, args)
    ensures submitted.Some? ==> submitted.value == Submitted(jira, templates, args)
  {
    submitted := None;
    if Given(args.affectsVersion) && args.issueType != "Bug" {
      outcome := Raised(AffectsMessage(args.issueType));
      return;
    }

    var names := ComponentNames(args.component);
    var components: seq<string> := [];
    var i := 0;
    while i < |names|
      invariant 0 <= i <= |names|
      invariant components == names[..i]
      invariant i > 0 ==> jira.projectComponents.Success?
      invariant i > 0 ==> forall j :: 0 <= j < i ==> names[j] in jira.projectComponents.value
    {
      if jira.projectComponents.Failure? {
        outcome := Raised(jira.projectComponents.error);
        return;
      }
      if names[i] !in jira.projectComponents.value {
        outcome := Exited(1);
        return;
      }
      assert names[..i + 1] == names[..i] + [names[i]];
      components := components + [names[i]];
      i := i + 1;
    }
    assert names[..i] == names;

    // The assignee lookup is the last insertion into the field map; the map is local, so
    // failing before the other insertions ends the call the same way.
    if NeedsMyself(args) && jira.myselfForSprint.Failure? {
      outcome := Raised(jira.myselfForSprint.error);
      return;
    }
    var template := BuildTemplate(args, SprintUser(jira), templates, components);
    SubmitOutcome(jira, templates, args);
    submitted := Some(template);
    match jira.create(template)
    case Failure(_) =>
      outcome := Exited(1);
    case Success(key) =>
      match jira.myselfAfterCreate
      case Failure(message) =>
        outcome := Raised(message);
      case Success(_) =>
        outcome := Created(key);
  }
}
