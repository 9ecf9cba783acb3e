/** src/team_devtools/jira/create_aap_issue.py, the older single-file form of the issue tools:
    its own option lists and wrappers, create_aap_issue (always the dev-tools component, no
    assignee, story points or sprint) and its CSV batch. The Jira connection is an oracle
    (AapJira) and the template loader a function from file name to text. */
module AapIssue {
  import opened Wrappers
  import opened Text
  import opened IndexOrName
  import opened IssueBatch
  import CreateIssue

  const Priorities: seq<string> := ["Critical", "Major", "Normal", "Minor"]
  const IssueTypes: seq<string> := ["Task", "Story", "Spike", "Bug", "Epic"]
  const AffectsVersions: seq<string> := ["2.4", "2.5", "2.6", "aap-devel"]

  /** The one component every issue gets. */
  const DevTools: string := "dev-tools"

  /** parse_priority. */
  function ParsePriority(value: string): (r: Result<string, string>)
    ensures r.Success? ==> r.value in Priorities
    ensures r.Success? <==> (IsDigits(value) && DigitsValue(value) < |Priorities|) || (!IsDigits(value) && value in Priorities)
  {
    ParseIndexOrName(value, Priorities, "priority")
  }

  /** parse_issue_type. */
  function ParseIssueType(value: string): (r: Result<string, string>)
    ensures r.Success? ==> r.value in IssueTypes
    ensures r.Success? <==> (IsDigits(value) && DigitsValue(value) < |IssueTypes|) || (!IsDigits(value) && value in IssueTypes)
  {
    ParseIndexOrName(value, IssueTypes, "issue type")
  }

  /** parse_affects_version. */
  function ParseAffectsVersion(value: string): (r: Result<string, string>)
    ensures r.Success? ==> r.value in AffectsVersions
    ensures r.Success? <==> (IsDigits(value) && DigitsValue(value) < |AffectsVersions|) || (!IsDigits(value) && value in AffectsVersions)
  {
    ParseIndexOrName(value, AffectsVersions, "affects version")
  }

  /** The arguments of create_aap_issue after the connection. */
  datatype AapArgs = AapArgs(
    summary: string,
    priority: string,
    issueType: string,
    epicLink: Option<string>,
    affectsVersion: Option<string>,
    descriptionFile: string,
    acceptanceCriteriaFile: string)

  /** The field map create_aap_issue submits; epicLink and versions are None when the key is
      absent. */
  datatype AapTemplate = AapTemplate(
    summary: string,
    description: string,
    issueType: string,
    components: seq<string>,
    priority: string,
    acceptanceCriteria: string,
    epicLink: Option<string>,
    versions: Option<string>)

  /** What the connection answers: the project's component names (or the error
      project_components raises) and the answer to a create request. */
  datatype AapJira = AapJira(projectComponents: Result<seq<string>, string>,
                             create: AapTemplate -> Result<string, string>)

  /** The affects version is given for a type other than Bug. */
  predicate Misplaced(args: AapArgs) { CreateIssue.Given(args.affectsVersion) && args.issueType != "Bug" }

  /** The field map: both texts come from the template files, the one component is
      dev-tools, and the epic link and the affects version are present exactly when truthy. */
  function AapFields(args: AapArgs, templates: string -> string): (t: AapTemplate)
    ensures t.summary == args.summary && t.issueType == args.issueType && t.priority == args.priority
    ensures t.description == templates(args.descriptionFile)
    ensures t.acceptanceCriteria == templates(args.acceptanceCriteriaFile)
    ensures t.components == [DevTools]
    ensures t.epicLink.Some? <==> CreateIssue.Given(args.epicLink)
    ensures t.versions.Some? <==> CreateIssue.Given(args.affectsVersion)
    ensures t.epicLink.Some? ==> t.epicLink == args.epicLink
    ensures t.versions.Some? ==> t.versions == args.affectsVersion
  {
    AapTemplate(args.summary, templates(args.descriptionFile), args.issueType, [DevTools], args.priority,
                templates(args.acceptanceCriteriaFile),
                if CreateIssue.Given(args.epicLink) then args.epicLink else None,
                if CreateIssue.Given(args.affectsVersion) then args.affectsVersion else None)
  }

  /** How create_aap_issue ends: the validation error or the components error is raised; a
      project without dev-tools or a refused create ends the process. */
  function AapOutcome(jira: AapJira, templates: string -> string, args: AapArgs): (o: CreateIssue.Outcome)
    ensures o.Created? ==> !Misplaced(args) && jira.projectComponents.Success? && DevTools in jira.projectComponents.value
                           && jira.create(AapFields(args, templates)) == Success(o.key)
    ensures o.Raised? <==> Misplaced(args) || jira.projectComponents.Failure?
    ensures Misplaced(args) ==> o == CreateIssue.Raised(CreateIssue.AffectsMessage(args.issueType))
    ensures !Misplaced(args) && jira.projectComponents.Success? && DevTools !in jira.projectComponents.value
            ==> o == CreateIssue.Exited(1)
    ensures !Misplaced(args) && jira.projectComponents.Success? && DevTools in jira.projectComponents.value
            ==> o == match jira.create(AapFields(args, templates))
                     case Success(key) => CreateIssue.Created(key)
                     case Failure(_) => CreateIssue.Exited(1)
  {
    if Misplaced(args) then CreateIssue.Raised(CreateIssue.AffectsMessage(args.issueType))
    else if jira.projectComponents.Failure? then CreateIssue.Raised(jira.projectComponents.error)
    else if DevTools !in jira.projectComponents.value then CreateIssue.Exited(1)
    else
      match jira.create(AapFields(args, templates))
      case Success(key) => CreateIssue.Created(key)
      case Failure(_) => CreateIssue.Exited(1)
  }

  /** get_component's search: the first component with the name, or None when there is none
      (where the source raises ValueError). */
  method FindComponent(components: seq<string>, name: string) returns (found: Option<string>)
    ensures found.Some? <==> name in components
    ensures found.Some? ==> found.value == name
  {
    var i := 0;
    while i < |components|
      invariant 0 <= i <= |components|
      invariant name !in components[..i]
    {
      if components[i] == name {
        return Some(components[i]);
      }
      assert components[..i + 1] == components[..i] + [components[i]];
      i := i + 1;
    }
    assert components[..i] == components;
    return None;
  }

  /** create_aap_issue: validates, loads both templates, looks up dev-tools, then builds the
      field map key by key and submits it. submitted is the map sent to Jira. */
  method CreateAapIssue(jira: AapJira, templates: string -> string, args: AapArgs)
    returns (outcome: CreateIssue.Outcome, submitted: Option<AapTemplate>)
    ensures outcome == AapOutcome(jira, templates, args)
    ensures submitted.Some? <==> !Misplaced(args) && jira.projectComponents.Success? && DevTools in jira.projectComponents.value
    ensures submitted.Some? ==> submitted.value == AapFields(args, templates)
  {
    submitted := None;
    if CreateIssue.Given(args.affectsVersion) && args.issueType != "Bug" {
      return CreateIssue.Raised(CreateIssue.AffectsMessage(args.issueType)), None;
    }
    var description := templates(args.descriptionFile);
    var acceptance := templates(args.acceptanceCriteriaFile);
    if jira.projectComponents.Failure? {
      return CreateIssue.Raised(jira.projectComponents.error), None;
    }
    var component := FindComponent(jira.projectComponents.value, DevTools);
    if component.None? {
      return CreateIssue.Exited(1), None;
    }
    var template := AapTemplate(args.summary, description, args.issueType, [component.value], args.priority,
                                acceptance, None, None);
    if CreateIssue.Given(args.epicLink) {
      template := template.(epicLink := args.epicLink);
    }
    if CreateIssue.Given(args.affectsVersion) {
      template := template.(versions := args.affectsVersion);
    }
    assert template == AapFields(args, templates);
    submitted := Some(template);
    match jira.create(template)
    case Failure(_) =>
      outcome := CreateIssue.Exited(1);
    case Success(key) =>
      outcome := CreateIssue.Created(key);
  }

  /** The cells a non-skipped row is read for, as written (before stripping). */
  datatype AapCells = AapCells(summary: string, priority: string, issueType: string, epicLink: string,
                               affectsVersion: string, descriptionFile: string, acceptanceCriteriaFile: string)

  /** What reading a row's cells gives: a missing summary or other cell, a blank summary (the
      row is skipped before any other cell is read), or the cells. */
  datatype AapRowRead = Missing | Blank | Read(cells: AapCells)

  function ReadRow(row: Row): (r: AapRowRead)
    ensures r.Blank? <==> Cell(row, "summary").Some? && Strip(Cell(row, "summary").value) == []
    ensures r.Read? ==> Strip(r.cells.summary) != [] && Cell(row, "summary") == Some(r.cells.summary)
    ensures r.Read? ==> Cell(row, "priority") == Some(r.cells.priority) && Cell(row, "issue_type") == Some(r.cells.issueType)
                        && Cell(row, "epic_link") == Some(r.cells.epicLink)
                        && Cell(row, "affects_version") == Some(r.cells.affectsVersion)
                        && Cell(row, "description_file") == Some(r.cells.descriptionFile)
                        && Cell(row, "acceptance_criteria_file") == Some(r.cells.acceptanceCriteriaFile)
  {
    match Cell(row, "summary")
    case None => Missing
    case Some(summary) =>
      if Strip(summary) == [] then Blank
      else
        match (Cell(row, "priority"), Cell(row, "issue_type"), Cell(row, "epic_link"))
        case (Some(priority), Some(issueType), Some(epicLink)) =>
          (match (Cell(row, "affects_version"), Cell(row, "description_file"), Cell(row, "acceptance_criteria_file"))
           case (Some(affects), Some(descriptionFile), Some(acceptanceFile)) =>
             Read(AapCells(summary, priority, issueType, epicLink, affects, descriptionFile, acceptanceFile))
           case _ => Missing)
        case _ => Missing
  }

  /** The per-row rules: the summary stripped; priority and issue type parsed with their
      defaults "Normal" and "Task"; the epic link None when blank; the affects version kept
      only for a Bug that parses; the template file names defaulted when blank. */
  function Normalize(c: AapCells): (a: AapArgs)
    ensures a.summary == Strip(c.summary)
    ensures a.priority in Priorities && a.issueType in IssueTypes
    ensures a.priority == Choose(c.priority, ParsePriority, "Normal")
    ensures a.issueType == Choose(c.issueType, ParseIssueType, "Task")
    ensures a.affectsVersion == AffectsFor(c.affectsVersion, a.issueType, ParseAffectsVersion)
    ensures a.affectsVersion.Some? ==> a.affectsVersion.value in AffectsVersions
    ensures a.epicLink.Some? <==> Strip(c.epicLink) != []
    ensures a.epicLink.Some? ==> a.epicLink.value == Strip(c.epicLink)
    ensures a.descriptionFile == OrDefault(c.descriptionFile, "description.txt")
    ensures a.acceptanceCriteriaFile == OrDefault(c.acceptanceCriteriaFile, "acceptance_criteria.txt")
    ensures !Misplaced(a)
  {
    var priority := Choose(c.priority, ParsePriority, "Normal");
    var issueType := Choose(c.issueType, ParseIssueType, "Task");
    var epic := Strip(c.epicLink);
    AapArgs(
      Strip(c.summary), priority, issueType,
      if epic == [] then None else Some(epic),
      AffectsFor(c.affectsVersion, issueType, ParseAffectsVersion),
      OrDefault(c.descriptionFile, "description.txt"),
      OrDefault(c.acceptanceCriteriaFile, "acceptance_criteria.txt"))
  }

  /** The row rules: a blank summary skips the row, a missing cell ends the batch. */
  function NormalizeRow(row: Row): (p: RowPlan<AapArgs>)
    ensures p.Skip? <==> ReadRow(row).Blank?
    ensures p.Abort? <==> ReadRow(row).Missing?
    ensures p.Plan? ==> ReadRow(row).Read? && p.args == Normalize(ReadRow(row).cells) && p.summary == p.args.summary
  {
    match ReadRow(row)
    case Missing => Abort
    case Blank => Skip
    case Read(cells) =>
      var args := Normalize(cells);
      Plan(args.summary, args)
  }

  /** create_aap_issue against a given connection and template loader. */
  function Creator(jira: AapJira, templates: string -> string): AapArgs -> CreateIssue.Outcome {
    args => AapOutcome(jira, templates, args)
  }

  /** create_issues_from_csv. file is None when the file does not exist; server is the
      configured Jira server. */
  method CreateIssuesFromCsv(file: Option<CsvFile>, jira: AapJira, templates: string -> string, server: string)
    returns (outcome: BatchOutcome)
    ensures file.None? ==> outcome == Halted(1)
    ensures file.Some? && "summary" !in file.value.fieldnames.GetOr([]) ==> outcome == Halted(1)
    ensures file.Some? && "summary" in file.value.fieldnames.GetOr([])
            ==> outcome == Batch(file.value.rows, NormalizeRow, Creator(jira, templates), server)
  {
    if file.None? {
      return Halted(1);
    }
    if "summary" !in file.value.fieldnames.GetOr([]) {
      return Halted(1);
    }
    var rows := file.value.rows;
    ghost var create := Creator(jira, templates);
    var created: seq<CreatedRow> := [];
    var failed: seq<FailedRow> := [];
    var i := 0;
    while i < |rows|
      invariant 0 <= i <= |rows|
      invariant Batch(rows[..i], NormalizeRow, create, server) == Completed(created, failed)
    {
      BatchStep(rows, i, NormalizeRow, create, server);
      var rowNum := i + 2;
      var plan := NormalizeRow(rows[i]);
      i := i + 1;
      match plan {
        case Skip =>
        case Abort =>
          HaltedStays(rows, i, NormalizeRow, create, server);
          return Halted(1);
        case Plan(summary, args) =>
          var result, _ := CreateAapIssue(jira, templates, args);
          assert create(args) == result;
          match result {
            case Created(key) =>
              created := created + [CreatedRow(rowNum, key, summary, server + "/browse/" + key)];
            case Raised(message) =>
              failed := failed + [FailedRow(rowNum, summary, message)];
            case Exited(code) =>
              HaltedStays(rows, i, NormalizeRow, create, server);
              return Halted(code);
          }
      }
    }
    assert rows[..i] == rows;
    outcome := Completed(created, failed);
  }

  /** The row rules never pass an affects version for a type other than Bug, so a row's
      creation raises only when the project's components cannot be listed, and then every
      planned row fails: a completed batch has no failed rows when the components can be
      listed, and no created rows when they cannot. */
  lemma FailuresOnlyFromComponents(rows: seq<Row>, jira: AapJira, templates: string -> string, server: string)
    requires Batch(rows, NormalizeRow, Creator(jira, templates), server).Completed?
    ensures jira.projectComponents.Success? ==> Batch(rows, NormalizeRow, Creator(jira, templates), server).failed == []
    ensures jira.projectComponents.Failure? ==> Batch(rows, NormalizeRow, Creator(jira, templates), server).created == []
  {
    var create := Creator(jira, templates);
    forall r | NormalizeRow(r).Plan?
      ensures jira.projectComponents.Success? ==> !create(NormalizeRow(r).args).Raised?
      ensures jira.projectComponents.Failure? ==> !create(NormalizeRow(r).args).Created?
    {
      assert !Misplaced(NormalizeRow(r).args);
    }
    OnlyRaisesFail(rows, NormalizeRow, create, server);
  }
}
