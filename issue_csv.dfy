/** Batch issue creation of src/team_devtools/jira/csv.py: each CSV row is normalised (defaults
    for blank or invalid values, the affects version only for bugs) and handed to create_issue;
    the rows that create an issue and the rows whose creation raises are collected. */
module IssueCsv {
  import opened Wrappers
  import opened Text
  import opened JiraConst
  import opened CreateIssue
  import opened IssueBatch

  /** The cells a non-skipped row is read for, as written (before stripping). */
  datatype Cells = Cells(summary: string, priority: string, issueType: string, component: string,
                         epicLink: string, affectsVersion: string, descriptionFile: string,
                         acceptanceCriteriaFile: string)

  /** What reading a row's cells gives: a missing summary or other cell (None), a blank
      summary (the row is skipped before any other cell is read), or the cells. */
  datatype RowRead = Missing | Blank | Read(cells: Cells)

  function ReadRow(row: Row): (r: RowRead)
    ensures r.Blank? <==> Cell(row, "summary").Some? && Strip(Cell(row, "summary").value) == []
    ensures r.Read? ==> Strip(r.cells.summary) != [] && Cell(row, "summary") == Some(r.cells.summary)
    ensures r.Read? ==> Cell(row, "priority") == Some(r.cells.priority) && Cell(row, "issue_type") == Some(r.cells.issueType)
                        && Cell(row, "component") == Some(r.cells.component) && Cell(row, "epic_link") == Some(r.cells.epicLink)
                        && Cell(row, "affects_version") == Some(r.cells.affectsVersion)
                        && Cell(row, "description_file") == Some(r.cells.descriptionFile)
                        && Cell(row, "acceptance_criteria_file") == Some(r.cells.acceptanceCriteriaFile)
  {
    match Cell(row, "summary")
    case None => Missing
    case Some(summary) =>
      if Strip(summary) == [] then Blank
      else
        match (Cell(row, "priority"), Cell(row, "issue_type"), Cell(row, "component"), Cell(row, "epic_link"))
        case (Some(priority), Some(issueType), Some(component), Some(epicLink)) =>
          (match (Cell(row, "affects_version"), Cell(row, "description_file"), Cell(row, "acceptance_criteria_file"))
           case (Some(affects), Some(descriptionFile), Some(acceptanceFile)) =>
             Read(Cells(summary, priority, issueType, component, epicLink, affects, descriptionFile, acceptanceFile))
           case _ => Missing)
        case _ => Missing
  }

  /** The per-row rules of create_issues_from_csv: the summary stripped; priority, issue type
      and component parsed with their defaults "Normal", "Task" and "dev-tools"; the epic link
      None when blank; the affects version kept only for a Bug that parses; the template file
      names defaulted when blank. */
  function Normalize(c: Cells): (a: IssueArgs)
    ensures a.summary == Strip(c.summary)
    ensures a.priority in Priorities && a.issueType in IssueTypes
    ensures a.component.Single? && a.component.name in Components
    ensures a.priority == Choose(c.priority, ParsePriority, "Normal")
    ensures a.issueType == Choose(c.issueType, ParseIssueType, "Task")
    ensures a.component.name == Choose(c.component, ParseComponent, "dev-tools")
    ensures a.affectsVersion == AffectsFor(c.affectsVersion, a.issueType, ParseAffectsVersion)
    ensures a.epicLink.Some? <==> Strip(c.epicLink) != []
    ensures a.epicLink.Some? ==> a.epicLink.value == Strip(c.epicLink)
    ensures a.descriptionFile == OrDefault(c.descriptionFile, "description.txt")
    ensures a.acceptanceCriteriaFile == OrDefault(c.acceptanceCriteriaFile, "acceptance_criteria.txt")
    ensures a.storyPoints.None? && a.sprint.None? && a.description.None? && a.acceptanceCriteria.None? && a.assignee.None?
    ensures !Misplaced(a)
  {
    var priority := Choose(c.priority, ParsePriority, "Normal");
    var issueType := Choose(c.issueType, ParseIssueType, "Task");
    var component := Choose(c.component, ParseComponent, "dev-tools");
    var epic := Strip(c.epicLink);
    IssueArgs(
      Strip(c.summary), priority, issueType, Single(component),
      if epic == [] then None else Some(epic),
      AffectsFor(c.affectsVersion, issueType, ParseAffectsVersion),
      None, None,
      OrDefault(c.descriptionFile, "description.txt"),
      None, None,
      OrDefault(c.acceptanceCriteriaFile, "acceptance_criteria.txt"),
      None)
  }

  /** The row rules: a blank summary skips the row, a missing cell ends the batch. */
  function NormalizeRow(row: Row): (p: RowPlan<IssueArgs>)
    ensures p.Skip? <==> ReadRow(row).Blank?
    ensures p.Abort? <==> ReadRow(row).Missing?
    ensures p.Plan? ==> ReadRow(row).Read? && p.args == Normalize(ReadRow(row).cells) && p.summary == p.args.summary
  {
    match ReadRow(row)
    case Missing => Abort
    case Blank => Skip
    case Read(cells) =>
      var args := Normalize(cells);
      Plan(args.summary, args)
  }

  /** create_issue against a given connection and template loader. */
  function Creator(jira: Jira, templates: string -> string): IssueArgs -> Outcome {
    args => IssueOutcome(jira, templates, args)
  }

  /** create_issues_from_csv. file is None when the file does not exist; server is the
      configured Jira server. */
  method CreateIssuesFromCsv(file: Option<CsvFile>, jira: Jira, templates: string -> string, server: string)
    returns (outcome: BatchOutcome)
    ensures file.None? ==> outcome == Halted(1)
    ensures file.Some? && "summary" !in file.value.fieldnames.GetOr([]) ==> outcome == Halted(1)
    ensures file.Some? && "summary" in file.value.fieldnames.GetOr([])
            ==> outcome == Batch(file.value.rows, NormalizeRow, Creator(jira, templates), server)
  {
    if file.None? {
      return Halted(1);
    }
    if "summary" !in file.value.fieldnames.GetOr([]) {
      return Halted(1);
    }
    var rows := file.value.rows;
    ghost var create := Creator(jira, templates);
    var created: seq<CreatedRow> := [];
    var failed: seq<FailedRow> := [];
    var i := 0;
    while i < |rows|
      invariant 0 <= i <= |rows|
      invariant Batch(rows[..i], NormalizeRow, create, server) == Completed(created, failed)
    {
      BatchStep(rows, i, NormalizeRow, create, server);
      var rowNum := i + 2;
      var plan := NormalizeRow(rows[i]);
      i := i + 1;
      match plan {
        case Skip =>
        case Abort =>
          HaltedStays(rows, i, NormalizeRow, create, server);
          return Halted(1);
        case Plan(summary, args) =>
          var result, _ := CreateIssue.CreateIssue(jira, templates, args);
          assert create(args) == result;
          match result {
            case Created(key) =>
              created := created + [CreatedRow(rowNum, key, summary, server + "/browse/" + key)];
            case Raised(message) =>
              failed := failed + [FailedRow(rowNum, summary, message)];
            case Exited(code) =>
              HaltedStays(rows, i, NormalizeRow, create, server);
              return Halted(code);
          }
      }
    }
    assert rows[..i] == rows;
    outcome := Completed(created, failed);
  }

  /** Where failed rows come from. The row rules never pass an affects version for a type
      other than Bug, always name one component and never give a sprint, and every other
      Jira refusal ends the process. So a row's creation raises only when the project's
      components cannot be listed, or when the myself() call after the create raises (the
      issue then exists but its row is recorded as failed). A completed batch has no failed
      rows when neither happens, and no created rows when either always happens. */
  lemma FailureSources(rows: seq<Row>, jira: Jira, templates: string -> string, server: string)
    requires Batch(rows, NormalizeRow, Creator(jira, templates), server).Completed?
    ensures jira.projectComponents.Success? && jira.myselfAfterCreate.Success?
            ==> Batch(rows, NormalizeRow, Creator(jira, templates), server).failed == []
    ensures jira.projectComponents.Failure? || jira.myselfAfterCreate.Failure?
            ==> Batch(rows, NormalizeRow, Creator(jira, templates), server).created == []
  {
    var create := Creator(jira, templates);
    forall r | NormalizeRow(r).Plan?
      ensures jira.projectComponents.Success? && jira.myselfAfterCreate.Success? ==> !create(NormalizeRow(r).args).Raised?
      ensures jira.projectComponents.Failure? || jira.myselfAfterCreate.Failure? ==> !create(NormalizeRow(r).args).Created?
    {
      var args := NormalizeRow(r).args;
      assert !Misplaced(args) && ComponentNames(args.component) != [] && !NeedsMyself(args);
    }
    OnlyRaisesFail(rows, NormalizeRow, create, server);
  }
}
