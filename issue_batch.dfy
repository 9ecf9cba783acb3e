/** What the two create_issues_from_csv functions (src/team_devtools/jira/csv.py and
    src/team_devtools/jira/create_aap_issue.py) share: rows as csv.DictReader gives them, the
    default rules for a cell, and the created/failed bookkeeping of the batch. The row rules
    (plan) and the issue creation (create) are parameters; each file supplies its own. */
module IssueBatch {
  import opened Wrappers
  import opened Text
  import opened CreateIssue

  /** A row as csv.DictReader gives it: column name to cell, None for a cell missing from a row
      shorter than the header. */
  type Row = map<string, Option<string>>

  /** The file after reading: its header (None for an empty file) and its rows. */
  datatype CsvFile = CsvFile(fieldnames: Option<seq<string>>, rows: seq<Row>)

  /** row.get(column, ""). */
  function Cell(row: Row, column: string): Option<string> {
    if column in row then row[column] else Some("")
  }

  /** A chosen value: the default when the stripped text is blank or does not parse. */
  function Choose(text: string, parse: string -> Result<string, string>, default: string): (v: string)
    ensures Strip(text) == [] ==> v == default
    ensures Strip(text) != [] && parse(Strip(text)).Success? ==> v == parse(Strip(text)).value
    ensures Strip(text) != [] && parse(Strip(text)).Failure? ==> v == default
  {
    var t := Strip(text);
    if t == [] then default
    else
      match parse(t)
      case Success(value) => value
      case Failure(_) => default
  }

  /** The stripped text, or the default when it is blank (`x.strip() or default`). */
  function OrDefault(text: string, default: string): (v: string)
    ensures Strip(text) == [] ==> v == default
    ensures Strip(text) != [] ==> v == Strip(text)
  {
    var t := Strip(text);
    if t == [] then default else t
  }

  /** The affects version: kept only for bugs and only when it parses. */
  function AffectsFor(text: string, issueType: string, parse: string -> Result<string, string>): (v: Option<string>)
    ensures v.Some? <==> Strip(text) != [] && issueType == "Bug" && parse(Strip(text)).Success?
    ensures v.Some? ==> v.value == parse(Strip(text)).value
  {
    var t := Strip(text);
    if t == [] || issueType != "Bug" then None
    else
      match parse(t)
      case Success(version) => Some(version)
      case Failure(_) => None
  }

  /** What a row becomes: skipped, the end of the batch (a missing cell cannot be stripped, and
      the error reaches the handler around the whole batch), or a summary and the arguments of
      the creation call. */
  datatype RowPlan<A> = Skip | Abort | Plan(summary: string, args: A)

  datatype CreatedRow = CreatedRow(row: nat, key: string, summary: string, url: string)
  datatype FailedRow = FailedRow(row: nat, summary: string, message: string)

  /** How the batch ends: the created and failed rows, or the process exiting with a status. */
  datatype BatchOutcome = Completed(created: seq<CreatedRow>, failed: seq<FailedRow>) | Halted(code: int)

  /** One row, number rowNum, whose plan is p, after the rows before it gave acc. An issue
      created is recorded with its browse URL; an exception is recorded as a failure; a
      sys.exit ends the batch. */
  function Step<A>(acc: BatchOutcome, rowNum: nat, p: RowPlan<A>, create: A -> Outcome, server: string): BatchOutcome {
    match acc
    case Halted(code) => Halted(code)
    case Completed(created, failed) =>
      match p
      case Skip => acc
      case Abort => Halted(1)
      case Plan(summary, args) =>
        match create(args)
        case Created(key) => Completed(created + [CreatedRow(rowNum, key, summary, server + "/browse/" + key)], failed)
        case Raised(message) => Completed(created, failed + [FailedRow(rowNum, summary, message)])
        case Exited(code) => Halted(code)
  }

  /** The rows in order, numbered from 2 (row 1 is the header). */
  function Batch<A>(rows: seq<Row>, plan: Row -> RowPlan<A>, create: A -> Outcome, server: string): BatchOutcome {
    if rows == [] then Completed([], [])
    else
      var n := |rows| - 1;
      Step(Batch(rows[..n], plan, create, server), n + 2, plan(rows[n]), create, server)
  }

  lemma BatchStep<A>(rows: seq<Row>, i: nat, plan: Row -> RowPlan<A>, create: A -> Outcome, server: string)
    requires i < |rows|
    ensures Batch(rows[..i + 1], plan, create, server)
         == Step(Batch(rows[..i], plan, create, server), i + 2, plan(rows[i]), create, server)
  {
    assert rows[..i + 1][..i] == rows[..i];
  }

  /** Once the batch has halted, later rows change nothing. */
  lemma {:induction false} HaltedStays<A>(rows: seq<Row>, i: nat, plan: Row -> RowPlan<A>, create: A -> Outcome, server: string)
    requires i <= |rows| && Batch(rows[..i], plan, create, server).Halted?
    ensures Batch(rows, plan, create, server) == Batch(rows[..i], plan, create, server)
    decreases |rows| - i
  {
    if i < |rows| {
      BatchStep(rows, i, plan, create, server);
      HaltedStays(rows, i + 1, plan, create, server);
    } else {
      assert rows[..i] == rows;
    }
  }

  /** The number of rows that are neither skipped nor end the batch. */
  function Planned<A>(rows: seq<Row>, plan: Row -> RowPlan<A>): nat {
    if rows == [] then 0
    else Planned(rows[..|rows| - 1], plan) + if plan(rows[|rows| - 1]).Plan? then 1 else 0
  }

  /** Every planned row of a completed batch lands in exactly one of the two lists. */
  lemma {:induction false} Bookkeeping<A>(rows: seq<Row>, plan: Row -> RowPlan<A>, create: A -> Outcome, server: string)
    requires Batch(rows, plan, create, server).Completed?
    ensures |Batch(rows, plan, create, server).created| + |Batch(rows, plan, create, server).failed| == Planned(rows, plan)
  {
    if rows != [] {
      var n := |rows| - 1;
      assert Batch(rows[..n], plan, create, server).Completed?;
      Bookkeeping(rows[..n], plan, create, server);
    }
  }

  /** The row numbers recorded in a list: from 2 to the last row's number, each that of a
      planned row (so skipped rows are in neither list), increasing in row order. */
  ghost predicate Numbered<A>(nums: seq<nat>, rows: seq<Row>, plan: Row -> RowPlan<A>) {
    && (forall k :: 0 <= k < |nums| ==> 2 <= nums[k] <= |rows| + 1 && plan(rows[nums[k] - 2]).Plan?)
    && (forall k, l :: 0 <= k < l < |nums| ==> nums[k] < nums[l])
  }

  function CreatedNumbers(c: seq<CreatedRow>): (nums: seq<nat>)
    ensures |nums| == |c| && forall k :: 0 <= k < |c| ==> nums[k] == c[k].row
  {
    if c == [] then [] else CreatedNumbers(c[..|c| - 1]) + [c[|c| - 1].row]
  }

  function FailedNumbers(f: seq<FailedRow>): (nums: seq<nat>)
    ensures |nums| == |f| && forall k :: 0 <= k < |f| ==> nums[k] == f[k].row
  {
    if f == [] then [] else FailedNumbers(f[..|f| - 1]) + [f[|f| - 1].row]
  }

  /** Appending the number of the next planned row keeps the numbering. */
  lemma NumberedExtend<A>(nums: seq<nat>, rows: seq<Row>, plan: Row -> RowPlan<A>)
    requires rows != [] && Numbered(nums, rows[..|rows| - 1], plan) && plan(rows[|rows| - 1]).Plan?
    ensures Numbered(nums + [|rows| + 1], rows, plan)
  {
    var n := |rows| - 1;
    forall k | 0 <= k < |nums|
      ensures rows[nums[k] - 2] == rows[..n][nums[k] - 2]
    {
    }
  }

  lemma NumberedKeep<A>(nums: seq<nat>, rows: seq<Row>, plan: Row -> RowPlan<A>)
    requires rows != [] && Numbered(nums, rows[..|rows| - 1], plan)
    ensures Numbered(nums, rows, plan)
  {
    var n := |rows| - 1;
    forall k | 0 <= k < |nums|
      ensures rows[nums[k] - 2] == rows[..n][nums[k] - 2]
    {
    }
  }

  /** Row numbers of a completed batch. */
  lemma {:induction false} RowNumbers<A>(rows: seq<Row>, plan: Row -> RowPlan<A>, create: A -> Outcome, server: string)
    requires Batch(rows, plan, create, server).Completed?
    ensures Numbered(CreatedNumbers(Batch(rows, plan, create, server).created), rows, plan)
    ensures Numbered(FailedNumbers(Batch(rows, plan, create, server).failed), rows, plan)
  {
    if rows != [] {
      var n := |rows| - 1;
      var before := Batch(rows[..n], plan, create, server);
      assert before.Completed?;
      RowNumbers(rows[..n], plan, create, server);
      var after := Batch(rows, plan, create, server);
      var c := CreatedNumbers(before.created);
      var f := FailedNumbers(before.failed);
      if plan(rows[n]).Plan? && create(plan(rows[n]).args).Created? {
        assert CreatedNumbers(after.created) == c + [n + 2];
        NumberedExtend(c, rows, plan);
      } else {
        assert CreatedNumbers(after.created) == c;
        NumberedKeep(c, rows, plan);
      }
      if plan(rows[n]).Plan? && create(plan(rows[n]).args).Raised? {
        assert FailedNumbers(after.failed) == f + [n + 2];
        NumberedExtend(f, rows, plan);
      } else {
        assert FailedNumbers(after.failed) == f;
        NumberedKeep(f, rows, plan);
      }
    }
  }

  /** The lists of a completed batch after one more row: its number appended to the list its
      creation lands in. */
  lemma StepNumbers<A>(rows: seq<Row>, plan: Row -> RowPlan<A>, create: A -> Outcome, server: string)
    requires rows != [] && Batch(rows, plan, create, server).Completed?
    ensures Batch(rows[..|rows| - 1], plan, create, server).Completed?
    ensures var n := |rows| - 1;
      CreatedNumbers(Batch(rows, plan, create, server).created)
      == CreatedNumbers(Batch(rows[..n], plan, create, server).created)
         + if plan(rows[n]).Plan? && create(plan(rows[n]).args).Created? then [n + 2] else []
    ensures var n := |rows| - 1;
      FailedNumbers(Batch(rows, plan, create, server).failed)
      == FailedNumbers(Batch(rows[..n], plan, create, server).failed)
         + if plan(rows[n]).Plan? && create(plan(rows[n]).args).Raised? then [n + 2] else []
    ensures var n := |rows| - 1;
      plan(rows[n]).Plan? ==> !create(plan(rows[n]).args).Exited?
  {
  }

  /** A number is in a list with one number maybe appended iff it was there or was appended. */
  lemma AppendedIn(nums: seq<nat>, k: nat, x: nat, appended: bool)
    ensures k in nums + (if appended then [x] else []) <==> k in nums || (appended && k == x)
  {
  }

  /** No row number of a completed batch is past its last row. */
  lemma NotYetRecorded<A>(rows: seq<Row>, plan: Row -> RowPlan<A>, create: A -> Outcome, server: string)
    requires Batch(rows, plan, create, server).Completed?
    ensures |rows| + 2 !in CreatedNumbers(Batch(rows, plan, create, server).created)
    ensures |rows| + 2 !in FailedNumbers(Batch(rows, plan, create, server).failed)
  {
    RowNumbers(rows, plan, create, server);
  }

  /** Each planned row of a completed batch is recorded by its number in exactly one list:
      among the created rows when its creation returned an issue, among the failed rows when
      it raised (an exit would have halted the batch). */
  lemma {:induction false} RowPlaced<A>(rows: seq<Row>, plan: Row -> RowPlan<A>, create: A -> Outcome, server: string, i: nat)
    requires Batch(rows, plan, create, server).Completed?
    requires i < |rows| && plan(rows[i]).Plan?
    ensures create(plan(rows[i]).args).Created? || create(plan(rows[i]).args).Raised?
    ensures i + 2 in CreatedNumbers(Batch(rows, plan, create, server).created) <==> create(plan(rows[i]).args).Created?
    ensures i + 2 in FailedNumbers(Batch(rows, plan, create, server).failed) <==> create(plan(rows[i]).args).Raised?
  {
    var n := |rows| - 1;
    StepNumbers(rows, plan, create, server);
    var before := Batch(rows[..n], plan, create, server);
    var c := CreatedNumbers(before.created);
    var f := FailedNumbers(before.failed);
    var last := plan(rows[n]);
    AppendedIn(c, i + 2, n + 2, last.Plan? && create(last.args).Created?);
    AppendedIn(f, i + 2, n + 2, last.Plan? && create(last.args).Raised?);
    if i < n {
      assert rows[..n][i] == rows[i];
      RowPlaced(rows[..n], plan, create, server, i);
    } else {
      NotYetRecorded(rows[..n], plan, create, server);
    }
  }

  /** When no planned row's creation raises, a completed batch has no failed rows; when none
      creates an issue, it has no created rows. */
  lemma {:induction false} OnlyRaisesFail<A>(rows: seq<Row>, plan: Row -> RowPlan<A>, create: A -> Outcome, server: string)
    requires Batch(rows, plan, create, server).Completed?
    ensures (forall r :: plan(r).Plan? ==> !create(plan(r).args).Raised?) ==> Batch(rows, plan, create, server).failed == []
    ensures (forall r :: plan(r).Plan? ==> !create(plan(r).args).Created?) ==> Batch(rows, plan, create, server).created == []
  {
    if rows != [] {
      var n := |rows| - 1;
      assert Batch(rows[..n], plan, create, server).Completed?;
      OnlyRaisesFail(rows[..n], plan, create, server);
    }
  }
}
