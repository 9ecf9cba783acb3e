# team-devtools, the checkable core

A Dafny model of the pieces of ansible/team-devtools that carry real logic, with proofs about
them:

- **The platform-constraint checker, in three variants.** Each variant does three things:
  - It reads a constraints file into an insertion-ordered map from package name to upper-bound specifier.
  - It checks one dependency string against that map.
  - It merges one marker rule per constraint into the `packageRules` of a Renovate configuration.
- **The variants.**
  - The `hooks/` variant parses with PEP 508 requirement syntax and compares PEP 440 release versions.
  - The `src/team_devtools/` variant has the same check and merge, but its constraints come from a constant table.
  - The `src/check-platform-constraints.py` variant matches lines with two regular expressions and compares version text as plain strings.
- **The Jira issue tools:**
  - the index-or-name option validator and its wrappers;
  - `create_issue`, with its validation, component lookup and field-map assembly;
  - the CSV batch `create_issues_from_csv`;
  - the older single-file `create_aap_issue.py`, with its own validator copy, `create_aap_issue` and CSV batch.
- **Small string functions:**
  - the `Repo` name split;
  - the `Label` defaults;
  - the `get_repos` filter;
  - the OSC 8 hyperlink serialiser `render_link`.

Files, connections and the terminal are not modelled as such:

- **Inputs.** A file's text is an `Option<string>` (None when the file does not exist). A parsed JSON document is a value. A CSV file is its header and its rows.
- **Outputs.** A write is a returned value.
- **Jira.** The connection is an oracle datatype: the project's component list or its error, the current user's key, and the answer to a create request.
- **Templates.** The template loader is a function from file name to text.
- **Exceptions and exits.** A raised exception is a `Raised` outcome. `sys.exit` is an `Exited` outcome. The two differ because `SystemExit` passes through `except Exception`.

Modules:

- **Shared helpers.**
  - `Wrappers`: Option and Result.
  - `Text`: Python's `strip`, `splitlines`, ASCII `isdigit`, `str(int)`, `join` and string `<`.
  - `OrderedMap`: a dict as a sequence of pairs, and the line fold that fills it.
  - `Pep440`: release ordering with zero padding, clauses, and specifier sets.
  - `Pep508`: the restricted requirement grammar, its written form, and the round trips.
  - `JsonValue`.
- **Platform checker.**
  - `PlatformCheck`: the hooks variant's parse and check.
  - `PlatformTable`: the team variant's table.
  - `RegexCheck`: the regex variant.
  - `Renovate`: the merge all three variants share.
- **Jira issue tools.**
  - `JiraConst`: the data of `const.py`.
  - `IndexOrName`.
  - `CreateIssue`.
  - `IssueBatch`: what the two CSV batches share, with the row rules and the creation as parameters.
  - `IssueCsv`.
  - `AapIssue`.
- **Small functions.** `TeamDevtools` and `JiraUtils`.

The check and the merge of the hooks variant and the team variant are the same code in both files. They are modelled once, by `PlatformCheck.CheckDependency` and `Renovate.UpdateRenovateConfig`, and the rows below cite both files.

The regex variant compares version text as strings. The source's own comment says this is a simplification (src/check-platform-constraints.py:74-76). `RegexCheck.StringOrderDisagrees` shows two inputs where string order and release order disagree:

- "2.9" against "<2.10" is reported, although 2.9 is below 2.10.
- "10.0" against "<9.0" is let through.

## Model

| member | source | states |
|---|---|---|
| OrderedMap.Get | hooks/check_platform_constraints.py:60-63 | a lookup succeeds exactly for the keys of the map |
| OrderedMap.PutGet | hooks/check_platform_constraints.py:39 | after `d[k] = v`, k maps to v and every other key keeps its value |
| OrderedMap.PutKeys | hooks/check_platform_constraints.py:39 | assigning to an existing key keeps the key order; a new key is appended at the end |
| OrderedMap.PutUnique | hooks/check_platform_constraints.py:39 | assignment keeps the keys distinct |
| OrderedMap.FoldUniqueKeys | hooks/check_platform_constraints.py:29-42 | the map built from the lines never holds a key twice |
| OrderedMap.FoldSkipsLine | hooks/check_platform_constraints.py:36-42 | a line that gives no entry can be removed without changing the map, so it neither adds anything nor stops later lines |
| OrderedMap.FoldLastWins | src/check-platform-constraints.py:36-37 | a key maps to v exactly when the last line defining that key gives v |
| Text.Strip | hooks/check_platform_constraints.py:30 | the result is the input with leading and trailing whitespace removed and neither end of it whitespace |
| Text.StripKeeps | hooks/check_platform_constraints.py:30 | text with no whitespace at either end is unchanged by strip |
| Text.SplitLines | hooks/check_platform_constraints.py:29 | no line holds a line break |
| Text.SplitOneLine | hooks/check_platform_constraints.py:29 | a nonempty text without a line break is one line, itself |
| Text.SplitFirst | hooks/check_platform_constraints.py:29 | a line followed by "\n" or "\r\n" is the first line, and the lines of what follows come after it |
| Text.SplitJoined | hooks/check_platform_constraints.py:29 | lines joined with "\n" or "\r\n" read back as themselves, in order, when the last one is nonempty |
| Text.SplitJoinedTerminated | hooks/check_platform_constraints.py:29 | lines joined with "\n" or "\r\n" and ended with it read back as themselves, with no empty last line |
| Text.NatToStringRoundTrip | src/team_devtools/jira/create_issue.py:101-102 | reading the decimal form of n back gives n |
| Pep440.CompareAntisymmetric | hooks/check_platform_constraints.py:70 | comparing b with a gives the opposite of comparing a with b |
| Pep440.CompareTransitive | hooks/check_platform_constraints.py:70 | the release order is transitive, strictly so when either step is strict |
| Pep440.CompareUpToPadding | hooks/check_platform_constraints.py:69-70 | padding both releases with more zero segments does not change their comparison |
| Pep440.ContainsRespectsEquivalence | hooks/check_platform_constraints.py:77 | releases that differ only by trailing zeros are admitted by the same specifier sets |
| Pep440.ExclusiveBoundary | hooks/check_platform_constraints.py:77 | <2.17 rejects 2.17.0 and 2.17.10 and admits 2.16.14 |
| Pep508.ParseRequirement | hooks/check_platform_constraints.py:37 | a parsed requirement has a well-formed project name |
| Pep508.SpecifierRoundTrip | src/team_devtools/check_platform_constraints.py:40 | a well-formed specifier set, written out, reads back as itself |
| Pep508.RequirementRoundTrip | hooks/check_platform_constraints.py:37-39 | a name followed by a well-formed specifier set parses back to that name and that set |
| PlatformCheck.LineEntry | hooks/check_platform_constraints.py:30-42 | an entry comes with a well-formed name and a nonempty specifier set |
| PlatformCheck.ParseConstraintsFile | hooks/check_platform_constraints.py:20-44 | a missing file gives the empty map; otherwise the map is the fold of the entries of the file's lines in order, with distinct keys |
| PlatformCheck.IgnoredLineLeavesNoTrace | hooks/check_platform_constraints.py:29-42 | a blank line, a comment, a line that does not parse, or a bare name can be removed from the file without changing the map |
| PlatformCheck.WrittenLineEntry | hooks/check_platform_constraints.py:36-39 | a requirement line written as name and specifier gives exactly that entry |
| PlatformCheck.LineEntryOf | hooks/check_platform_constraints.py:36-39 | a stripped line that is no comment and parses with a nonempty specifier gives that name and specifier |
| PlatformCheck.LowerBoundStep | hooks/check_platform_constraints.py:66-71 | one more clause replaces the minimum only when it is >= or > and its version is greater |
| PlatformCheck.LowerBoundIsGreatest | hooks/check_platform_constraints.py:66-74 | there is no minimum exactly when no clause is >= or >; otherwise the minimum is the version of one such clause and no such clause is greater, so a later smaller clause never lowers it |
| PlatformCheck.CheckDependency | src/team_devtools/check_platform_constraints.py:43-81 | no violation for an unparsable dependency, an unconstrained name or no minimum; otherwise exactly one violation iff the minimum is not in the platform specifier |
| PlatformCheck.BoundaryDependencyViolates | hooks/check_platform_constraints.py:54-83 | ansible-core>=2.17.0 parses with minimum 2.17.0, which <2.17 does not contain |
| PlatformTable.ParseTable | src/team_devtools/check_platform_constraints.py:40 | the comprehension succeeds iff every specifier text parses, keeps the keys in order and maps each to its parsed specifier |
| PlatformTable.ParseWrittenTable | src/team_devtools/check_platform_constraints.py:35-40 | a table whose texts are written forms of specifier sets parses to exactly those sets |
| PlatformTable.UpperBoundText | src/team_devtools/check_platform_constraints.py:24-31 | a single < clause is well formed and is written as "<" and its release |
| PlatformTable.TableTexts | src/team_devtools/check_platform_constraints.py:23-32 | each of the eight table entries is the written form of its expected name and upper bound |
| PlatformTable.PlatformTableParses | src/team_devtools/check_platform_constraints.py:23-40 | get_constraints gives exactly the expected upper bounds, with exactly the keys of the table in its order |
| Renovate.MarkerRule | src/team_devtools/check_platform_constraints.py:99-106 | a new rule has the three keys, the package as its only name, the specifier text as allowedVersions, and the marker description |
| Renovate.UnmarkedAppend | hooks/check_platform_constraints.py:116-121 | filtering a concatenation is concatenating the filtered parts, so relative order is kept |
| Renovate.UnmarkedSingle | hooks/check_platform_constraints.py:116-121 | a single rule is kept exactly when its description is not the marker |
| Renovate.UnmarkedMembers | hooks/check_platform_constraints.py:116-121 | a rule survives the filter exactly when it is an existing rule without the marker description |
| Renovate.RulesForShape | hooks/check_platform_constraints.py:101-110 | one new rule per constraint, in map order, each a marker rule |
| Renovate.UnmarkedIdempotent | hooks/check_platform_constraints.py:116-121 | filtering twice is filtering once |
| Renovate.MergeKeepsUnmarked | hooks/check_platform_constraints.py:116-124 | the merged list keeps exactly the existing non-marker rules |
| Renovate.MergeIdempotent | hooks/check_platform_constraints.py:116-128 | merging the merged list again with the same constraints gives the same list, so a second run reports no change |
| Renovate.BuildRules | hooks/check_platform_constraints.py:101-110 | the loop builds exactly the marker rules of the constraints, one per entry, in map order |
| Renovate.DropMarked | hooks/check_platform_constraints.py:115-121 | the comprehension keeps exactly the existing rules whose description is not the marker, in order |
| Renovate.UpdateRenovateConfig | hooks/check_platform_constraints.py:88-135 | a missing file gives (false, "renovate.json not found") and no write; otherwise changed iff the merge differs by value, no write and "already up to date" when unchanged, else the merged rules are written and the message counts the new rules |
| RegexCheck.PackageLength | src/check-platform-constraints.py:34 | the longest prefix of `[A-Za-z0-9_-]` characters |
| RegexCheck.RegexEntry | src/check-platform-constraints.py:28-37 | an entry has a nonempty package name of `[A-Za-z0-9_-]` characters and a value starting with one of `<>=!`, and the two make up the stripped line |
| RegexCheck.RegexEntryComplete | src/check-platform-constraints.py:34-37 | conversely, every stripped line made of such a name and such a value gives that entry, with the value verbatim |
| RegexCheck.ParseConstraintsFile | src/check-platform-constraints.py:18-39 | a missing or empty file gives the empty map; otherwise the fold of the line entries, later lines replacing earlier values, with distinct keys |
| RegexCheck.SearchFrom | src/check-platform-constraints.py:60 | the leftmost occurrence of the marker at or after a position, or none |
| RegexCheck.SearchNumber | src/check-platform-constraints.py:60-72 | no result iff the marker followed by a `[0-9.]` character never occurs; otherwise the `[0-9.]+` run after the leftmost such occurrence, nonempty |
| RegexCheck.Message | src/check-platform-constraints.py:78-83 | the violation message opens with the ❌ line naming the dependency |
| RegexCheck.CheckDependency | src/check-platform-constraints.py:42-85 | the violations are, in map order, those of the entries that apply to the dependency and whose numbers compare as violating |
| RegexCheck.ViolationsBounded | src/check-platform-constraints.py:51-85 | at most one violation per entry; none iff no entry violates; none when no package applies |
| RegexCheck.BoundCheck | src/check-platform-constraints.py:53-83 | for `pkg>=min` against `<max`, a violation iff min >= max in string order |
| RegexCheck.StringOrderExamples | src/check-platform-constraints.py:77 | 2.17.0 and 2.17.10 are not below 2.17 as strings; 2.16.14 is |
| RegexCheck.StringOrderDisagrees | src/check-platform-constraints.py:74-77 | string order and release order disagree on 2.9 against 2.10 and on 10.0 against 9.0 |
| IndexOrName.ParseIndexOrName | src/team_devtools/jira/create_issue.py:99-110 | success is always an option. All digits: success iff the index is in range, giving options[index], else the index message (never a name lookup). Otherwise: success iff the value is an option, returned unchanged, else the invalid message listing all options |
| IndexOrName.IndexSelects | src/team_devtools/jira/create_issue.py:101-104 | every option is selected by its index written in decimal |
| IndexOrName.NameSelects | src/team_devtools/jira/create_issue.py:107-108 | every option that is not all digits is selected by its name |
| IndexOrName.NegativeIndexInvalid | src/team_devtools/jira/create_issue.py:109-110 | "-1" is not an index and gets the invalid message |
| CreateIssue.ParsePriority | src/team_devtools/jira/create_issue.py:113-115 | resolves against the priority list: success iff a valid index or a listed name |
| CreateIssue.ParseIssueType | src/team_devtools/jira/create_issue.py:118-120 | the same against the issue types |
| CreateIssue.ParseAffectsVersion | src/team_devtools/jira/create_issue.py:123-125 | the same against the affects versions |
| CreateIssue.ParseComponent | src/team_devtools/jira/create_issue.py:128-130 | the same against the components |
| CreateIssue.NamedList | src/team_devtools/jira/create_issue.py:174-181 | one `{"name": n}` object per component, in order |
| CreateIssue.IssueFields | src/team_devtools/jira/create_issue.py:169-209 | the texts fall back to the templates; a single component becomes a one-element list; story points, sprint, epic link and versions are present exactly when truthy; with a sprint and no assignee the current user is assigned |
| CreateIssue.IssueOutcome | src/team_devtools/jira/create_issue.py:163-221 | an issue is reported created only when the affects version is allowed, every component is found, the sprint assignee lookup (if made) succeeds, Jira accepts the field map and the myself() call after it succeeds; the call raises exactly for a misplaced affects version, a components error, a failed assignee lookup, or a failed myself() after an accepted create |
| CreateIssue.SubmitOutcome | src/team_devtools/jira/create_issue.py:207-221 | once validation, lookup and the assignee lookup pass, the outcome is Jira's answer to the field map: a refusal ends the process, an acceptance followed by a failing myself() raises, otherwise the issue is created |
| CreateIssue.BuildTemplate | src/team_devtools/jira/create_issue.py:183-209 | the dict literal followed by the conditional insertions gives the field map |
| CreateIssue.CreateIssue | src/team_devtools/jira/create_issue.py:133-221 | the outcome of create_issue; a misplaced affects version raises before anything else, a failed assignee lookup raises the lookup's error; a field map is submitted iff validation, component lookup and the assignee lookup pass, and it is the field map above |
| IssueBatch.Choose | src/team_devtools/jira/csv.py:54-64 | blank or unparsable text gives the default; otherwise the parsed value |
| IssueBatch.OrDefault | src/team_devtools/jira/csv.py:112-115 | the stripped text, or the default when it is blank |
| IssueBatch.AffectsFor | src/team_devtools/jira/csv.py:94-110 | an affects version iff the text is not blank, the type is Bug and the text parses, and then the parsed version |
| IssueBatch.BatchStep | src/team_devtools/jira/csv.py:47-134 | one more row is one more step of the batch |
| IssueBatch.HaltedStays | src/team_devtools/jira/csv.py:155-161 | once the process exits, later rows change nothing |
| IssueBatch.Bookkeeping | src/team_devtools/jira/csv.py:118-134 | the two lists of a completed batch together have one entry per row that is neither skipped nor ends the batch |
| IssueBatch.RowPlaced | src/team_devtools/jira/csv.py:118-134 | each such row's number is among the created rows exactly when its creation returned an issue, and among the failed rows exactly when it raised, and one of the two happened: with Bookkeeping, every planned row lands in exactly one list |
| IssueBatch.RowNumbers | src/team_devtools/jira/csv.py:47-51 | recorded row numbers start at 2, are those of non-skipped rows, and increase in row order |
| IssueBatch.OnlyRaisesFail | src/team_devtools/jira/csv.py:118-134 | with no creation raising there are no failed rows; with none creating an issue there are no created rows |
| IssueCsv.ReadRow | src/team_devtools/jira/csv.py:48-115 | a blank summary skips the row before any other cell is read; otherwise the cells read are those of the row |
| IssueCsv.Normalize | src/team_devtools/jira/csv.py:48-115 | defaults "Normal", "Task" and "dev-tools" for blank or invalid values; epic link None when blank; affects version only for a Bug that parses; file names defaulted; never a misplaced affects version |
| IssueCsv.NormalizeRow | src/team_devtools/jira/csv.py:47-115 | skip iff the summary is blank; abort iff a cell is missing; otherwise the normalised arguments |
| IssueCsv.CreateIssuesFromCsv | src/team_devtools/jira/csv.py:25-161 | a missing file or a header without summary exits with 1 before any row; otherwise the batch over the rows in order |
| IssueCsv.FailureSources | src/team_devtools/jira/csv.py:118-134 | rows fail only when the project's components cannot be listed or the myself() call after a create raises (the issue then exists but its row is recorded as failed); when either always happens, no row is recorded as created |
| AapIssue.ParsePriority | src/team_devtools/jira/create_aap_issue.py:90-92 | resolves against this file's priority list: success iff a valid index or a listed name |
| AapIssue.ParseIssueType | src/team_devtools/jira/create_aap_issue.py:95-97 | the same against this file's issue types |
| AapIssue.ParseAffectsVersion | src/team_devtools/jira/create_aap_issue.py:100-102 | the same against this file's affects versions |
| AapIssue.AapFields | src/team_devtools/jira/create_aap_issue.py:238-265 | both texts from the template files, the one component dev-tools, no assignee, and epic link and versions present exactly when truthy |
| AapIssue.AapOutcome | src/team_devtools/jira/create_aap_issue.py:219-274 | created only when the affects version is allowed, dev-tools is a project component and Jira accepts the map; raises exactly for a misplaced affects version or a components error; a project without dev-tools ends the process with 1; with valid input and dev-tools present, an accepted create gives the new key and a refused one ends the process with 1 |
| AapIssue.FindComponent | src/team_devtools/jira/create_aap_issue.py:44-50 | found iff the name is one of the project's components, and then that name |
| AapIssue.CreateAapIssue | src/team_devtools/jira/create_aap_issue.py:219-274 | the outcome above; a field map is submitted iff validation passes and dev-tools is found, and it is the field map above |
| AapIssue.ReadRow | src/team_devtools/jira/create_aap_issue.py:128-172 | a blank summary skips the row before any other cell is read; otherwise the cells read are those of the row |
| AapIssue.Normalize | src/team_devtools/jira/create_aap_issue.py:128-172 | defaults "Normal" and "Task" for blank or invalid values; epic link None when blank; affects version only for a Bug that parses; file names defaulted; never a misplaced affects version |
| AapIssue.NormalizeRow | src/team_devtools/jira/create_aap_issue.py:127-172 | skip iff the summary is blank; abort iff a cell is missing; otherwise the normalised arguments |
| AapIssue.CreateIssuesFromCsv | src/team_devtools/jira/create_aap_issue.py:105-216 | a missing file or a header without summary exits with 1 before any row; otherwise the batch over the rows in order |
| AapIssue.FailuresOnlyFromComponents | src/team_devtools/jira/create_aap_issue.py:174-190 | rows fail only when the project's components cannot be listed, and then none is created |
| TeamDevtools.SplitOnce | src/team_devtools/__init__.py:28-31 | None iff there is no '/'; otherwise a first part without '/' that, joined by '/' to the second, gives the name |
| TeamDevtools.SplitJoin | src/team_devtools/__init__.py:31 | the split of org + "/" + repo, with no '/' in org, gives org and repo back |
| TeamDevtools.Repo.constructor | src/team_devtools/__init__.py:14-22 | the name as given, org and repo empty |
| TeamDevtools.Repo.PostInit | src/team_devtools/__init__.py:22-31 | a name without '/' gives the ValueError message and leaves the fields alone; otherwise org is the text before the first '/' and repo all after it |
| TeamDevtools.NewRepo | src/team_devtools/__init__.py:14-31 | construction fails iff the name has no '/', with the message; otherwise a new Repo holding the split |
| TeamDevtools.LabelDefaults | src/team_devtools/__init__.py:34-40 | documents the dataclass defaults as declared on `Label`: a label built from its name alone has the empty color and description (it restates the declaration and proves nothing beyond it) |
| TeamDevtools.WithSlash | src/team_devtools/__init__.py:51-53 | only entries containing '/' are kept |
| TeamDevtools.WithSlashMembers | src/team_devtools/__init__.py:51-53 | an entry is kept iff it contains '/' |
| TeamDevtools.GetRepos | src/team_devtools/__init__.py:43-53 | a new Repo per entry containing '/', in order, each holding the split of its name, with no construction failing |
| JiraUtils.RenderLink | src/team_devtools/jira/utils.py:6-15 | the text defaults to the URI; the output is the OSC 8 opener with empty parameters, the URI verbatim, ESC \, the text verbatim and the closing OSC 8 sequence, of length \|uri\| + \|text\| + 14 |
| JiraUtils.FindChar | src/team_devtools/jira/utils.py:13 | the first position of a character, or the length when it does not occur |
| JiraUtils.ParseLink | src/team_devtools/jira/utils.py:13-15 | a URI read back from a link never holds ESC |
| JiraUtils.RenderParse | src/team_devtools/jira/utils.py:6-15 | a link whose URI holds no ESC reads back as its URI and text |
| JiraUtils.ParseRender | src/team_devtools/jira/utils.py:6-15 | whatever reads back as a link is exactly the rendering of what it reads back as |
| JiraUtils.NoEscaping | src/team_devtools/jira/utils.py:15 | nothing is escaped, so an ESC \ moved from the URI to the text renders the same |

## Left out

- **File and JSON I/O.** The following are inputs or results, not operations:
  - `Path.exists` and `read_text`;
  - `json.load`, and `json.dump` with its indentation and trailing newline;
  - `tomllib` and the pyproject scan;
  - YAML config loading.
- **The `main` functions and their printed reports.**
- **PEP 508 and PEP 440 outside the restriction.** Not modelled:
  - extras, URLs, environment markers;
  - epochs, pre-, post-, dev- and local releases;
  - `~=`, `===` and wildcards;
  - name normalisation.
  Versions are release tuples of naturals. A specifier set is a list of simple clauses.
- `Renovate.UpdateRenovateConfig`: `str(SpecifierSet)` is the parameter `render`, not the library's canonical clause ordering. The marker rules it writes are proved from `render` alone.
- `PlatformCheck.CheckDependency`: a violation is a record (dependency, name, platform specifier, minimum), not the formatted message. The message's text depends on `str(Version)` and `str(SpecifierSet)`. The regex variant's message is modelled as text (`RegexCheck.Message`).
- **Regex engine and `str.isdigit`.** Python's regex engine is not modelled: the two patterns are written as explicit predicates. `str.isdigit` is restricted to the ASCII digits: other Unicode digits pass `isdigit` but fail `int()` in ways not modelled.
- **splitlines separators.** `splitlines` breaks on the separators Python documents. Characters outside that list are ordinary text.
- `CreateIssue.IssueFields`: `issue_template` is a record with one field per key. An absent optional key is None. `CreateIssue.AsFields` gives the dict as Jira receives it, but no property is proved about it. The same holds for `AapIssue.AapFields`.
- `CreateIssue.IssueOutcome`: a components error is taken to be an exception other than `ValueError`. A `ValueError` raised by `project_components` itself would end the process instead. The same holds for `AapIssue.AapOutcome`.
- **Jira calls.** The two `myself()` calls of `create_issue` are answers of the connection, each a key or an error. A connection is one fixed set of answers, so the same call made for two rows gets the same answer. The other Jira calls (`sprints`, `search_issues`) and the project fixed to AAP are not part of this model.
- `PlatformCheck.LowerBoundIsGreatest`: the clauses are scanned in written order, not in the frozenset order of `req.specifier`, and equal clauses are not merged. The greatest lower bound is the same up to equivalent spellings, and whether it is admitted is not affected (`Pep440.ContainsRespectsEquivalence`). When `>=2.17` and `>2.17.0` are both written, the spelling reported in the violation may differ from the checker's.
- **Template loading.** `load_template`'s file lookup, its stripping and its "." fallback are not modelled: the loader is a function parameter.
- **The interactive layer.** Not modelled:
  - `questionary` prompts;
  - the `input()` retry loop of `select_from_list`;
  - argparse;
  - sprint-label dates;
  - the `info`/`error`/`warning` printing helpers of `utils.py`;
  - everything in `ui.py`.
- **`get_labels`.** `Label(name=k, **v)` from the YAML file is not modelled. Only the `Label` defaults are.
- `TeamDevtools.GetRepos`: the YAML file is replaced by the list of configured entries. The generator is modelled as the list it yields.
