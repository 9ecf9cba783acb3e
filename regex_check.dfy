/** The regular-expression platform-constraint checker of src/check-platform-constraints.py:
    constraints are kept as text, and versions are compared as strings. Its renovate.json update
    is the rule merge of module Renovate with the constraint text itself as "allowedVersions". */
module RegexCheck {
  import opened Wrappers
  import opened Text
  import opened OrderedMap
  import opened Pep440

  /** The characters of [a-zA-Z0-9_-]. */
  predicate IsPackageChar(c: char) { IsAlnum(c) || c == '_' || c == '-' }

  /** The characters of [<>=!]. */
  predicate IsOpChar(c: char) { c == '<' || c == '>' || c == '=' || c == '!' }

  /** The characters of [0-9.]. */
  predicate IsVersionChar(c: char) { IsDigit(c) || c == '.' }

  predicate AllPackageChars(s: string) { forall i :: 0 <= i < |s| ==> IsPackageChar(s[i]) }

  /** The length of the longest prefix of package characters. */
  function PackageLength(s: string): (k: nat)
    ensures k <= |s| && AllPackageChars(s[..k])
    ensures k < |s| ==> !IsPackageChar(s[k])
  {
    if s == [] || !IsPackageChar(s[0]) then 0
    else
      var k := 1 + PackageLength(s[1..]);
      assert forall i :: 1 <= i < k ==> s[..k][i] == s[1..][..k - 1][i - 1];
      k
  }

  /** What one line contributes under ^([a-zA-Z0-9_-]+)([<>=!]+.*)$ applied to the stripped
      line: the package and the rest of the line verbatim, or nothing for blank lines, comments
      and lines that do not match. The name class and the operator class share no character,
      so the name is the longest run of name characters. */
  function RegexEntry(line: string): (e: Option<(string, string)>)
    ensures e.Some? ==> e.value.0 != [] && AllPackageChars(e.value.0)
    ensures e.Some? ==> e.value.1 != [] && IsOpChar(e.value.1[0])
    ensures e.Some? ==> Strip(line) == e.value.0 + e.value.1
  {
    var l := Strip(line);
    if l == [] || StartsWith(l, "#") then None
    else
      var k := PackageLength(l);
      if k == 0 || k == |l| || !IsOpChar(l[k]) then None
      else
        assert l == l[..k] + l[k..];
        Some((l[..k], l[k..]))
  }

  /** Conversely, every stripped line of the form name, operator, rest is an entry. */
  lemma RegexEntryComplete(line: string, name: string, value: string)
    requires Strip(line) == name + value
    requires name != [] && AllPackageChars(name)
    requires value != [] && IsOpChar(value[0])
    ensures RegexEntry(line) == Some((name, value))
  {
    var l := Strip(line);
    assert l[0] == name[0];
    assert !StartsWith(l, "#") by { assert l[..1][0] == name[0]; }
    PackageLengthOf(l, name);
    assert l[..|name|] == name && l[|name|..] == value;
  }

  lemma {:induction false} PackageLengthOf(s: string, name: string)
    requires |name| < |s| && s[..|name|] == name && AllPackageChars(name) && !IsPackageChar(s[|name|])
    ensures PackageLength(s) == |name|
  {
    if name != [] {
      PackageLengthOf(s[1..], name[1..]);
    }
  }

  /** parse_constraints_file. content is the file's text, None when the file does not exist.
      A later line for a package replaces the earlier value (see OrderedMap.FoldLastWins). */
  method ParseConstraintsFile(content: Option<string>) returns (constraints: Table<string>)
    ensures content.None? || content == Some("") ==> constraints == []
    ensures content.Some? ==> constraints == FoldLines(SplitLines(content.value), RegexEntry)
    ensures UniqueKeys(constraints)
  {
    constraints := [];
    if content.None? {
      return;
    }
    var lines := SplitLines(content.value);
    var i := 0;
    while i < |lines|
      invariant 0 <= i <= |lines|
      invariant constraints == FoldLines(lines[..i], RegexEntry)
    {
      FoldLinesStep(lines, i, RegexEntry);
      var line := Strip(lines[i]);
      if line == [] || StartsWith(line, "#") {
        assert RegexEntry(lines[i]).None?;
        i := i + 1;
        continue;
      }
      var k := PackageLength(line);
      if k > 0 && k < |line| && IsOpChar(line[k]) {
        assert RegexEntry(lines[i]) == Some((line[..k], line[k..]));
        constraints := Put(constraints, line[..k], line[k..]);
      } else {
        assert RegexEntry(lines[i]).None?;
      }
      i := i + 1;
    }
    assert lines[..i] == lines;
    FoldUniqueKeys(lines, RegexEntry);
  }

  /** marker followed by a character of [0-9.] starts at position p of s. */
  predicate MatchAt(s: string, marker: string, p: nat) {
    p + |marker| < |s| && s[p..p + |marker|] == marker && IsVersionChar(s[p + |marker|])
  }

  /** The leftmost position at or after p where marker followed by [0-9.] starts. */
  function SearchFrom(s: string, marker: string, p: nat): (r: Option<nat>)
    ensures r.Some? ==> p <= r.value && MatchAt(s, marker, r.value)
    ensures r.Some? ==> forall q :: p <= q < r.value ==> !MatchAt(s, marker, q)
    ensures r.None? ==> forall q :: p <= q ==> !MatchAt(s, marker, q)
    decreases |s| - p
  {
    if p + |marker| >= |s| then None
    else if MatchAt(s, marker, p) then Some(p)
    else SearchFrom(s, marker, p + 1)
  }

  /** The end of the run of [0-9.] characters that starts at i. */
  function VersionRunEnd(s: string, i: nat): (k: nat)
    requires i <= |s|
    ensures i <= k <= |s|
    ensures forall j :: i <= j < k ==> IsVersionChar(s[j])
    ensures k < |s| ==> !IsVersionChar(s[k])
    decreases |s| - i
  {
    if i == |s| || !IsVersionChar(s[i]) then i else VersionRunEnd(s, i + 1)
  }

  /** re.search(marker + "([0-9.]+)", s).group(1): the greedy [0-9.] run after the leftmost
      occurrence of marker that is followed by at least one such character. */
  function SearchNumber(s: string, marker: string): (r: Option<string>)
    ensures r.None? ==> forall q: nat :: !MatchAt(s, marker, q)
    ensures r.Some? ==> exists p: nat :: Leftmost(s, marker, p) && r.value == s[p + |marker|..VersionRunEnd(s, p + |marker|)]
    ensures r.Some? ==> r.value != [] && forall j :: 0 <= j < |r.value| ==> IsVersionChar(r.value[j])
  {
    match SearchFrom(s, marker, 0)
    case None => None
    case Some(p) =>
      var start := p + |marker|;
      var end := VersionRunEnd(s, start);
      assert Leftmost(s, marker, p);
      Some(s[start..end])
  }

  /** p is the leftmost match of marker followed by [0-9.]. */
  predicate Leftmost(s: string, marker: string, p: nat) {
    MatchAt(s, marker, p) && forall q: nat :: q < p ==> !MatchAt(s, marker, q)
  }

  /** The dependency is about package: it starts with package>= or package>. */
  predicate Applies(dep: string, package: string) {
    StartsWith(dep, package + ">=") || StartsWith(dep, package + ">")
  }

  /** The violation message for one constraint. */
  function Message(dep: string, package: string, constraint: string, minimum: string, maximum: string): (m: string)
    ensures StartsWith(m, "❌ " + dep + "\n")
  {
    assert ("❌ " + dep + "\n" + "   Platform maximum: " + package + constraint + "\n"
            + "   Your minimum (" + minimum + ") exceeds platform maximum (" + maximum + ")\n"
            + "   Lower the minimum version to be compatible")[..|"❌ " + dep + "\n"|] == "❌ " + dep + "\n";
    "❌ " + dep + "\n" + "   Platform maximum: " + package + constraint + "\n"
    + "   Your minimum (" + minimum + ") exceeds platform maximum (" + maximum + ")\n"
    + "   Lower the minimum version to be compatible"
  }

  /** What one constraint entry contributes: a message when the dependency is about the
      package, has a >= number, the constraint has a < number, and the first is not smaller
      than the second as a string. */
  function EntryViolation(dep: string, entry: (string, string)): Option<string> {
    if !Applies(dep, entry.0) then None
    else
      match SearchNumber(dep, ">=")
      case None => None
      case Some(minimum) =>
        match SearchNumber(entry.1, "<")
        case None => None
        case Some(maximum) =>
          if StrLess(minimum, maximum) then None
          else Some(Message(dep, entry.0, entry.1, minimum, maximum))
  }

  /** The messages of all entries, in the order of the constraints. */
  function Violations(dep: string, constraints: Table<string>): seq<string> {
    if constraints == [] then []
    else
      var n := |constraints| - 1;
      Violations(dep, constraints[..n])
      + match EntryViolation(dep, constraints[n]) case None => [] case Some(m) => [m]
  }

  lemma ViolationsStep(dep: string, constraints: Table<string>, i: nat)
    requires i < |constraints|
    ensures Violations(dep, constraints[..i + 1])
         == Violations(dep, constraints[..i])
            + match EntryViolation(dep, constraints[i]) case None => [] case Some(m) => [m]
  {
    assert constraints[..i + 1][..i] == constraints[..i];
  }

  /** check_dependency_compatibility. */
  method CheckDependency(dep: string, constraints: Table<string>) returns (violations: seq<string>)
    ensures violations == Violations(dep, constraints)
  {
    violations := [];
    var i := 0;
    while i < |constraints|
      invariant 0 <= i <= |constraints|
      invariant violations == Violations(dep, constraints[..i])
    {
      ViolationsStep(dep, constraints, i);
      var (package, platformConstraint) := constraints[i];
      i := i + 1;
      if !StartsWith(dep, package + ">=") && !StartsWith(dep, package + ">") {
        continue;
      }
      var minMatch := SearchNumber(dep, ">=");
      if minMatch.None? {
        continue;
      }
      var minVersion := minMatch.value;
      var platformMatch := SearchNumber(platformConstraint, "<");
      if platformMatch.None? {
        continue;
      }
      var platformMax := platformMatch.value;
      if !StrLess(minVersion, platformMax) {
        violations := violations + [Message(dep, package, platformConstraint, minVersion, platformMax)];
      }
    }
    assert constraints[..i] == constraints;
  }

  /** At most one message per constraint entry, and none exactly when no entry yields one;
      in particular none when the dependency is about none of the packages. */
  lemma {:induction false} ViolationsBounded(dep: string, constraints: Table<string>)
    ensures |Violations(dep, constraints)| <= |constraints|
    ensures Violations(dep, constraints) == [] <==> forall i :: 0 <= i < |constraints| ==> EntryViolation(dep, constraints[i]).None?
    ensures (forall i :: 0 <= i < |constraints| ==> !Applies(dep, constraints[i].0)) ==> Violations(dep, constraints) == []
  {
    if constraints != [] {
      var n := |constraints| - 1;
      ViolationsBounded(dep, constraints[..n]);
      assert forall i :: 0 <= i < n ==> constraints[..n][i] == constraints[i];
    }
  }

  /** A dependency written package>=minimum checked against the constraint <maximum: it is
      reported exactly when minimum is not smaller than maximum as a string. */
  lemma BoundCheck(package: string, minimum: string, maximum: string)
    requires package != [] && AllPackageChars(package)
    requires minimum != [] && forall j :: 0 <= j < |minimum| ==> IsVersionChar(minimum[j])
    requires maximum != [] && forall j :: 0 <= j < |maximum| ==> IsVersionChar(maximum[j])
    ensures EntryViolation(package + ">=" + minimum, (package, "<" + maximum)).Some? <==> !StrLess(minimum, maximum)
  {
    var dep := package + ">=" + minimum;
    var k := |package|;
    assert dep[..k + 2] == package + ">=";
    assert Applies(dep, package);
    assert dep[k..k + 2] == ">=";
    forall q: nat | q < k
      ensures !MatchAt(dep, ">=", q)
    {
      assert dep[q] == package[q];
      assert dep[q..q + 2][0] == dep[q];
    }
    assert dep[k + 2..] == minimum;
    NumberAfter(dep, ">=", k, minimum);
    var c := "<" + maximum;
    assert c[0..1] == "<" && c[1..] == maximum;
    NumberAfter(c, "<", 0, maximum);
  }

  /** The number found after the leftmost match when it runs to the end of the text. */
  lemma NumberAfter(s: string, marker: string, p: nat, number: string)
    requires Leftmost(s, marker, p)
    requires p + |marker| + |number| == |s| && s[p + |marker|..] == number
    requires forall j :: 0 <= j < |number| ==> IsVersionChar(number[j])
    ensures SearchNumber(s, marker) == Some(number)
  {
    SearchFinds(s, marker, 0, p);
    RunToEnd(s, p + |marker|);
    assert s[p + |marker|..|s|] == number;
  }

  lemma {:induction false} SearchFinds(s: string, marker: string, from: nat, p: nat)
    requires from <= p && Leftmost(s, marker, p)
    ensures SearchFrom(s, marker, from) == Some(p)
    decreases p - from
  {
    if from < p {
      assert !MatchAt(s, marker, from);
      SearchFinds(s, marker, from + 1, p);
    }
  }

  lemma {:induction false} RunToEnd(s: string, i: nat)
    requires i <= |s| && forall j :: i <= j < |s| ==> IsVersionChar(s[j])
    ensures VersionRunEnd(s, i) == |s|
    decreases |s| - i
  {
    if i < |s| {
      RunToEnd(s, i + 1);
    }
  }

  /** The examples of the test suite against ansible-core<2.17: by BoundCheck, 2.17.0 and
      2.17.10 are reported, being at or above the maximum as strings, and 2.16.14 is not. */
  lemma StringOrderExamples()
    ensures !StrLess("2.17.0", "2.17") && !StrLess("2.17.10", "2.17") && StrLess("2.16.14", "2.17")
  {
  }

  /** The string comparison disagrees with PEP 440 ordering: 2.9 is below 2.10 as a version
      but not as a string, so a dependency on pkg>=2.9 is reported against pkg<2.10; and 10.0
      is above 9.0 as a version but below it as a string, so pkg>=10.0 passes pkg<9.0. */
  lemma StringOrderDisagrees()
    ensures !StrLess("2.9", "2.10") && Less([2, 9], [2, 10])
    ensures StrLess("10.0", "9.0") && !Less([10, 0], [9, 0])
  {
    assert Compare([2, 9], [2, 10]) == -1;
    assert Compare([10, 0], [9, 0]) == 1;
  }
}
