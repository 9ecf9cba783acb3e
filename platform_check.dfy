/** The PEP 440 platform-constraint checker of hooks/check_platform_constraints.py. The copy in
    src/team_devtools/check_platform_constraints.py has the same check and update functions and
    takes its constraints from a constant table instead (module PlatformTable). */
module PlatformCheck {
  import opened Wrappers
  import opened Text
  import opened OrderedMap
  import opened Pep440
  import opened Pep508

  /** Package name to platform specifier, in the order the names were first read. */
  type Constraints = Table<SpecifierSet>

  /** A reported violation: the dependency as written, its name, the platform specifier and
      the effective minimum version that falls outside it. */
  datatype Violation = Violation(dependency: string, name: string, platform: SpecifierSet, minimum: Release)

  /** What one line of the constraints file contributes: nothing for blank and comment lines,
      lines that are not requirements and bare names; otherwise the name and its specifier. */
  function LineEntry(line: string): (e: Option<(string, SpecifierSet)>)
    ensures e.Some? ==> IsName(e.value.0) && e.value.1 != []
  {
    var l := Strip(line);
    if l == [] || StartsWith(l, "#") then None
    else
      match ParseRequirement(l)
      case None => None
      case Some(req) => if req.specifier == [] then None else Some((req.name, req.specifier))
  }

  /** parse_constraints_file. content is the file's text, None when the file does not exist. */
  method ParseConstraintsFile(content: Option<string>) returns (constraints: Constraints)
    ensures content.None? ==> constraints == []
    ensures content.Some? ==> constraints == FoldLines(SplitLines(content.value), LineEntry)
    ensures UniqueKeys(constraints)
  {
    constraints := [];
    if content.None? {
      return;
    }
    var lines := SplitLines(content.value);
    var i := 0;
    while i < |lines|
      invariant 0 <= i <= |lines|
      invariant constraints == FoldLines(lines[..i], LineEntry)
    {
      FoldLinesStep(lines, i, LineEntry);
      var line := Strip(lines[i]);
      if line == [] || StartsWith(line, "#") {
        assert LineEntry(lines[i]).None?;
        i := i + 1;
        continue;
      }
      var req := ParseRequirement(line);
      if req.Some? && req.value.specifier != [] {
        assert LineEntry(lines[i]) == Some((req.value.name, req.value.specifier));
        constraints := Put(constraints, req.value.name, req.value.specifier);
      } else {
        assert LineEntry(lines[i]).None?;
      }
      i := i + 1;
    }
    assert lines[..i] == lines;
    FoldUniqueKeys(lines, LineEntry);
  }

  /** A blank line, a comment, a line that is not a requirement and a bare name add nothing
      and do not stop the lines after them from being read. */
  lemma IgnoredLineLeavesNoTrace(before: seq<string>, line: string, after: seq<string>)
    requires var l := Strip(line);
             l == [] || StartsWith(l, "#") || ParseRequirement(l).None? || ParseRequirement(l).value.specifier == []
    ensures FoldLines(before + [line] + after, LineEntry) == FoldLines(before + after, LineEntry)
  {
    FoldSkipsLine(before, line, after, LineEntry);
  }

  /** A line holding a name and a nonempty specifier set, written out, stores that set under
      that name. */
  lemma WrittenLineEntry(r: Requirement)
    requires IsName(r.name) && WellFormed(r.specifier)
    ensures LineEntry(RequirementText(r)) == Some((r.name, r.specifier))
  {
    var s := RequirementText(r);
    assert s[0] == r.name[0];
    assert s[|s| - 1] == SpecifierText(r.specifier)[|SpecifierText(r.specifier)| - 1];
    StripKeeps(s);
    RequirementRoundTrip(r);
    LineEntryOf(s, r);
  }

  lemma LineEntryOf(line: string, r: Requirement)
    requires Strip(line) == line && line != [] && line[0] != '#'
    requires ParseRequirement(line) == Some(r) && r.specifier != []
    ensures LineEntry(line) == Some((r.name, r.specifier))
  {
    assert line[..1][0] == line[0];
    assert !StartsWith(line, "#");
  }

  predicate IsLowerBound(op: Op) { op == Ge || op == Gt }

  /** The effective minimum of a specifier set as the checker computes it: scanning the
      clauses, a >= or > clause replaces the current minimum when there is none yet or when its
      version is greater. The checker iterates a frozenset, in hash order and with equal
      clauses merged; the clauses are scanned here in written order. Which of two equivalent
      spellings (2.17 and 2.17.0) is reported can depend on that order, whether the minimum
      is admitted cannot (ContainsRespectsEquivalence). */
  function LowerBound(spec: SpecifierSet): Option<Release> {
    if spec == [] then None
    else
      var m := LowerBound(spec[..|spec| - 1]);
      var c := spec[|spec| - 1];
      if IsLowerBound(c.op) && (m.None? || Less(m.value, c.version)) then Some(c.version) else m
  }

  /** Scanning one more clause. */
  lemma LowerBoundStep(spec: SpecifierSet, i: nat)
    requires i < |spec|
    ensures LowerBound(spec[..i + 1])
         == if IsLowerBound(spec[i].op) && (LowerBound(spec[..i]).None? || Less(LowerBound(spec[..i]).value, spec[i].version))
            then Some(spec[i].version) else LowerBound(spec[..i])
  {
    assert spec[..i + 1][..i] == spec[..i];
  }

  /** The effective minimum is absent exactly when there is no >= or > clause; otherwise it
      is the version of one of them and no such clause has a greater version. */
  lemma {:induction false} LowerBoundIsGreatest(spec: SpecifierSet)
    ensures LowerBound(spec).None? <==> forall i :: 0 <= i < |spec| ==> !IsLowerBound(spec[i].op)
    ensures LowerBound(spec).Some? ==>
      (exists i :: 0 <= i < |spec| && IsLowerBound(spec[i].op) && spec[i].version == LowerBound(spec).value)
      && forall i :: 0 <= i < |spec| && IsLowerBound(spec[i].op) ==> !Less(LowerBound(spec).value, spec[i].version)
  {
    if spec != [] {
      var init := spec[..|spec| - 1];
      var c := spec[|spec| - 1];
      var n := |spec| - 1;
      LowerBoundIsGreatest(init);
      var m := LowerBound(init);
      assert forall i :: 0 <= i < n ==> spec[i] == init[i];
      if IsLowerBound(c.op) && (m.None? || Less(m.value, c.version)) {
        assert IsLowerBound(spec[n].op) && spec[n].version == c.version;
        forall i | 0 <= i < |spec| && IsLowerBound(spec[i].op)
          ensures !Less(c.version, spec[i].version)
        {
          if i < n {
            CompareAntisymmetric(spec[i].version, m.value);
            CompareAntisymmetric(m.value, c.version);
            CompareTransitive(spec[i].version, m.value, c.version);
            CompareAntisymmetric(spec[i].version, c.version);
          } else {
            CompareAntisymmetric(c.version, c.version);
          }
        }
      } else if m.Some? {
        var k :| 0 <= k < n && IsLowerBound(init[k].op) && init[k].version == m.value;
        assert spec[k] == init[k];
      }
    }
  }

  /** check_dependency_compatibility: at most one violation, and one exactly when the
      dependency parses, its name has a platform specifier, it has an effective minimum and
      that minimum is not in the platform specifier. */
  method CheckDependency(dep: string, constraints: Constraints) returns (violations: seq<Violation>)
    ensures ParseRequirement(dep).None? ==> violations == []
    ensures ParseRequirement(dep).Some? ==>
      var req := ParseRequirement(dep).value;
      var platform := Get(constraints, req.name);
      var minimum := LowerBound(req.specifier);
      (platform.None? || minimum.None? ==> violations == [])
      && (platform.Some? && minimum.Some? ==>
            violations == if Contains(platform.value, minimum.value) then []
                          else [Violation(dep, req.name, platform.value, minimum.value)])
  {
    violations := [];
    var parsed := ParseRequirement(dep);
    if parsed.None? {
      return;
    }
    var req := parsed.value;
    var platform := Get(constraints, req.name);
    if platform.None? {
      return;
    }
    var minVersion: Option<Release> := None;
    var i := 0;
    while i < |req.specifier|
      invariant 0 <= i <= |req.specifier|
      invariant minVersion == LowerBound(req.specifier[..i])
    {
      LowerBoundStep(req.specifier, i);
      var spec := req.specifier[i];
      if spec.op == Ge || spec.op == Gt {
        if minVersion.None? || Less(minVersion.value, spec.version) {
          minVersion := Some(spec.version);
        }
      }
      i := i + 1;
    }
    assert req.specifier[..i] == req.specifier;
    if minVersion.None? {
      return;
    }
    if !Contains(platform.value, minVersion.value) {
      violations := [Violation(dep, req.name, platform.value, minVersion.value)];
    }
  }

  /** The boundary case: a dependency on ansible-core>=2.17.0 has minimum 2.17.0, which the
      platform specifier <2.17 does not contain, so it is reported. */
  lemma BoundaryDependencyViolates()
    ensures ParseRequirement("ansible-core>=2.17.0") == Some(Requirement("ansible-core", [Clause(Ge, [2, 17, 0])]))
    ensures LowerBound([Clause(Ge, [2, 17, 0])]) == Some([2, 17, 0])
    ensures !Contains([Clause(Lt, [2, 17])], [2, 17, 0])
  {
    BoundaryParses();
    ExclusiveBoundary();
  }

  lemma BoundaryParses()
    ensures ParseRequirement("ansible-core>=2.17.0") == Some(Requirement("ansible-core", [Clause(Ge, [2, 17, 0])]))
  {
    var r := Requirement("ansible-core", [Clause(Ge, [2, 17, 0])]);
    assert IsName(r.name);
    BoundaryText(r);
    RequirementRoundTrip(r);
  }

  lemma BoundaryText(r: Requirement)
    requires r == Requirement("ansible-core", [Clause(Ge, [2, 17, 0])]) && IsName(r.name)
    ensures WellFormed(r.specifier) && RequirementText(r) == "ansible-core>=2.17.0"
  {
    assert NatToString(17) == "17";
    assert ReleaseText([2, 17, 0]) == "2.17.0";
  }
}
