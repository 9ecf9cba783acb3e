/** The constant platform table of src/team_devtools/check_platform_constraints.py and its
    conversion into specifier sets. Checking and the rule merge are those of PlatformCheck and
    Renovate: that file's check_dependency_compatibility and update_renovate_config are the same
    code as the hook's. */
module PlatformTable {
  import opened Wrappers
  import opened Text
  import opened OrderedMap
  import opened Pep440
  import opened Pep508
  import opened PlatformCheck
  import opened SeqFacts

  /** PLATFORM_CONSTRAINTS: package name to specifier text. */
  const PlatformConstraints: Table<string> := [
    ("ansible-core", "<2.17"),
    ("cffi", "<1.16"),
    ("django", "<4.3"),
    ("importlib-metadata", "<6.1"),
    ("jsonschema", "<4.22"),
    ("packaging", "<25.0"),
    ("python-gnupg", "<0.5.3"),
    ("setuptools", "<65.6")
  ]

  /** {name: parse(spec) for name, spec in table.items()}, with parse standing for the
      SpecifierSet constructor; None when some text is not a specifier set (the constructor
      raises). */
  function ParseTable(table: Table<string>, parse: string -> Option<SpecifierSet>): (r: Option<Constraints>)
    ensures r.Some? <==> forall i :: 0 <= i < |table| ==> parse(table[i].1).Some?
    ensures r.Some? ==> |r.value| == |table|
    ensures r.Some? ==> forall i :: 0 <= i < |table| ==> r.value[i] == (table[i].0, parse(table[i].1).value)
  {
    if table == [] then Some([])
    else
      var init := table[..|table| - 1];
      var last := table[|table| - 1];
      match ParseTable(init, parse)
      case None => None
      case Some(t) =>
        match parse(last.1)
        case None => None
        case Some(spec) => Some(t + [(last.0, spec)])
  }

  /** get_constraints. */
  function GetConstraints(): Option<Constraints> {
    ParseTable(PlatformConstraints, ParseSpecifier)
  }

  /** The table as specifier sets. */
  const Expected: Constraints := [
    ("ansible-core", [Clause(Lt, [2, 17])]),
    ("cffi", [Clause(Lt, [1, 16])]),
    ("django", [Clause(Lt, [4, 3])]),
    ("importlib-metadata", [Clause(Lt, [6, 1])]),
    ("jsonschema", [Clause(Lt, [4, 22])]),
    ("packaging", [Clause(Lt, [25, 0])]),
    ("python-gnupg", [Clause(Lt, [0, 5, 3])]),
    ("setuptools", [Clause(Lt, [65, 6])])
  ]

  /** A table entry is the written form of an entry of specifier sets. */
  ghost predicate Written(entry: (string, string), e: (string, SpecifierSet)) {
    WellFormed(e.1) && entry == (e.0, SpecifierText(e.1))
  }

  /** A table whose texts are the written forms of well-formed specifier sets converts to
      those sets. */
  lemma {:induction false} ParseWrittenTable(table: Table<string>, expected: Constraints)
    requires |table| == |expected|
    requires forall i :: 0 <= i < |table| ==> Written(table[i], expected[i])
    ensures ParseTable(table, ParseSpecifier) == Some(expected)
  {
    if table != [] {
      var n := |table| - 1;
      ParseWrittenTable(table[..n], expected[..n]);
      SpecifierRoundTrip(expected[n].1);
      ParseTableStep(table, ParseSpecifier, expected[..n], expected[n]);
      InitLast(expected);
    }
  }

  lemma ParseTableStep(table: Table<string>, parse: string -> Option<SpecifierSet>, init: Constraints, last: (string, SpecifierSet))
    requires table != []
    requires ParseTable(table[..|table| - 1], parse) == Some(init)
    requires table[|table| - 1].0 == last.0 && parse(table[|table| - 1].1) == Some(last.1)
    ensures ParseTable(table, parse) == Some(init + [last])
  {
  }

  /** An upper bound written out. */
  lemma UpperBoundText(bound: Release)
    requires |bound| > 0
    ensures WellFormed([Clause(Lt, bound)])
    ensures SpecifierText([Clause(Lt, bound)]) == "<" + ReleaseText(bound)
  {
  }

  /** Entry i of the table is the written form of entry i of Expected. */
  ghost predicate EntryWritten(i: nat)
    requires i < |PlatformConstraints| == |Expected|
  {
    Written(PlatformConstraints[i], Expected[i])
  }

  /** One entry: its text is "<" followed by its bound written out. */
  lemma EntryText(i: nat, text: string)
    requires i < |PlatformConstraints| == |Expected|
    requires |Expected[i].1| == 1 && Expected[i].1[0].op == Lt && |Expected[i].1[0].version| > 0
    requires ReleaseText(Expected[i].1[0].version) == text
    requires PlatformConstraints[i] == (Expected[i].0, "<" + text)
    ensures EntryWritten(i)
  {
    UpperBoundText(Expected[i].1[0].version);
    assert Expected[i].1 == [Clause(Lt, Expected[i].1[0].version)];
  }

  lemma Entry0() ensures EntryWritten(0) {
    assert ReleaseText([2, 17]) == "2.17";
    assert PlatformConstraints[0].1 == "<" + "2.17";
    EntryText(0, "2.17");
  }

  lemma Entry1() ensures EntryWritten(1) {
    assert ReleaseText([1, 16]) == "1.16";
    assert PlatformConstraints[1].1 == "<" + "1.16";
    EntryText(1, "1.16");
  }

  lemma Entry2() ensures EntryWritten(2) {
    assert ReleaseText([4, 3]) == "4.3";
    assert PlatformConstraints[2].1 == "<" + "4.3";
    EntryText(2, "4.3");
  }

  lemma Entry3() ensures EntryWritten(3) {
    assert ReleaseText([6, 1]) == "6.1";
    assert PlatformConstraints[3].1 == "<" + "6.1";
    EntryText(3, "6.1");
  }

  lemma Entry4() ensures EntryWritten(4) {
    assert ReleaseText([4, 22]) == "4.22";
    assert PlatformConstraints[4].1 == "<" + "4.22";
    EntryText(4, "4.22");
  }

  lemma Entry5() ensures EntryWritten(5) {
    assert ReleaseText([25, 0]) == "25.0";
    assert PlatformConstraints[5].1 == "<" + "25.0";
    EntryText(5, "25.0");
  }

  lemma Entry6() ensures EntryWritten(6) {
    assert ReleaseText([0, 5, 3]) == "0.5.3";
    assert PlatformConstraints[6].1 == "<" + "0.5.3";
    EntryText(6, "0.5.3");
  }

  lemma Entry7() ensures EntryWritten(7) {
    assert ReleaseText([65, 6]) == "65.6";
    assert PlatformConstraints[7].1 == "<" + "65.6";
    EntryText(7, "65.6");
  }

  /** The texts of the table are the written forms of the expected upper bounds. */
  lemma TableTexts()
    ensures forall i :: 0 <= i < |PlatformConstraints| ==> Written(PlatformConstraints[i], Expected[i])
  {
    Entry0(); Entry1(); Entry2(); Entry3(); Entry4(); Entry5(); Entry6(); Entry7();
    forall i | 0 <= i < |PlatformConstraints|
      ensures EntryWritten(i)
    {
      if i == 0 {} else if i == 1 {} else if i == 2 {} else if i == 3 {}
      else if i == 4 {} else if i == 5 {} else if i == 6 {} else {}
    }
  }

  /** Every entry of the table is a valid specifier set: get_constraints has exactly the names
      of the table, in its order, each with the single upper bound written there. */
  lemma PlatformTableParses()
    ensures GetConstraints() == Some(Expected)
    ensures Keys(Expected) == Keys(PlatformConstraints)
  {
    TableTexts();
    ParseWrittenTable(PlatformConstraints, Expected);
  }
}
