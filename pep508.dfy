/** Dependency specifiers in the syntax of PEP 508, restricted to a name followed by a list of
    simple version clauses (no extras, URL or environment marker), with versions that are final
    releases. Each parsing step returns what it read and the rest of the text. */
module Pep508 {
  import opened Wrappers
  import opened Text
  import opened Pep440
  import opened SeqFacts

  /** A parsed requirement: the project name as written and its specifier set. */
  datatype Requirement = Requirement(name: string, specifier: SpecifierSet)

  predicate IsNameChar(c: char) { IsAlnum(c) || c == '.' || c == '_' || c == '-' }

  /** The whitespace the requirement grammar allows between tokens. */
  predicate IsBlank(c: char) { c == ' ' || c == '\t' }

  /** A project name: letters and digits at both ends, with '.', '_' and '-' allowed inside. */
  predicate IsName(name: string) {
    |name| > 0 && IsAlnum(name[0]) && IsAlnum(name[|name| - 1])
    && forall j :: 0 <= j < |name| ==> IsNameChar(name[j])
  }

  function SkipBlanks(s: string): (r: string)
    ensures |r| <= |s| && r == s[|s| - |r|..]
    ensures r != [] ==> !IsBlank(r[0])
  {
    if s != [] && IsBlank(s[0]) then SkipBlanks(s[1..]) else s
  }

  /** The length of the longest prefix of name characters. */
  function NameLength(s: string): (k: nat)
    ensures k <= |s|
    ensures forall j :: 0 <= j < k ==> IsNameChar(s[j])
    ensures k < |s| ==> !IsNameChar(s[k])
  {
    if s != [] && IsNameChar(s[0]) then 1 + NameLength(s[1..]) else 0
  }

  /** The length of the longest prefix of digits. */
  function DigitLength(s: string): (k: nat)
    ensures k <= |s|
    ensures forall j :: 0 <= j < k ==> IsDigit(s[j])
    ensures k < |s| ==> !IsDigit(s[k])
  {
    if s != [] && IsDigit(s[0]) then 1 + DigitLength(s[1..]) else 0
  }

  /** A release number: digits, then any number of groups of '.' and digits. */
  function ParseRelease(s: string): (r: Option<(Release, string)>)
    ensures r.Some? ==> |r.value.1| < |s| && |r.value.0| > 0
    decreases |s|
  {
    var k := DigitLength(s);
    var d := s[..k];
    var rest := s[k..];
    if k == 0 then None
    else if |rest| >= 2 && rest[0] == '.' && IsDigit(rest[1]) then
      match ParseRelease(rest[1..])
      case None => None
      case Some(tail) => Some(([DigitsValue(d)] + tail.0, tail.1))
    else Some(([DigitsValue(d)], rest))
  }

  /** One of the operators <=, >=, ==, !=, <, >. */
  function ParseOp(s: string): (r: Option<(Op, string)>)
    ensures r.Some? ==> |r.value.1| < |s|
  {
    if |s| >= 2 && s[1] == '=' && s[0] == '<' then Some((Le, s[2..]))
    else if |s| >= 2 && s[1] == '=' && s[0] == '>' then Some((Ge, s[2..]))
    else if |s| >= 2 && s[1] == '=' && s[0] == '=' then Some((Eq, s[2..]))
    else if |s| >= 2 && s[1] == '=' && s[0] == '!' then Some((Ne, s[2..]))
    else if |s| >= 1 && s[0] == '<' then Some((Lt, s[1..]))
    else if |s| >= 1 && s[0] == '>' then Some((Gt, s[1..]))
    else None
  }

  /** One clause: an operator, optional blanks, a release. */
  function ParseClause(s: string): (r: Option<(Clause, string)>)
    ensures r.Some? ==> |r.value.1| < |s|
  {
    match ParseOp(s)
    case None => None
    case Some(o) =>
      match ParseRelease(SkipBlanks(o.1))
      case None => None
      case Some(v) => Some((Clause(o.0, v.0), v.1))
  }

  /** One or more clauses separated by commas, with blanks around the commas. The rest
      returned starts after any blanks that follow the last clause. */
  function ParseClauses(s: string): (r: Option<(SpecifierSet, string)>)
    ensures r.Some? ==> |r.value.1| < |s| && |r.value.0| > 0
    decreases |s|
  {
    match ParseClause(s)
    case None => None
    case Some(c) =>
      var k := SkipBlanks(c.1);
      if k != [] && k[0] == ',' then
        match ParseClauses(SkipBlanks(k[1..]))
        case None => None
        case Some(rest) => Some(([c.0] + rest.0, rest.1))
      else Some(([c.0], k))
  }

  /** Requirement(s): a name, then either nothing, a clause list, or a clause list in
      parentheses, with blanks between tokens. A name alone, or "()", gives an empty specifier
      set. Anything else is a syntax error (None). */
  function ParseRequirement(s: string): (r: Option<Requirement>)
    ensures r.Some? ==> IsName(r.value.name)
  {
    var t := SkipBlanks(s);
    var name := t[..NameLength(t)];
    if !IsName(name) then None
    else
      var k := SkipBlanks(t[NameLength(t)..]);
      if k == [] then Some(Requirement(name, []))
      else if k[0] == '(' then
        var a := SkipBlanks(k[1..]);
        if a != [] && a[0] == ')' then
          (if SkipBlanks(a[1..]) == [] then Some(Requirement(name, [])) else None)
        else
          match ParseClauses(a)
          case None => None
          case Some(cs) =>
            if cs.1 != [] && cs.1[0] == ')' && SkipBlanks(cs.1[1..]) == []
            then Some(Requirement(name, cs.0)) else None
      else
        match ParseClauses(k)
        case None => None
        case Some(cs) => if cs.1 == [] then Some(Requirement(name, cs.0)) else None
  }

  /** SpecifierSet(s): a clause list with blanks around it, or only blanks for the empty set. */
  function ParseSpecifier(s: string): (r: Option<SpecifierSet>)
  {
    var a := SkipBlanks(s);
    if a == [] then Some([])
    else
      match ParseClauses(a)
      case None => None
      case Some(cs) => if cs.1 == [] then Some(cs.0) else None
  }

  // Writing a requirement back as text, for the round-trip property.

  function OpText(op: Op): (t: string)
    ensures |t| > 0 && (t[0] == '<' || t[0] == '>' || t[0] == '=' || t[0] == '!')
  {
    match op
    case Lt => "<"
    case Le => "<="
    case Gt => ">"
    case Ge => ">="
    case Eq => "=="
    case Ne => "!="
  }

  function ReleaseText(v: Release): (t: string)
    requires |v| > 0
    ensures |t| > 0 && IsDigit(t[0]) && IsDigit(t[|t| - 1])
  {
    if |v| == 1 then NatToString(v[0]) else NatToString(v[0]) + "." + ReleaseText(v[1..])
  }

  predicate WellFormed(spec: SpecifierSet) {
    |spec| > 0 && forall i :: 0 <= i < |spec| ==> |spec[i].version| > 0
  }

  function ClauseText(c: Clause): (t: string)
    requires |c.version| > 0
    ensures |t| > 0 && (t[0] == '<' || t[0] == '>' || t[0] == '=' || t[0] == '!')
    ensures IsDigit(t[|t| - 1])
  {
    OpText(c.op) + ReleaseText(c.version)
  }

  /** The clauses joined by commas, as in "<2.17" or ">=1.2,<2.0". */
  function SpecifierText(spec: SpecifierSet): (t: string)
    requires WellFormed(spec)
    ensures |t| > 0 && (t[0] == '<' || t[0] == '>' || t[0] == '=' || t[0] == '!')
    ensures IsDigit(t[|t| - 1])
  {
    if |spec| == 1 then ClauseText(spec[0])
    else ClauseText(spec[0]) + "," + SpecifierText(spec[1..])
  }

  /** The written form of a requirement with a nonempty specifier set. */
  function RequirementText(r: Requirement): string
    requires IsName(r.name) && WellFormed(r.specifier)
  {
    r.name + SpecifierText(r.specifier)
  }

  lemma {:induction false} DigitLengthOf(d: string, rest: string)
    requires forall j :: 0 <= j < |d| ==> IsDigit(d[j])
    requires rest == [] || !IsDigit(rest[0])
    ensures DigitLength(d + rest) == |d|
  {
    if d != [] {
      assert (d + rest)[1..] == d[1..] + rest;
      DigitLengthOf(d[1..], rest);
    } else {
      assert d + rest == rest;
    }
  }

  lemma {:induction false} NameLengthOf(name: string, rest: string)
    requires forall j :: 0 <= j < |name| ==> IsNameChar(name[j])
    requires rest == [] || !IsNameChar(rest[0])
    ensures NameLength(name + rest) == |name|
  {
    if name != [] {
      assert (name + rest)[1..] == name[1..] + rest;
      NameLengthOf(name[1..], rest);
    } else {
      assert name + rest == rest;
    }
  }

  /** A number written out, followed by something other than a digit, reads back as itself. */
  lemma NumberRoundTrip(n: nat, rest: string)
    requires rest == [] || !IsDigit(rest[0])
    ensures DigitLength(NatToString(n) + rest) == |NatToString(n)|
    ensures (NatToString(n) + rest)[..|NatToString(n)|] == NatToString(n)
    ensures (NatToString(n) + rest)[|NatToString(n)|..] == rest
    ensures DigitsValue(NatToString(n)) == n
  {
    DigitLengthOf(NatToString(n), rest);
    NatToStringRoundTrip(n);
  }

  lemma ReleaseLast(d: string, rest: string)
    requires IsDigits(d) && DigitLength(d + rest) == |d|
    requires rest == [] || rest[0] == ','
    ensures ParseRelease(d + rest) == Some(([DigitsValue(d)], rest))
  {
    assert (d + rest)[..|d|] == d && (d + rest)[|d|..] == rest;
  }

  lemma ReleaseNext(d: string, more: string, tail: (Release, string))
    requires IsDigits(d) && DigitLength(d + ("." + more)) == |d|
    requires more != [] && IsDigit(more[0])
    requires ParseRelease(more) == Some(tail)
    ensures ParseRelease(d + ("." + more)) == Some(([DigitsValue(d)] + tail.0, tail.1))
  {
    var s := d + ("." + more);
    assert s[..|d|] == d && s[|d|..] == "." + more;
    assert s[|d|..][1..] == more;
  }

  /** A release written out, followed by a comma or nothing, reads back as itself. */
  lemma {:induction false} ReleaseRoundTrip(v: Release, rest: string)
    requires |v| > 0
    requires rest == [] || rest[0] == ','
    ensures ParseRelease(ReleaseText(v) + rest) == Some((v, rest))
    decreases |v|
  {
    var d := NatToString(v[0]);
    if |v| == 1 {
      NumberRoundTrip(v[0], rest);
      ReleaseLast(d, rest);
      assert v == [v[0]];
    } else {
      var more := ReleaseText(v[1..]) + rest;
      ReleaseTextCons(v, rest);
      NumberRoundTrip(v[0], "." + more);
      ReleaseRoundTrip(v[1..], rest);
      ReleaseNext(d, more, (v[1..], rest));
      HeadTail(v);
    }
  }

  lemma ReleaseTextCons(v: Release, rest: string)
    requires |v| > 1
    ensures ReleaseText(v) + rest == NatToString(v[0]) + ("." + (ReleaseText(v[1..]) + rest))
  {
  }

  /** A clause written out, followed by a comma or nothing, reads back as itself. */
  lemma OpRoundTrip(op: Op, x: string)
    requires x != [] && IsDigit(x[0])
    ensures ParseOp(OpText(op) + x) == Some((op, x))
  {
    var s := OpText(op) + x;
    assert s[|OpText(op)|..] == x;
    assert s[|OpText(op)|] == x[0];
  }

  lemma ClauseStep(s: string, op: Op, x: string, v: Release, rest: string)
    requires ParseOp(s) == Some((op, x)) && SkipBlanks(x) == x
    requires ParseRelease(x) == Some((v, rest))
    ensures ParseClause(s) == Some((Clause(op, v), rest))
  {
  }

  /** A clause written out, followed by a comma or nothing, reads back as itself. */
  lemma ClauseRoundTrip(c: Clause, rest: string)
    requires |c.version| > 0
    requires rest == [] || rest[0] == ','
    ensures ParseClause(ClauseText(c) + rest) == Some((c, rest))
  {
    var x := ReleaseText(c.version) + rest;
    assert ClauseText(c) + rest == OpText(c.op) + x;
    OpRoundTrip(c.op, x);
    NoBlanks(x);
    ReleaseRoundTrip(c.version, rest);
    ClauseStep(ClauseText(c) + rest, c.op, x, c.version, rest);
  }

  lemma NoBlanks(s: string)
    requires s == [] || !IsBlank(s[0])
    ensures SkipBlanks(s) == s
  {
  }

  lemma ClausesLast(s: string, c: Clause)
    requires ParseClause(s) == Some((c, []))
    ensures ParseClauses(s) == Some(([c], []))
  {
  }

  lemma ClausesNext(s: string, c: Clause, rest: string, tail: (SpecifierSet, string))
    requires ParseClause(s) == Some((c, "," + rest))
    requires SkipBlanks(rest) == rest && ParseClauses(rest) == Some(tail)
    ensures ParseClauses(s) == Some(([c] + tail.0, tail.1))
  {
    CommaRest(rest);
    ClausesComma(s, c, "," + rest, tail);
  }

  lemma CommaRest(rest: string)
    requires SkipBlanks(rest) == rest
    ensures SkipBlanks("," + rest) == "," + rest && ("," + rest)[0] == ',' && SkipBlanks(("," + rest)[1..]) == rest
  {
    assert ("," + rest)[1..] == rest;
  }

  /** A clause followed by a comma: the clauses after the comma follow it. */
  lemma ClausesComma(s: string, c: Clause, k: string, tail: (SpecifierSet, string))
    requires ParseClause(s) == Some((c, k)) && SkipBlanks(k) == k && k != [] && k[0] == ','
    requires ParseClauses(SkipBlanks(k[1..])) == Some(tail)
    ensures ParseClauses(s) == Some(([c] + tail.0, tail.1))
  {
  }

  lemma ClausesRoundTripOne(spec: SpecifierSet)
    requires WellFormed(spec) && |spec| == 1
    ensures ParseClauses(SpecifierText(spec)) == Some((spec, []))
  {
    var c := spec[0];
    ClauseRoundTrip(c, []);
    assert ClauseText(c) + [] == ClauseText(c);
    ClausesLast(ClauseText(c), c);
    assert spec == [c];
  }

  lemma SpecifierTextCons(spec: SpecifierSet)
    requires WellFormed(spec) && |spec| > 1
    ensures SpecifierText(spec) == ClauseText(spec[0]) + ("," + SpecifierText(spec[1..]))
  {
  }

  lemma ClausesRoundTripCons(c: Clause, tail: SpecifierSet)
    requires |c.version| > 0 && WellFormed(tail)
    requires ParseClauses(SpecifierText(tail)) == Some((tail, []))
    ensures ParseClauses(ClauseText(c) + ("," + SpecifierText(tail))) == Some(([c] + tail, []))
  {
    var rest := SpecifierText(tail);
    ClauseRoundTrip(c, "," + rest);
    NoBlanks(rest);
    ClausesNext(ClauseText(c) + ("," + rest), c, rest, (tail, []));
  }

  /** A specifier set written out reads back as itself. */
  lemma {:induction false} ClausesRoundTrip(spec: SpecifierSet)
    requires WellFormed(spec)
    ensures ParseClauses(SpecifierText(spec)) == Some((spec, []))
    decreases |spec|
  {
    if |spec| == 1 {
      ClausesRoundTripOne(spec);
    } else {
      ClausesRoundTrip(spec[1..]);
      ClausesRoundTripCons(spec[0], spec[1..]);
      SpecifierTextCons(spec);
      HeadTail(spec);
    }
  }

  /** A well-formed specifier set written out reads back as itself. */
  lemma SpecifierRoundTrip(spec: SpecifierSet)
    requires WellFormed(spec)
    ensures ParseSpecifier(SpecifierText(spec)) == Some(spec)
  {
    NoBlanks(SpecifierText(spec));
    ClausesRoundTrip(spec);
  }

  /** A name followed by a well-formed specifier set parses back to that name and that set. */
  lemma RequirementStep(s: string, name: string, t: string, spec: SpecifierSet)
    requires SkipBlanks(s) == s && NameLength(s) == |name|
    requires s[..|name|] == name && s[|name|..] == t && IsName(name)
    requires SkipBlanks(t) == t && t != [] && t[0] != '('
    requires ParseClauses(t) == Some((spec, []))
    ensures ParseRequirement(s) == Some(Requirement(name, spec))
  {
  }

  lemma RequirementRoundTrip(r: Requirement)
    requires IsName(r.name) && WellFormed(r.specifier)
    ensures ParseRequirement(RequirementText(r)) == Some(r)
  {
    var s := RequirementText(r);
    var t := SpecifierText(r.specifier);
    NoBlanks(s);
    NameLengthOf(r.name, t);
    assert s[..|r.name|] == r.name && s[|r.name|..] == t;
    NoBlanks(t);
    ClausesRoundTrip(r.specifier);
    RequirementStep(s, r.name, t, r.specifier);
  }
}
