/** JSON values as the policy file holds them. Objects compare by value whatever their key
    order, as Python dicts do, so they are maps. */
module JsonValue {
  datatype Json =
    | Null
    | Bool(b: bool)
    | Number(n: int)
    | Str(s: string)
    | Array(items: seq<Json>)
    | Object(fields: map<string, Json>)
}

/** The rule merge shared by the three platform-constraint checkers: package rules carrying the
    marker description are regenerated from the constraints, every other rule is kept. */
module Renovate {
  import opened Wrappers
  import opened Text
  import opened JsonValue
  import opened OrderedMap

  /** One entry of "packageRules". */
  type Rule = map<string, Json>

  /** The policy file after loading: its "packageRules" list, if the key is present, and every
      other top-level key. */
  datatype Config = Config(packageRules: Option<seq<Rule>>, others: map<string, Json>)

  const Marker: string := "Platform compatibility constraint from .config/platform-constraints.txt"

  /** rule.get("description") == the marker. */
  predicate IsMarker(rule: Rule) {
    "description" in rule && rule["description"] == Str(Marker)
  }

  /** The rule generated for one constraint. */
  function MarkerRule(name: string, allowed: string): (rule: Rule)
    ensures IsMarker(rule)
    ensures rule.Keys == {"matchPackageNames", "allowedVersions", "description"}
    ensures rule["matchPackageNames"] == Array([Str(name)]) && rule["allowedVersions"] == Str(allowed)
  {
    map["matchPackageNames" := Array([Str(name)]),
        "allowedVersions" := Str(allowed),
        "description" := Str(Marker)]
  }

  /** The rules without the marker description, in their original order. */
  function Unmarked(rules: seq<Rule>): seq<Rule> {
    if rules == [] then []
    else
      var kept := Unmarked(rules[..|rules| - 1]);
      if IsMarker(rules[|rules| - 1]) then kept else kept + [rules[|rules| - 1]]
  }

  /** One marker rule per constraint, in the order of the constraints; render gives the
      "allowedVersions" text of a constraint. */
  function RulesFor<V>(constraints: Table<V>, render: V -> string): seq<Rule> {
    if constraints == [] then []
    else
      var last := constraints[|constraints| - 1];
      RulesFor(constraints[..|constraints| - 1], render) + [MarkerRule(last.0, render(last.1))]
  }

  /** The merged "packageRules": the kept rules, then the new marker rules. */
  function Merge<V>(existing: seq<Rule>, constraints: Table<V>, render: V -> string): seq<Rule> {
    Unmarked(existing) + RulesFor(constraints, render)
  }

  /** Unmarked is a filter: it distributes over concatenation ... */
  lemma {:induction false} UnmarkedAppend(a: seq<Rule>, b: seq<Rule>)
    ensures Unmarked(a + b) == Unmarked(a) + Unmarked(b)
    decreases |b|
  {
    if b == [] {
      assert a + b == a;
    } else {
      var b' := b[..|b| - 1];
      UnmarkedAppend(a, b');
      assert (a + b)[..|a + b| - 1] == a + b';
    }
  }

  /** ... and keeps a single rule exactly when it is not a marker rule. */
  lemma UnmarkedSingle(r: Rule)
    ensures Unmarked([r]) == if IsMarker(r) then [] else [r]
  {
    assert [r][..0] == [];
  }

  /** The kept rules are exactly the non-marker rules of the input. */
  lemma {:induction false} UnmarkedMembers(rules: seq<Rule>, r: Rule)
    ensures r in Unmarked(rules) <==> r in rules && !IsMarker(r)
  {
    if rules != [] {
      var init := rules[..|rules| - 1];
      UnmarkedMembers(init, r);
      assert rules == init + [rules[|rules| - 1]];
    }
  }

  lemma {:induction false} RulesForLength<V>(constraints: Table<V>, render: V -> string)
    ensures |RulesFor(constraints, render)| == |constraints|
  {
    if constraints != [] {
      RulesForLength(constraints[..|constraints| - 1], render);
    }
  }

  lemma {:induction false} RulesForAt<V>(constraints: Table<V>, render: V -> string, i: nat)
    requires i < |constraints|
    ensures |RulesFor(constraints, render)| == |constraints|
    ensures RulesFor(constraints, render)[i] == MarkerRule(constraints[i].0, render(constraints[i].1))
  {
    var init := constraints[..|constraints| - 1];
    RulesForLength(constraints, render);
    RulesForLength(init, render);
    if i < |init| {
      RulesForAt(init, render, i);
    }
  }

  lemma {:induction false} RulesForUnmarked<V>(constraints: Table<V>, render: V -> string)
    ensures Unmarked(RulesFor(constraints, render)) == []
  {
    if constraints != [] {
      var init := constraints[..|constraints| - 1];
      RulesForUnmarked(init, render);
      var last := MarkerRule(constraints[|constraints| - 1].0, render(constraints[|constraints| - 1].1));
      UnmarkedAppend(RulesFor(init, render), [last]);
      UnmarkedSingle(last);
    }
  }

  /** The generated rules are one per constraint, all marker rules. */
  lemma RulesForShape<V>(constraints: Table<V>, render: V -> string)
    ensures |RulesFor(constraints, render)| == |constraints|
    ensures forall i :: 0 <= i < |constraints| ==>
      RulesFor(constraints, render)[i] == MarkerRule(constraints[i].0, render(constraints[i].1))
    ensures Unmarked(RulesFor(constraints, render)) == []
  {
    RulesForLength(constraints, render);
    forall i | 0 <= i < |constraints|
      ensures RulesFor(constraints, render)[i] == MarkerRule(constraints[i].0, render(constraints[i].1))
    {
      RulesForAt(constraints, render, i);
    }
    RulesForUnmarked(constraints, render);
  }

  /** Filtering twice is filtering once. */
  lemma {:induction false} UnmarkedIdempotent(rules: seq<Rule>)
    ensures Unmarked(Unmarked(rules)) == Unmarked(rules)
  {
    if rules != [] {
      var init := rules[..|rules| - 1];
      var last := rules[|rules| - 1];
      UnmarkedIdempotent(init);
      if !IsMarker(last) {
        UnmarkedAppend(Unmarked(init), [last]);
        UnmarkedSingle(last);
      }
    }
  }

  /** The merge keeps every non-marker rule, in order, and nothing else that is not a marker
      rule. */
  lemma MergeKeepsUnmarked<V>(existing: seq<Rule>, constraints: Table<V>, render: V -> string)
    ensures Unmarked(Merge(existing, constraints, render)) == Unmarked(existing)
  {
    UnmarkedAppend(Unmarked(existing), RulesFor(constraints, render));
    UnmarkedIdempotent(existing);
    RulesForShape(constraints, render);
  }

  /** Merging the merged list again with the same constraints changes nothing. */
  lemma MergeIdempotent<V>(existing: seq<Rule>, constraints: Table<V>, render: V -> string)
    ensures Merge(Merge(existing, constraints, render), constraints, render)
         == Merge(existing, constraints, render)
  {
    MergeKeepsUnmarked(existing, constraints, render);
  }

  /** The loop that appends one marker rule per constraint, in map order. */
  method BuildRules<V>(constraints: Table<V>, render: V -> string) returns (newRules: seq<Rule>)
    ensures newRules == RulesFor(constraints, render)
  {
    newRules := [];
    var i := 0;
    while i < |constraints|
      invariant 0 <= i <= |constraints|
      invariant newRules == RulesFor(constraints[..i], render)
    {
      assert constraints[..i + 1][..i] == constraints[..i];
      newRules := newRules + [MarkerRule(constraints[i].0, render(constraints[i].1))];
      i := i + 1;
    }
    assert constraints[..i] == constraints;
  }

  /** The comprehension that keeps the rules without the marker description. */
  method DropMarked(existing: seq<Rule>) returns (filtered: seq<Rule>)
    ensures filtered == Unmarked(existing)
  {
    filtered := [];
    var j := 0;
    while j < |existing|
      invariant 0 <= j <= |existing|
      invariant filtered == Unmarked(existing[..j])
    {
      assert existing[..j + 1][..j] == existing[..j];
      if !IsMarker(existing[j]) {
        filtered := filtered + [existing[j]];
      }
      j := j + 1;
    }
    assert existing[..j] == existing;
  }

  /** update_renovate_config. file is the loaded policy file, None when it does not exist.
      Returns the changed flag, the message and the file as written, None when nothing is
      written. */
  method UpdateRenovateConfig<V>(file: Option<Config>, constraints: Table<V>, render: V -> string)
    returns (changed: bool, message: string, written: Option<Config>)
    ensures file.None? ==> !changed && message == "renovate.json not found" && written.None?
    ensures file.Some? ==>
      var existing := file.value.packageRules.GetOr([]);
      var merged := Merge(existing, constraints, render);
      (changed <==> merged != existing)
      && (!changed ==> message == "renovate.json already up to date" && written.None?)
      && (changed ==> message == "Updated renovate.json with " + NatToString(|constraints|) + " constraint rule(s)"
                      && written == Some(Config(Some(merged), file.value.others)))
  {
    if file.None? {
      return false, "renovate.json not found", None;
    }
    var config := file.value;
    var newRules := BuildRules(constraints, render);
    RulesForShape(constraints, render);
    var existing := config.packageRules.GetOr([]);
    var filtered := DropMarked(existing);
    config := config.(packageRules := Some(filtered + newRules));
    if config.packageRules.value == existing {
      return false, "renovate.json already up to date", None;
    }
    return true, "Updated renovate.json with " + NatToString(|newRules|) + " constraint rule(s)", Some(config);
  }
}
