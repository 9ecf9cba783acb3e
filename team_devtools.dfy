/** The repository records of src/team_devtools/__init__.py: Repo splits its name into
    organisation and repository after construction, Label carries defaults, and get_repos keeps
    the configured entries that name an organisation. The configuration file is an input. */
module TeamDevtools {
  import opened Wrappers

  /** s.split(sep, 1) for a string that contains sep: the text before the first sep and the
      text after it. None when sep does not occur. */
  function SplitOnce(s: string, sep: char): (r: Option<(string, string)>)
    ensures r.None? <==> sep !in s
    ensures r.Some? ==> sep !in r.value.0 && r.value.0 + [sep] + r.value.1 == s
  {
    if s == [] then None
    else if s[0] == sep then Some(([], s[1..]))
    else
      match SplitOnce(s[1..], sep)
      case None => None
      case Some((before, after)) =>
        assert [s[0]] + (before + [sep] + after) == s;
        Some(([s[0]] + before, after))
  }

  /** The split is the only one whose first part holds no separator, so joining an org
      without '/' to any repo and splitting again gives both back. */
  lemma {:induction false} SplitJoin(org: string, repo: string, sep: char)
    requires sep !in org
    ensures SplitOnce(org + [sep] + repo, sep) == Some((org, repo))
  {
    var s := org + [sep] + repo;
    if org == [] {
      assert s[0] == sep && s[1..] == repo;
    } else {
      assert s[0] == org[0] && s[1..] == org[1..] + [sep] + repo;
      SplitJoin(org[1..], repo, sep);
      assert [org[0]] + org[1..] == org;
    }
  }

  /** The message of the ValueError for a name without '/'. */
  function InvalidRepoMessage(name: string): string {
    "Invalid repo name: " + name
  }

  /** The Repo dataclass: name given, org and repo defaulting to "" until __post_init__. */
  class Repo {
    var name: string
    var org: string
    var repo: string

    /** The generated __init__ with the defaults for org and repo. */
    constructor (name: string)
      ensures this.name == name && org == "" && repo == ""
    {
      this.name := name;
      org := "";
      repo := "";
    }

    /** __post_init__: a name without '/' is refused with the error message (and the fields
        stay as they are); otherwise org and repo are overwritten with the two halves of the
        name around its first '/'. */
    method PostInit() returns (error: Option<string>)
      modifies this
      ensures name == old(name)
      ensures error.Some? <==> '/' !in name
      ensures error.Some? ==> error.value == InvalidRepoMessage(name) && org == old(org) && repo == old(repo)
      ensures error.None? ==> SplitOnce(name, '/') == Some((org, repo))
      ensures error.None? ==> '/' !in org && org + "/" + repo == name
    {
      if '/' !in name {
        return Some(InvalidRepoMessage(name));
      }
      var parts := SplitOnce(name, '/');
      org, repo := parts.value.0, parts.value.1;
      return None;
    }
  }

  /** Repo(name=...): construction followed by __post_init__; the error is the ValueError. */
  method NewRepo(name: string) returns (r: Result<Repo, string>)
    ensures r.Failure? <==> '/' !in name
    ensures r.Failure? ==> r.error == InvalidRepoMessage(name)
    ensures r.Success? ==> fresh(r.value) && r.value.name == name && SplitOnce(name, '/') == Some((r.value.org, r.value.repo))
  {
    var repo := new Repo(name);
    var error := repo.PostInit();
    if error.Some? {
      return Failure(error.value);
    }
    return Success(repo);
  }

  /** The Label dataclass: color and description default to the empty string. */
  datatype Label = Label(name: string, color: string := "", description: string := "")

  /** A label built from its name alone has the empty color and description. */
  lemma LabelDefaults(name: string)
    ensures Label(name).name == name && Label(name).color == "" && Label(name).description == ""
  {
  }

  /** The configured entries that contain '/', in their order. */
  function WithSlash(entries: seq<string>): (kept: seq<string>)
    ensures forall k :: 0 <= k < |kept| ==> '/' in kept[k]
    ensures |kept| <= |entries|
  {
    if entries == [] then []
    else
      var n := |entries| - 1;
      WithSlash(entries[..n]) + if '/' in entries[n] then [entries[n]] else []
  }

  /** Every entry with '/' is kept and every kept name is an entry. */
  lemma {:induction false} WithSlashMembers(entries: seq<string>, name: string)
    ensures name in WithSlash(entries) <==> name in entries && '/' in name
  {
    if entries != [] {
      var n := |entries| - 1;
      WithSlashMembers(entries[..n], name);
      assert entries == entries[..n] + [entries[n]];
    }
  }

  lemma WithSlashStep(entries: seq<string>, i: nat)
    requires i < |entries|
    ensures WithSlash(entries[..i + 1]) == WithSlash(entries[..i]) + if '/' in entries[i] then [entries[i]] else []
  {
    assert entries[..i + 1][..i] == entries[..i];
  }

  /** get_repos over the configured entries: a Repo for each entry that contains '/', in
      order; constructing those never fails. */
  method GetRepos(entries: seq<string>) returns (repos: seq<Repo>)
    ensures |repos| == |WithSlash(entries)|
    ensures forall k :: 0 <= k < |repos| ==> fresh(repos[k])
    ensures forall k :: 0 <= k < |repos| ==> repos[k].name == WithSlash(entries)[k]
    ensures forall k :: 0 <= k < |repos| ==> SplitOnce(repos[k].name, '/') == Some((repos[k].org, repos[k].repo))
  {
    repos := [];
    var i := 0;
    while i < |entries|
      invariant 0 <= i <= |entries|
      invariant |repos| == |WithSlash(entries[..i])|
      invariant forall k :: 0 <= k < |repos| ==> fresh(repos[k])
      invariant forall k :: 0 <= k < |repos| ==> repos[k].name == WithSlash(entries[..i])[k]
      invariant forall k :: 0 <= k < |repos| ==> SplitOnce(repos[k].name, '/') == Some((repos[k].org, repos[k].repo))
    {
      WithSlashStep(entries, i);
      if '/' in entries[i] {
        var r := NewRepo(entries[i]);
        if r.Failure? {
          assert false;
        }
        repos := repos + [r.value];
      }
      i := i + 1;
    }
    assert entries[..i] == entries;
  }
}
