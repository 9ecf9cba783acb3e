/** Python dicts keyed by strings, as the constraint checkers build and read them: a sequence of
    (key, value) items in insertion order, where assigning to a present key keeps its place. */
module OrderedMap {
  import opened Wrappers

  type Table<V> = seq<(string, V)>

  function Keys<V>(t: Table<V>): (ks: seq<string>)
    ensures |ks| == |t|
    ensures forall i :: 0 <= i < |t| ==> ks[i] == t[i].0
  {
    if t == [] then [] else [t[0].0] + Keys(t[1..])
  }

  /** No key occurs twice. */
  predicate UniqueKeys<V>(t: Table<V>) {
    t == [] || (t[0].0 !in Keys(t[1..]) && UniqueKeys(t[1..]))
  }

  /** t.get(k): the value of the item with key k. */
  function Get<V>(t: Table<V>, k: string): (r: Option<V>)
    ensures r.Some? <==> k in Keys(t)
  {
    if t == [] then None
    else if t[0].0 == k then Some(t[0].1)
    else Get(t[1..], k)
  }

  /** t[k] = v: a key already present keeps its position and takes the new value; a new key
      is placed last. */
  function Put<V>(t: Table<V>, k: string, v: V): Table<V> {
    if t == [] then [(k, v)]
    else if t[0].0 == k then [(k, v)] + t[1..]
    else [t[0]] + Put(t[1..], k, v)
  }

  /** After t[k] = v, k reads v and every other key reads what it read before. */
  lemma {:induction false} PutGet<V>(t: Table<V>, k: string, v: V, k': string)
    ensures Get(Put(t, k, v), k') == if k' == k then Some(v) else Get(t, k')
  {
    if t != [] && t[0].0 != k {
      PutGet(t[1..], k, v, k');
      assert Put(t, k, v)[1..] == Put(t[1..], k, v);
    } else if t != [] {
      assert Put(t, k, v)[1..] == t[1..];
    }
  }

  /** Assigning to a present key keeps the key order; a new key is appended. */
  lemma {:induction false} PutKeys<V>(t: Table<V>, k: string, v: V)
    ensures Keys(Put(t, k, v)) == if k in Keys(t) then Keys(t) else Keys(t) + [k]
  {
    if t != [] && t[0].0 != k {
      PutKeys(t[1..], k, v);
      assert Put(t, k, v)[1..] == Put(t[1..], k, v);
      assert Keys(t) == [t[0].0] + Keys(t[1..]);
    } else if t != [] {
      assert Put(t, k, v)[1..] == t[1..];
    }
  }

  /** Assignment never duplicates a key. */
  lemma {:induction false} PutUnique<V>(t: Table<V>, k: string, v: V)
    requires UniqueKeys(t)
    ensures UniqueKeys(Put(t, k, v))
  {
    if t != [] && t[0].0 != k {
      PutUnique(t[1..], k, v);
      PutKeys(t[1..], k, v);
      assert Put(t, k, v)[1..] == Put(t[1..], k, v);
    } else if t != [] {
      assert Put(t, k, v)[1..] == t[1..];
    }
  }

  /** Whether an optional entry stores key k. */
  predicate Defines<V>(e: Option<(string, V)>, k: string) {
    e.Some? && e.value.0 == k
  }

  /** The table built by a loop that reads the lines in order and, for every line that yields
      an entry, stores it with t[key] = value. */
  function FoldLines<V>(lines: seq<string>, entry: string -> Option<(string, V)>): Table<V> {
    if lines == [] then []
    else
      var t := FoldLines(lines[..|lines| - 1], entry);
      match entry(lines[|lines| - 1])
      case None => t
      case Some(e) => Put(t, e.0, e.1)
  }

  /** Reading one more line. */
  lemma FoldLinesStep<V>(lines: seq<string>, i: nat, entry: string -> Option<(string, V)>)
    requires i < |lines|
    ensures FoldLines(lines[..i + 1], entry)
         == match entry(lines[i])
            case None => FoldLines(lines[..i], entry)
            case Some(e) => Put(FoldLines(lines[..i], entry), e.0, e.1)
  {
    assert lines[..i + 1][..i] == lines[..i];
  }

  /** The keys of a table read from lines are pairwise distinct. */
  lemma {:induction false} FoldUniqueKeys<V>(lines: seq<string>, entry: string -> Option<(string, V)>)
    ensures UniqueKeys(FoldLines(lines, entry))
  {
    if lines != [] {
      var init := lines[..|lines| - 1];
      FoldUniqueKeys(init, entry);
      var e := entry(lines[|lines| - 1]);
      if e.Some? {
        PutUnique(FoldLines(init, entry), e.value.0, e.value.1);
      }
    }
  }

  /** A line that yields no entry leaves no trace: dropping it gives the same table, so it
      neither adds an entry nor stops the lines after it from being read. */
  lemma {:induction false} FoldSkipsLine<V>(a: seq<string>, l: string, b: seq<string>,
                                            entry: string -> Option<(string, V)>)
    requires entry(l).None?
    ensures FoldLines(a + [l] + b, entry) == FoldLines(a + b, entry)
    decreases |b|
  {
    if b == [] {
      assert (a + [l] + b)[..|a + [l] + b| - 1] == a;
      assert a + b == a;
    } else {
      var b' := b[..|b| - 1];
      FoldSkipsLine(a, l, b', entry);
      assert (a + [l] + b)[..|a + [l] + b| - 1] == a + [l] + b';
      assert (a + b)[..|a + b| - 1] == a + b';
    }
  }

  /** The last line that names k decides what the table holds under k. */
  ghost predicate LastDefines<V>(lines: seq<string>, entry: string -> Option<(string, V)>, k: string, v: V, i: int) {
    0 <= i < |lines| && entry(lines[i]) == Some((k, v))
    && forall j :: i < j < |lines| ==> !Defines(entry(lines[j]), k)
  }

  /** The value stored under k is the one given by the last line that yields an entry for k. */
  lemma {:induction false} FoldLastWins<V>(lines: seq<string>, entry: string -> Option<(string, V)>,
                                           k: string, v: V)
    ensures Get(FoldLines(lines, entry), k) == Some(v) <==> exists i :: LastDefines(lines, entry, k, v, i)
  {
    if lines != [] {
      var n := |lines| - 1;
      var init := lines[..n];
      var t := FoldLines(init, entry);
      var e := entry(lines[n]);
      if e.Some? {
        PutGet(t, e.value.0, e.value.1, k);
      }
      if Defines(e, k) {
        if e == Some((k, v)) {
          assert LastDefines(lines, entry, k, v, n);
        }
        forall i | LastDefines(lines, entry, k, v, i) ensures e == Some((k, v)) {
          assert i == n;
        }
      } else {
        FoldLastWins(init, entry, k, v);
        assert Get(FoldLines(lines, entry), k) == Get(t, k);
        forall i | LastDefines(lines, entry, k, v, i) ensures LastDefines(init, entry, k, v, i) {
          assert i < n;
          assert forall j :: i < j < n ==> init[j] == lines[j];
        }
        forall i | LastDefines(init, entry, k, v, i) ensures LastDefines(lines, entry, k, v, i) {
          assert forall j :: i < j < n ==> init[j] == lines[j];
        }
      }
    }
  }
}
