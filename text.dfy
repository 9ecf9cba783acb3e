/** The string primitives of Python that the modelled code relies on: str.isspace, str.strip,
    str.splitlines, str.isdigit (restricted to ASCII digits), int(), str(int), ", ".join and
    the ordering of strings. */
module Text {

  /** The characters for which Python's str.isspace() holds. */
  predicate IsSpace(c: char) {
    c == ' ' || ('\t' <= c <= '\r') || ('\U{1c}' <= c <= '\U{1f}') || c == '\U{85}'
    || c == '\U{a0}' || c == '\U{1680}' || ('\U{2000}' <= c <= '\U{200a}')
    || c == '\U{2028}' || c == '\U{2029}' || c == '\U{202f}' || c == '\U{205f}' || c == '\U{3000}'
  }

  /** The characters at which Python's str.splitlines() ends a line. */
  predicate IsLineBreak(c: char) {
    c == '\n' || c == '\r' || c == '\U{0b}' || c == '\U{0c}' || ('\U{1c}' <= c <= '\U{1e}')
    || c == '\U{85}' || c == '\U{2028}' || c == '\U{2029}'
  }

  predicate IsDigit(c: char) { '0' <= c <= '9' }

  predicate IsAsciiLetter(c: char) { 'a' <= c <= 'z' || 'A' <= c <= 'Z' }

  predicate IsAlnum(c: char) { IsAsciiLetter(c) || IsDigit(c) }

  predicate AllSpaces(s: string) { forall i :: 0 <= i < |s| ==> IsSpace(s[i]) }

  /** The first index at or after i that does not hold a space (|s| if none does). */
  function SkipSpaces(s: string, i: nat): (k: nat)
    requires i <= |s|
    ensures i <= k <= |s|
    ensures forall j :: i <= j < k ==> IsSpace(s[j])
    ensures k < |s| ==> !IsSpace(s[k])
    decreases |s| - i
  {
    if i == |s| || !IsSpace(s[i]) then i else SkipSpaces(s, i + 1)
  }

  /** The end of s[lo..hi] once its trailing spaces are dropped. */
  function TrimEnd(s: string, lo: nat, hi: nat): (k: nat)
    requires lo <= hi <= |s|
    ensures lo <= k <= hi
    ensures forall j :: k <= j < hi ==> IsSpace(s[j])
    ensures k > lo ==> !IsSpace(s[k - 1])
    decreases hi - lo
  {
    if hi == lo || !IsSpace(s[hi - 1]) then hi else TrimEnd(s, lo, hi - 1)
  }

  /** Python's str.strip() with no argument. */
  function Strip(s: string): (r: string)
    ensures exists lo, hi :: 0 <= lo <= hi <= |s| && r == s[lo..hi]
                             && AllSpaces(s[..lo]) && AllSpaces(s[hi..])
    ensures r != [] ==> !IsSpace(r[0]) && !IsSpace(r[|r| - 1])
  {
    var lo := SkipSpaces(s, 0);
    var hi := TrimEnd(s, lo, |s|);
    assert AllSpaces(s[..lo]) && AllSpaces(s[hi..]);
    s[lo..hi]
  }

  /** Text with no whitespace at either end is left as it is by strip(). */
  lemma StripKeeps(s: string)
    requires s != [] && !IsSpace(s[0]) && !IsSpace(s[|s| - 1])
    ensures Strip(s) == s
  {
    var lo, hi :| 0 <= lo <= hi <= |s| && Strip(s) == s[lo..hi]
                  && AllSpaces(s[..lo]) && AllSpaces(s[hi..]);
    if lo > 0 { assert s[..lo][0] == s[0]; }
    if hi < |s| { assert s[hi..][|s| - 1 - hi] == s[|s| - 1]; }
  }

  /** A line: text holding no line break. */
  predicate NoBreaks(l: string) { forall j :: 0 <= j < |l| ==> !IsLineBreak(l[j]) }

  /** The position of the first line break in s, |s| when there is none. */
  function FirstBreak(s: string): (i: nat)
    ensures i <= |s| && NoBreaks(s[..i])
    ensures i < |s| ==> IsLineBreak(s[i])
  {
    if s == [] || IsLineBreak(s[0]) then 0
    else
      var i := 1 + FirstBreak(s[1..]);
      assert s[..i] == [s[0]] + s[1..][..i - 1];
      i
  }

  /** Python's str.splitlines(): the line breaks are removed, "\r\n" counts as one break, and a
      break at the very end does not open an empty last line. */
  function SplitLines(s: string): (lines: seq<string>)
    ensures forall k, j :: 0 <= k < |lines| && 0 <= j < |lines[k]| ==> !IsLineBreak(lines[k][j])
    decreases |s|
  {
    var i := FirstBreak(s);
    if i == |s| then
      (if s == [] then [] else [s])
    else
      var next := if s[i] == '\r' && i + 1 < |s| && s[i + 1] == '\n' then i + 2 else i + 1;
      [s[..i]] + SplitLines(s[next..])
  }

  /** The separators a text file's lines are joined with: "\n", or "\r\n" as written on Windows. */
  predicate LineSeparator(sep: string) { sep == "\n" || sep == "\r\n" }

  /** The first break of a line followed by a break is at the line's end. */
  lemma {:induction false} FirstBreakAt(l: string, rest: string)
    requires NoBreaks(l) && rest != [] && IsLineBreak(rest[0])
    ensures FirstBreak(l + rest) == |l|
  {
    if l != [] {
      assert (l + rest)[0] == l[0];
      assert (l + rest)[1..] == l[1..] + rest;
      FirstBreakAt(l[1..], rest);
    }
  }

  /** A nonempty break-free text is one line. */
  lemma SplitOneLine(l: string)
    requires l != [] && NoBreaks(l)
    ensures SplitLines(l) == [l]
  {
  }

  /** A line followed by a separator is the first line, whatever follows. */
  lemma SplitFirst(l: string, sep: string, rest: string)
    requires NoBreaks(l) && LineSeparator(sep)
    ensures SplitLines(l + sep + rest) == [l] + SplitLines(rest)
  {
    var s := l + sep + rest;
    assert s == l + (sep + rest);
    FirstBreakAt(l, sep + rest);
    assert s[..|l|] == l;
    if sep == "\r\n" {
      assert s[|l|] == '\r' && s[|l| + 1] == '\n';
    } else {
      assert s[|l|] == '\n';
    }
    assert s[|l| + |sep|..] == rest;
  }

  /** splitlines() reads back lines joined with a separator, the last line nonempty. */
  lemma {:induction false} SplitJoined(lines: seq<string>, sep: string)
    requires lines != [] && lines[|lines| - 1] != [] && LineSeparator(sep)
    requires forall k :: 0 <= k < |lines| ==> NoBreaks(lines[k])
    ensures SplitLines(Join(lines, sep)) == lines
  {
    if |lines| == 1 {
      SplitOneLine(lines[0]);
    } else {
      SplitFirst(lines[0], sep, Join(lines[1..], sep));
      SplitJoined(lines[1..], sep);
    }
  }

  /** Lines joined and terminated: the first line, the separator, the rest joined and terminated. */
  lemma JoinCons(lines: seq<string>, sep: string)
    requires |lines| > 1
    ensures Join(lines, sep) + sep == lines[0] + sep + (Join(lines[1..], sep) + sep)
  {
  }

  /** ... and the same when the text ends with a separator: no empty last line appears. */
  lemma {:induction false} SplitJoinedTerminated(lines: seq<string>, sep: string)
    requires lines != [] && LineSeparator(sep)
    requires forall k :: 0 <= k < |lines| ==> NoBreaks(lines[k])
    ensures SplitLines(Join(lines, sep) + sep) == lines
  {
    if |lines| == 1 {
      SplitFirst(lines[0], sep, "");
      assert lines[0] + sep + "" == Join(lines, sep) + sep;
    } else {
      JoinCons(lines, sep);
      SplitFirst(lines[0], sep, Join(lines[1..], sep) + sep);
      SplitJoinedTerminated(lines[1..], sep);
      assert lines == [lines[0]] + lines[1..];
    }
  }

  predicate StartsWith(s: string, prefix: string) {
    |prefix| <= |s| && s[..|prefix|] == prefix
  }

  /** Python's str.isdigit(), restricted to the ASCII digits. */
  predicate IsDigits(s: string) {
    |s| > 0 && forall i :: 0 <= i < |s| ==> IsDigit(s[i])
  }

  /** The value of a run of decimal digits, as int() gives it (leading zeros allowed). */
  function DigitsValue(s: string): nat
    requires forall i :: 0 <= i < |s| ==> IsDigit(s[i])
  {
    if s == [] then 0
    else
      assert IsDigit(s[|s| - 1]);
      DigitsValue(s[..|s| - 1]) * 10 + (s[|s| - 1] as int - '0' as int)
  }

  function DigitChar(d: nat): (c: char)
    requires d < 10
    ensures IsDigit(c) && c as int - '0' as int == d
  {
    (d + '0' as int) as char
  }

  /** str(n) for a natural number n: its decimal digits without leading zeros. */
  function NatToString(n: nat): (s: string)
    ensures IsDigits(s)
    ensures |s| > 1 ==> s[0] != '0'
    decreases n
  {
    if n < 10 then [DigitChar(n)] else NatToString(n / 10) + [DigitChar(n % 10)]
  }

  /** str(i) for any integer, with a minus sign for negative values. */
  function IntToString(i: int): string {
    if i < 0 then "-" + NatToString(-i) else NatToString(i)
  }

  /** int(str(n)) == n: decimal rendering and reading are inverse. */
  lemma {:induction false} NatToStringRoundTrip(n: nat)
    ensures DigitsValue(NatToString(n)) == n
    decreases n
  {
    if n >= 10 {
      var s := NatToString(n);
      NatToStringRoundTrip(n / 10);
      assert s[..|s| - 1] == NatToString(n / 10);
    }
  }

  /** sep.join(xs). */
  function Join(xs: seq<string>, sep: string): string {
    if xs == [] then "" else if |xs| == 1 then xs[0] else xs[0] + sep + Join(xs[1..], sep)
  }

  /** Python's a < b on strings: code point by code point, a proper prefix being smaller. */
  predicate StrLess(a: string, b: string) {
    StrLessFrom(a, b, 0)
  }

  predicate StrLessFrom(a: string, b: string, i: nat)
    decreases |b| - i
  {
    if i >= |b| then false
    else if i >= |a| then true
    else if a[i] != b[i] then a[i] < b[i]
    else StrLessFrom(a, b, i + 1)
  }
}
