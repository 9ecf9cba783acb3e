/** render_link of src/team_devtools/jira/utils.py: a terminal hyperlink written as two OSC 8
    sequences (an Operating System Command, ECMA-48 section 8.3.89, closed by the String
    Terminator of section 8.3.143, written ESC \). The first carries the empty parameter list
    and the URI, the second closes the link; the label sits between them. */
module JiraUtils {
  import opened Wrappers

  const Esc: char := 27 as char

  /** ESC ] 8 ; with the empty parameter list and its closing ; */
  const LinkOpen: string := [Esc] + "]8;" + "" + ";"

  /** The String Terminator, ESC \. */
  const StringTerminator: string := [Esc, '\\']

  /** ESC ] 8 ; ; ST: the sequence that ends the link. */
  const LinkClose: string := [Esc] + "]8;;" + StringTerminator

  /** The link text (label) defaults to the URI. */
  function RenderLink(uri: string, text: Option<string> := None): (s: string)
    ensures |s| == |uri| + |text.GetOr(uri)| + 14
    ensures s[..5] == LinkOpen && s[5..5 + |uri|] == uri && s[5 + |uri|..7 + |uri|] == StringTerminator
    ensures s[7 + |uri|..|s| - 7] == text.GetOr(uri) && s[|s| - 7..] == LinkClose
  {
    var shown := if text.None? then uri else text.value;
    LinkOpen + uri + StringTerminator + shown + LinkClose
  }

  /** The index of the first c in s, |s| when there is none. */
  function FindChar(s: string, c: char): (i: nat)
    ensures i <= |s| && c !in s[..i]
    ensures i < |s| ==> s[i] == c
  {
    if s == [] then 0
    else if s[0] == c then 0
    else
      var i := 1 + FindChar(s[1..], c);
      assert s[..i] == [s[0]] + s[1..][..i - 1];
      i
  }

  /** Reads a rendered link back: the URI up to the first ESC, which must open the String
      Terminator, and the label between it and the closing sequence. */
  function ParseLink(s: string): (r: Option<(string, string)>)
    ensures r.Some? ==> Esc !in r.value.0
  {
    if |s| < |LinkOpen| + |LinkClose| || s[..|LinkOpen|] != LinkOpen || s[|s| - |LinkClose|..] != LinkClose then None
    else
      var body := s[|LinkOpen|..|s| - |LinkClose|];
      var i := FindChar(body, Esc);
      if i + 1 < |body| && body[i + 1] == '\\' then Some((body[..i], body[i + 2..]))
      else None
  }

  lemma {:induction false} FindCharAt(u: string, c: char, rest: string)
    requires c !in u
    ensures FindChar(u + [c] + rest, c) == |u|
  {
    var s := u + [c] + rest;
    if u != [] {
      assert s[1..] == u[1..] + [c] + rest;
      FindCharAt(u[1..], c, rest);
    }
  }

  /** A link whose URI holds no ESC reads back as its URI and label. */
  lemma RenderParse(uri: string, text: string)
    requires Esc !in uri
    ensures ParseLink(RenderLink(uri, Some(text))) == Some((uri, text))
  {
    var s := RenderLink(uri, Some(text));
    var body := uri + [Esc] + ("\\" + text);
    assert s[..|LinkOpen|] == LinkOpen;
    assert s[|s| - |LinkClose|..] == LinkClose;
    assert s[|LinkOpen|..|s| - |LinkClose|] == body;
    FindCharAt(uri, Esc, "\\" + text);
    assert body[..|uri|] == uri;
    assert body[|uri| + 2..] == text;
  }

  /** Whatever reads back as a link is exactly the rendering of what it reads back as. */
  lemma ParseRender(s: string)
    requires ParseLink(s).Some?
    ensures RenderLink(ParseLink(s).value.0, Some(ParseLink(s).value.1)) == s
  {
    var body := s[|LinkOpen|..|s| - |LinkClose|];
    var i := FindChar(body, Esc);
    var uri, text := body[..i], body[i + 2..];
    assert ParseLink(s) == Some((uri, text));
    SplitBody(body, i);
    Reassemble(s, body, uri, text);
  }

  lemma SplitBody(body: string, i: nat)
    requires i + 1 < |body| && body[i] == Esc && body[i + 1] == '\\'
    ensures body == body[..i] + StringTerminator + body[i + 2..]
  {
    assert body[i..i + 2] == StringTerminator;
    assert body == body[..i] + body[i..i + 2] + body[i + 2..];
  }

  lemma Reassemble(s: string, body: string, uri: string, text: string)
    requires |s| >= |LinkOpen| + |LinkClose| && s[..|LinkOpen|] == LinkOpen && s[|s| - |LinkClose|..] == LinkClose
    requires body == s[|LinkOpen|..|s| - |LinkClose|] && body == uri + StringTerminator + text
    ensures RenderLink(uri, Some(text)) == s
  {
    assert s == s[..|LinkOpen|] + body + s[|s| - |LinkClose|..];
  }

  /** An ESC in the URI is not escaped, so two different links can render alike. */
  lemma NoEscaping()
    ensures RenderLink([Esc, '\\'], Some([])) == RenderLink([], Some([Esc, '\\']))
  {
  }
}
