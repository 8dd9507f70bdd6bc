/** The OpenSourceProject entity and its `@BeforeInsert` hook, which derives
    `name` from a GitHub `url` with the pattern `/https:\/\/github.com\/(.+)/`. */
module ProjectEntity {
  import opened Common

  const GithubPrefix: string := "https://github.com/"

  /** Characters that `.` does not match in a JavaScript pattern without the `s` flag. */
  predicate IsLineTerminator(c: char) {
    c == '\n' || c == '\r' || c == '\U{2028}' || c == '\U{2029}'
  }

  /** The 19 characters at the head of a match, as the pattern is written: its
      dot in `github.com` is not escaped, so that position takes any character
      but a line terminator. */
  predicate PrefixAsWritten(w: string) {
    && |w| == |GithubPrefix|
    && w[..14] == GithubPrefix[..14]
    && !IsLineTerminator(w[14])
    && w[15..] == GithubPrefix[15..]
  }

  /** The head of a match when the dot is read literally. */
  predicate PrefixIntended(w: string) {
    w == GithubPrefix
  }

  /** A match of the pattern starts at position `i` of `s`: the prefix, then the
      first character of `(.+)`. */
  predicate MatchAt(s: string, i: nat, dotIsWildcard: bool) {
    && i + |GithubPrefix| < |s|
    && (if dotIsWildcard then PrefixAsWritten(s[i..i + |GithubPrefix|])
        else PrefixIntended(s[i..i + |GithubPrefix|]))
    && !IsLineTerminator(s[i + |GithubPrefix|])
  }

  /** The greedy `(.+)` (or `.*`): the longest head of `t` free of line terminators. */
  function Line(t: string): (r: string)
    ensures r <= t
    ensures forall k :: 0 <= k < |r| ==> !IsLineTerminator(r[k])
    ensures |r| < |t| ==> IsLineTerminator(t[|r|])
  {
    if t == [] || IsLineTerminator(t[0]) then [] else [t[0]] + Line(t[1..])
  }

  /** The leftmost position at or after `from` where a match starts, as a regular
      expression search without the `g` flag finds it. */
  function FirstMatch(s: string, from: nat, dotIsWildcard: bool): (r: Option<nat>)
    decreases |s| - from
    ensures r.None? <==> forall i :: from <= i < |s| ==> !MatchAt(s, i, dotIsWildcard)
    ensures r.Some? ==> from <= r.value && MatchAt(s, r.value, dotIsWildcard)
    ensures r.Some? ==> forall i :: from <= i < r.value ==> !MatchAt(s, i, dotIsWildcard)
  {
    if |s| <= from + |GithubPrefix| then None
    else if MatchAt(s, from, dotIsWildcard) then Some(from)
    else FirstMatch(s, from + 1, dotIsWildcard)
  }

  /** `url.match(pattern)[1]`, or None when there is no match. */
  function Capture(url: string, dotIsWildcard: bool): (r: Option<string>)
    ensures r.None? <==> forall i :: 0 <= i < |url| ==> !MatchAt(url, i, dotIsWildcard)
    ensures r.Some? ==> |r.value| > 0 && forall k :: 0 <= k < |r.value| ==> !IsLineTerminator(r.value[k])
  {
    match FirstMatch(url, 0, dotIsWildcard)
    case None => None
    case Some(i) => Some(Line(url[i + |GithubPrefix|..]))
  }

  /** The capture computed by the pattern exactly as the source writes it; this
      is what the hook uses. There is one iff some position matches. */
  function GithubCaptureAsWritten(url: string): (r: Option<string>)
    ensures r.None? <==> forall i :: 0 <= i < |url| ==> !MatchAt(url, i, true)
    ensures r.Some? ==> |r.value| > 0
  {
    Capture(url, true)
  }

  /** The pattern as written finds a match wherever the literal reading does. */
  lemma AsWrittenAcceptsIntended(url: string)
    ensures GithubCapture(url).Some? ==> GithubCaptureAsWritten(url).Some?
  {
    if GithubCapture(url).Some? {
      var i :| 0 <= i < |url| && MatchAt(url, i, false);
      assert MatchAt(url, i, true);
    }
  }

  /** The capture with the dot in `github.com` matched literally, as evidently
      intended: there is one iff `https://github.com/` occurs followed by a
      character of the same line. */
  function GithubCapture(url: string): (r: Option<string>)
    ensures r.None? <==> forall i :: 0 <= i < |url| ==> !MatchAt(url, i, false)
    ensures r.Some? ==> |r.value| > 0
  {
    Capture(url, false)
  }

  /** The `name` the hook leaves behind, given the entity's `url` and current `name`. */
  function NameOnInsert(url: Option<string>, name: Option<string>): (r: Option<string>)
    ensures !Truthy(url) ==> r == name
    ensures Truthy(url) && GithubCaptureAsWritten(url.value).None? ==> r == name
    ensures Truthy(url) && GithubCaptureAsWritten(url.value).Some? ==> r == GithubCaptureAsWritten(url.value)
  {
    if Truthy(url) then
      var m := GithubCaptureAsWritten(url.value);
      if m.Some? && m.value != "" then m else name
    else name
  }

  /** A captured name is the text after the first match of the prefix, up to the
      end of its line; for a one-line url it is a non-empty suffix of the url,
      preceded by 19 characters that match the prefix, with no earlier match. */
  lemma {:induction false} CaptureIsSuffix(url: string, dotIsWildcard: bool)
    requires forall k :: 0 <= k < |url| ==> !IsLineTerminator(url[k])
    requires Capture(url, dotIsWildcard).Some?
    ensures var n := Capture(url, dotIsWildcard).value;
      && 0 < |n| && |GithubPrefix| + |n| <= |url|
      && url[|url| - |n|..] == n
      && MatchAt(url, |url| - |n| - |GithubPrefix|, dotIsWildcard)
      && forall j :: 0 <= j < |url| - |n| - |GithubPrefix| ==> !MatchAt(url, j, dotIsWildcard)
  {
    var i := FirstMatch(url, 0, dotIsWildcard).value;
    var t := url[i + |GithubPrefix|..];
    LineOfOneLine(t);
  }

  /** With the dot read literally, the name follows `https://github.com/` itself. */
  lemma IntendedCaptureFollowsGithub(url: string)
    requires forall k :: 0 <= k < |url| ==> !IsLineTerminator(url[k])
    requires GithubCapture(url).Some?
    ensures var n := GithubCapture(url).value;
      url[|url| - |n| - |GithubPrefix|..] == GithubPrefix + n
  {
    var i := FirstMatch(url, 0, false).value;
    var j := i + |GithubPrefix|;
    var t := url[j..];
    LineOfOneLine(t);
    var n := GithubCapture(url).value;
    assert n == t;
    assert url[i..j] == GithubPrefix;
    assert |url| - |n| - |GithubPrefix| == i;
    SliceAt(url, i, j);
  }

  lemma SliceAt(s: string, i: nat, j: nat)
    requires i <= j <= |s|
    ensures s[i..] == s[i..j] + s[j..]
  {
  }

  lemma {:induction false} LineOfOneLine(t: string)
    requires forall k :: 0 <= k < |t| ==> !IsLineTerminator(t[k])
    ensures Line(t) == t
  {
    if t != [] {
      LineOfOneLine(t[1..]);
    }
  }

  /** A one-line url that matches at its start is named by all that follows the prefix. */
  lemma CaptureAtStart(url: string, dotIsWildcard: bool)
    requires MatchAt(url, 0, dotIsWildcard)
    requires forall k :: 0 <= k < |url| ==> !IsLineTerminator(url[k])
    ensures Capture(url, dotIsWildcard) == Some(url[|GithubPrefix|..])
  {
    assert FirstMatch(url, 0, dotIsWildcard) == Some(0);
    LineOfOneLine(url[|GithubPrefix|..]);
  }

  /** The example of the test suite: the name of `https://github.com/user/repo2`. */
  lemma GithubCaptureExample()
    ensures GithubCaptureAsWritten("https://github.com/user/repo2") == Some("user/repo2")
    ensures GithubCapture("https://github.com/user/repo2") == Some("user/repo2")
  {
    var url := "https://github.com/user/repo2";
    assert url[..|GithubPrefix|] == GithubPrefix;
    assert MatchAt(url, 0, false) && MatchAt(url, 0, true);
    CaptureAtStart(url, false);
    CaptureAtStart(url, true);
    assert url[|GithubPrefix|..] == "user/repo2";
  }

  /** The unescaped dot: a url on another host whose name differs from
      `github.com` in that one position is taken for a GitHub url. */
  lemma UnescapedDotAcceptsOtherHost()
    ensures GithubCaptureAsWritten("https://githubXcom/evil") == Some("evil")
    ensures GithubCapture("https://githubXcom/evil") == None
  {
    var url := "https://githubXcom/evil";
    assert MatchAt(url, 0, true);
    assert !MatchAt(url, 0, false);
    forall i | 1 <= i < |url| ensures !MatchAt(url, i, false) { }
    LineOfOneLine(url[|GithubPrefix|..]);
  }

  /** The entity object before it is saved. Only `url` and `hipcheckResults` are
      set by `create`; `name` is unset until the hook runs. */
  class OpenSourceProject {
    var url: Option<string>
    var name: Option<string>
    var hipcheckResults: Option<Json>

    constructor (url: Option<string>, hipcheckResults: Option<Json>)
      ensures this.url == url && this.hipcheckResults == hipcheckResults && name == None
    {
      this.url := url;
      this.hipcheckResults := hipcheckResults;
      name := None;
    }

    /** The `@BeforeInsert` hook: assigns `name` only when the url matches. */
    method SetNameFromUrl()
      modifies this`name
      ensures name == NameOnInsert(url, old(name))
      ensures url == old(url) && hipcheckResults == old(hipcheckResults)
    {
      if Truthy(url) {
        var m := GithubCaptureAsWritten(url.value);
        if m.Some? && m.value != "" {
          name := m;
        }
      }
    }
  }
}
