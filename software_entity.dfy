/** The OpenSourceSoftware entity and its `@BeforeInsert` hook, which sets `name`
    to the last element of `url.split('/')`. */
module SoftwareEntity {
  import opened Common

  /** `s.split('/')`: the pieces between slashes, empty pieces included. */
  function Split(s: string): (parts: seq<string>)
    ensures |parts| >= 1
    ensures forall k :: 0 <= k < |parts| ==> '/' !in parts[k]
  {
    if s == [] then [[]]
    else if s[0] == '/' then [[]] + Split(s[1..])
    else
      var rest := Split(s[1..]);
      [[s[0]] + rest[0]] + rest[1..]
  }

  /** `parts.join('/')`, the inverse of Split. */
  function Join(parts: seq<string>): string
    requires |parts| >= 1
  {
    if |parts| == 1 then parts[0] else parts[0] + "/" + Join(parts[1..])
  }

  /** Splitting loses nothing: joining the pieces gives the url back. */
  lemma {:induction false} JoinSplit(s: string)
    ensures Join(Split(s)) == s
  {
    if s == [] {
    } else if s[0] == '/' {
      JoinSplit(s[1..]);
      assert Split(s)[1..] == Split(s[1..]);
      assert s == [s[0]] + s[1..];
    } else {
      var rest := Split(s[1..]);
      JoinSplit(s[1..]);
      if |rest| > 1 {
        assert Split(s)[1..] == rest[1..];
      }
      assert s == [s[0]] + s[1..];
    }
  }

  /** `urlParts[urlParts.length - 1]`. */
  function LastSegment(s: string): (n: string)
    ensures '/' !in n
  {
    var parts := Split(s);
    parts[|parts| - 1]
  }

  /** `n` is what follows the last slash of `s`: a slash-free suffix, preceded by
      a slash unless it is all of `s`. */
  predicate AfterLastSlash(s: string, n: string) {
    && '/' !in n
    && |n| <= |s| && s[|s| - |n|..] == n
    && (|n| < |s| ==> s[|s| - |n| - 1] == '/')
  }

  /** The last segment is what follows the last slash. */
  lemma {:induction false} LastSegmentIsAfterLastSlash(s: string)
    ensures AfterLastSlash(s, LastSegment(s))
  {
    if s != [] {
      LastSegmentIsAfterLastSlash(s[1..]);
      if s[0] != '/' && |Split(s[1..])| == 1 {
        LastSegmentWithinFirstPiece(s);
      } else {
        LastSegmentAfterFirstPiece(s);
      }
    }
  }

  lemma LastSegmentWithinFirstPiece(s: string)
    requires s != [] && s[0] != '/' && |Split(s[1..])| == 1
    requires AfterLastSlash(s[1..], LastSegment(s[1..]))
    ensures AfterLastSlash(s, LastSegment(s))
  {
    var s' := s[1..];
    JoinSplit(s');
    assert LastSegment(s') == s';
    assert LastSegment(s) == [s[0]] + s';
    assert s == [s[0]] + s';
  }

  lemma LastSegmentAfterFirstPiece(s: string)
    requires s != [] && (s[0] == '/' || |Split(s[1..])| > 1)
    requires AfterLastSlash(s[1..], LastSegment(s[1..]))
    ensures AfterLastSlash(s, LastSegment(s))
  {
    var s' := s[1..];
    LastSegmentSkipsFirst(s);
    if s[0] != '/' {
      SlashBeforeLastSegment(s');
    }
    assert s == [s[0]] + s';
    AfterLastSlashCons(s[0], s', LastSegment(s'));
  }

  /** Putting a character in front keeps a suffix after the last slash, when
      that character is a slash or the suffix already follows one. */
  lemma AfterLastSlashCons(c: char, s: string, n: string)
    requires AfterLastSlash(s, n)
    requires c == '/' || |n| < |s|
    ensures AfterLastSlash([c] + s, n)
  {
    var t := [c] + s;
    assert t[|t| - |n|..] == s[|s| - |n|..];
    if |n| < |s| {
      assert t[|t| - |n| - 1] == s[|s| - |n| - 1];
    }
  }

  /** Past the first slash, the last segment of `s` is that of its tail. */
  lemma LastSegmentSkipsFirst(s: string)
    requires s != [] && (s[0] == '/' || |Split(s[1..])| > 1)
    ensures LastSegment(s) == LastSegment(s[1..])
  {
    var rest := Split(s[1..]);
    if s[0] == '/' {
      assert Split(s) == [[]] + rest;
    } else {
      assert Split(s) == [[s[0]] + rest[0]] + rest[1..];
    }
  }

  /** A string that splits into several pieces is longer than its last one. */
  lemma SlashBeforeLastSegment(s: string)
    requires |Split(s)| > 1
    requires AfterLastSlash(s, LastSegment(s))
    ensures |LastSegment(s)| < |s|
  {
    JoinSplit(s);
    SlashInJoin(Split(s));
  }

  lemma SlashInJoin(parts: seq<string>)
    requires |parts| > 1
    ensures '/' in Join(parts)
  {
    var j := Join(parts);
    assert j[|parts[0]|] == '/';
  }

  /** The edge cases of the derived name. */
  lemma LastSegmentCases(s: string)
    ensures '/' !in s ==> LastSegment(s) == s
    ensures |s| > 0 && s[|s| - 1] == '/' ==> LastSegment(s) == ""
  {
    LastSegmentIsAfterLastSlash(s);
    var n := LastSegment(s);
    if |n| < |s| {
      assert s[|s| - |n| - 1] in s;
    }
    if |s| > 0 && |n| > 0 {
      assert n[|n| - 1] == s[|s| - 1];
    }
  }

  /** The entity object before it is saved. */
  class OpenSourceSoftware {
    var url: Option<string>
    var name: Option<string>
    var hipcheckResults: Option<Json>

    constructor (url: Option<string>, hipcheckResults: Option<Json>)
      ensures this.url == url && this.hipcheckResults == hipcheckResults && name == None
    {
      this.url := url;
      this.hipcheckResults := hipcheckResults;
      name := None;
    }

    /** The `@BeforeInsert` hook: for a non-empty url, `name` becomes its last segment. */
    method SetNameFromUrl()
      modifies this`name
      ensures Truthy(url) ==> name == Some(LastSegment(url.value))
      ensures !Truthy(url) ==> name == old(name)
      ensures url == old(url) && hipcheckResults == old(hipcheckResults)
    {
      if Truthy(url) {
        var urlParts := Split(url.value);
        name := Some(urlParts[|urlParts| - 1]);
      }
    }
  }
}
