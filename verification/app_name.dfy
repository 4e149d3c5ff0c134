/**
  `extractAppNameFromURL` of the server generator: the first non-empty
  `/`-separated segment of a URL's path, or "app". Parsing the URL is
  outside the model: the caller passes the parsed path and whether
  parsing failed.
 */
module AppName {
  import opened Wrappers
  import opened Text

  const DefaultAppName: string := "app"

  /** The first non-empty piece of a list, if any. */
  function FirstNonEmpty(parts: seq<string>): Option<string>
    decreases |parts|
  {
    if |parts| == 0 then None
    else if parts[0] != "" then Some(parts[0])
    else FirstNonEmpty(parts[1..])
  }

  /** The path with its leading slashes removed. */
  function TrimLeadingSlashes(s: string): string
    decreases |s|
  {
    if |s| > 0 && s[0] == '/' then TrimLeadingSlashes(s[1..]) else s
  }

  /** The characters of `s` before its first slash. */
  function LeadingSegment(s: string): string
    decreases |s|
  {
    if |s| == 0 || s[0] == '/' then "" else [s[0]] + LeadingSegment(s[1..])
  }

  /**
    The application name read directly off the path: skip the leading
    slashes and take everything up to the next one; "app" if nothing is left.
   */
  function AppNameOf(path: string): string {
    var rest := TrimLeadingSlashes(path);
    if rest == "" then DefaultAppName else LeadingSegment(rest)
  }

  lemma {:induction false} SplitHeadIsLeadingSegment(s: string)
    ensures Split(s, '/')[0] == LeadingSegment(s)
    decreases |s|
  {
    if |s| > 0 && s[0] != '/' {
      SplitHeadIsLeadingSegment(s[1..]);
    }
  }

  lemma {:induction false} LeadingSegmentOfTrimmed(s: string)
    requires TrimLeadingSlashes(s) != ""
    ensures var seg := LeadingSegment(TrimLeadingSlashes(s)); seg != "" && '/' !in seg
    decreases |s|
  {
    if |s| > 0 && s[0] == '/' {
      LeadingSegmentOfTrimmed(s[1..]);
    } else {
      SplitHeadIsLeadingSegment(s);
      assert Split(s, '/')[0] == [s[0]] + Split(s[1..], '/')[0];
    }
  }

  /**
    The first non-empty piece of `strings.Split(path, "/")` is the segment
    after the leading slashes, and there is none exactly when the path is
    made of slashes only.
   */
  lemma {:induction false} FirstPieceIsLeadingSegment(s: string)
    ensures FirstNonEmpty(Split(s, '/')) ==
            if TrimLeadingSlashes(s) == "" then None else Some(LeadingSegment(TrimLeadingSlashes(s)))
    decreases |s|
  {
    var parts := Split(s, '/');
    if |s| == 0 {
      assert parts[1..] == [];
    } else if s[0] == '/' {
      FirstPieceIsLeadingSegment(s[1..]);
      assert parts[1..] == Split(s[1..], '/');
    } else {
      SplitHeadIsLeadingSegment(s);
    }
  }

  /**
    `extractAppNameFromURL`: "app" when parsing failed, otherwise the first
    non-empty piece of the path split on "/", falling back to "app".
   */
  method ExtractAppName(parseFailed: bool, urlPath: string) returns (name: string)
    ensures parseFailed ==> name == DefaultAppName
    ensures !parseFailed ==> name == AppNameOf(urlPath)
    ensures name != "" && '/' !in name
  {
    if parseFailed {
      return DefaultAppName;
    }
    FirstPieceIsLeadingSegment(urlPath);
    if TrimLeadingSlashes(urlPath) != "" {
      LeadingSegmentOfTrimmed(urlPath);
    }
    var parts := Split(urlPath, '/');
    var i := 0;
    while i < |parts|
      invariant 0 <= i <= |parts|
      invariant FirstNonEmpty(parts[i..]) == FirstNonEmpty(parts)
    {
      if parts[i] != "" {
        return parts[i];
      }
      assert parts[i..][1..] == parts[i + 1..];
      i := i + 1;
    }
    return DefaultAppName;
  }
}
