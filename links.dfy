/**
 * The two link searches of `parse_messages`.
 *
 * `re.search(r"(?:https?:\/\/)?(?:www\.)?youtube\.com\/watch\?v=(.+)", text)` and
 * `re.search(r"(?:https?:\/\/)?youtu\.be\/(.+)", text)` each capture the rest of
 * the line after the FIRST occurrence of their fixed marker that is followed by
 * at least one character other than a newline (`.+` is greedy and stops at
 * '\n').  The optional scheme and "www." in front of a marker only move where
 * the match starts, never the captured group, so they are not modelled.
 */
module Links {
  import opened Wrappers

  const WatchMarker: string := "youtube.com/watch?v="
  const ShortMarker: string := "youtu.be/"

  /** The marker occurs at `i` and a non-newline character follows it: the regex can match here. */
  predicate MatchesAt(s: string, marker: string, i: nat)
  {
    i + |marker| < |s| && s[i..i + |marker|] == marker && s[i + |marker|] != '\n'
  }

  /** What the greedy `(.+)` captures from position `k`: everything up to the next newline or the end. */
  function RestOfLine(s: string, k: nat): (r: string)
    requires k <= |s|
    ensures k + |r| <= |s|
    decreases |s| - k
  {
    if k == |s| || s[k] == '\n' then "" else [s[k]] + RestOfLine(s, k + 1)
  }

  /** The capture is the longest newline-free run of `s` starting at `k`. */
  lemma {:induction false} RestOfLineSpec(s: string, k: nat)
    requires k <= |s|
    ensures RestOfLine(s, k) == s[k..k + |RestOfLine(s, k)|]
    ensures '\n' !in RestOfLine(s, k)
    ensures k + |RestOfLine(s, k)| == |s| || s[k + |RestOfLine(s, k)|] == '\n'
    decreases |s| - k
  {
    if k < |s| && s[k] != '\n' {
      RestOfLineSpec(s, k + 1);
    }
  }

  /** The leftmost position at or after `i` where the marker matches. */
  function FirstMatch(s: string, marker: string, i: nat): (r: Option<nat>)
    ensures r.Some? ==> i <= r.value && r.value + |marker| < |s|
    decreases |s| - i
  {
    if i + |marker| >= |s| then None
    else if MatchesAt(s, marker, i) then Some(i)
    else FirstMatch(s, marker, i + 1)
  }

  /** The scan from `i` finds a match with no match between `i` and it, or proves there is none. */
  lemma {:induction false} FirstMatchSpec(s: string, marker: string, i: nat)
    ensures FirstMatch(s, marker, i).Some? ==> MatchesAt(s, marker, FirstMatch(s, marker, i).value)
    ensures FirstMatch(s, marker, i).Some? ==>
      forall j: nat :: i <= j < FirstMatch(s, marker, i).value ==> !MatchesAt(s, marker, j)
    ensures FirstMatch(s, marker, i).None? ==> forall j: nat :: i <= j ==> !MatchesAt(s, marker, j)
    decreases |s| - i
  {
    if i + |marker| < |s| && !MatchesAt(s, marker, i) {
      FirstMatchSpec(s, marker, i + 1);
    }
  }

  /** Group 1 of one `re.search`, or `None` when the search fails. */
  function Capture(s: string, marker: string): Option<string>
  {
    match FirstMatch(s, marker, 0)
    case None => None
    case Some(i) => Some(RestOfLine(s, i + |marker|))
  }

  /**
   * The video ID one message contributes: the `watch?v=` capture when there is
   * one, wherever a short link stands; otherwise the `youtu.be/` capture.
   */
  function Extract(content: string): Option<string>
  {
    var watch := Capture(content, WatchMarker);
    if watch.Some? then watch else Capture(content, ShortMarker)
  }

  /**
   * A search fails exactly when the marker matches nowhere; otherwise it
   * captures the rest of the line after the leftmost match.
   */
  lemma CaptureIsLeftmostMatch(s: string, marker: string)
    ensures Capture(s, marker).None? <==> forall j: nat :: !MatchesAt(s, marker, j)
    ensures Capture(s, marker).Some? ==>
      exists i: nat :: && MatchesAt(s, marker, i)
                       && (forall j: nat :: j < i ==> !MatchesAt(s, marker, j))
                       && Capture(s, marker).value == RestOfLine(s, i + |marker|)
  {
    FirstMatchSpec(s, marker, 0);
    var first := FirstMatch(s, marker, 0);
    if first.Some? {
      var i := first.value;
      assert Capture(s, marker) == Some(RestOfLine(s, i + |marker|));
      assert MatchesAt(s, marker, i);
    } else {
      assert Capture(s, marker) == None;
    }
  }

  /** A capture is never empty (`.+`) and never crosses a line break. */
  lemma CaptureIsOneLine(s: string, marker: string)
    ensures Capture(s, marker).Some? ==>
      |Capture(s, marker).value| > 0 && '\n' !in Capture(s, marker).value
  {
    FirstMatchSpec(s, marker, 0);
    var first := FirstMatch(s, marker, 0);
    if first.Some? {
      RestOfLineSpec(s, first.value + |marker|);
    }
  }

  /**
   * A message yields nothing exactly when neither marker matches anywhere, and
   * a watch link wins over a short link wherever the short link stands.
   */
  lemma ExtractPriority(content: string)
    ensures (exists j: nat :: MatchesAt(content, WatchMarker, j)) ==>
      Extract(content) == Capture(content, WatchMarker)
    ensures (forall j: nat :: !MatchesAt(content, WatchMarker, j)) ==>
      Extract(content) == Capture(content, ShortMarker)
    ensures Extract(content).None? <==>
      forall j: nat :: !MatchesAt(content, WatchMarker, j) && !MatchesAt(content, ShortMarker, j)
    ensures Extract(content).Some? ==>
      |Extract(content).value| > 0 && '\n' !in Extract(content).value
  {
    CaptureIsLeftmostMatch(content, WatchMarker);
    CaptureIsLeftmostMatch(content, ShortMarker);
    CaptureIsOneLine(content, WatchMarker);
    CaptureIsOneLine(content, ShortMarker);
  }

  /** The search settles on the leftmost match and captures the rest of its line. */
  lemma LeftmostMatchCaptured(s: string, marker: string, i: nat)
    requires MatchesAt(s, marker, i)
    requires forall j: nat :: j < i ==> !MatchesAt(s, marker, j)
    ensures Capture(s, marker) == Some(RestOfLine(s, i + |marker|))
  {
    FirstMatchSpec(s, marker, 0);
    var first := FirstMatch(s, marker, 0);
    assert first == Some(i);
  }

  /** Characters a YouTube video ID is written with. */
  predicate IsVideoIdChar(c: char)
  {
    'a' <= c <= 'z' || 'A' <= c <= 'Z' || '0' <= c <= '9' || c == '-' || c == '_'
  }

  predicate IsVideoId(id: string)
  {
    |id| > 0 && forall k :: 0 <= k < |id| ==> IsVideoIdChar(id[k])
  }

  /** The optional prefixes the two patterns allow in front of their markers. */
  predicate IsUrlPrefix(p: string)
  {
    p in ["", "http://", "https://", "www.", "http://www.", "https://www."]
  }

  /** Nothing matches before the end of a URL prefix: no prefix contains a 'y'. */
  lemma {:induction false} NoMatchInPrefix(p: string, rest: string, marker: string, j: nat)
    requires IsUrlPrefix(p) && |marker| > 0 && marker[0] == 'y' && j < |p|
    ensures !MatchesAt(p + rest, marker, j)
  {
    var s := p + rest;
    assert s[j] == p[j] != 'y';
    if j + |marker| < |s| {
      assert s[j..j + |marker|][0] != marker[0];
    }
  }

  /** Past its marker a URL is the ID itself, whose line runs to the end of the text. */
  lemma RestOfLineIsId(prefix: string, id: string)
    requires IsVideoId(id)
    ensures RestOfLine(prefix + id, |prefix|) == id
  {
    var s := prefix + id;
    assert forall k :: |prefix| <= k < |s| ==> s[k] == id[k - |prefix|] != '\n';
    assert s[|prefix|..] == id;
    RestOfLineSpec(s, |prefix|);
  }

  /** A watch URL, with or without scheme and "www.", yields its ID. */
  lemma WatchUrlExtracted(p: string, id: string)
    requires IsUrlPrefix(p) && IsVideoId(id)
    ensures Extract(p + WatchMarker + id) == Some(id)
  {
    var s := p + WatchMarker + id;
    assert s == p + (WatchMarker + id);
    var i := |p|;
    assert s[i..i + |WatchMarker|] == WatchMarker;
    assert s[i + |WatchMarker|] == id[0];
    forall j: nat | j < i
      ensures !MatchesAt(s, WatchMarker, j)
    {
      NoMatchInPrefix(p, WatchMarker + id, WatchMarker, j);
    }
    LeftmostMatchCaptured(s, WatchMarker, i);
    RestOfLineIsId(p + WatchMarker, id);
  }

  /** A short link contains no watch marker when its ID is made of video-ID characters. */
  lemma {:induction false} NoWatchMatchInShortUrl(p: string, id: string, j: nat)
    requires IsUrlPrefix(p) && IsVideoId(id)
    ensures !MatchesAt(p + ShortMarker + id, WatchMarker, j)
  {
    var s := p + ShortMarker + id;
    assert s == p + (ShortMarker + id);
    if j < |p| {
      NoMatchInPrefix(p, ShortMarker + id, WatchMarker, j);
    } else if j + |WatchMarker| < |s| {
      var w := s[j..j + |WatchMarker|];
      if j == |p| {
        assert w[5] == ShortMarker[5] != WatchMarker[5];
      } else if j < |p| + |ShortMarker| {
        assert w[0] == ShortMarker[j - |p|] != WatchMarker[0];
      } else {
        assert w[7] == id[j + 7 - |p| - |ShortMarker|] != WatchMarker[7];
      }
    }
  }

  /** The watch search finds nothing in a short link. */
  lemma ShortUrlHasNoWatchLink(p: string, id: string)
    requires IsUrlPrefix(p) && IsVideoId(id)
    ensures Capture(p + ShortMarker + id, WatchMarker) == None
  {
    var s := p + ShortMarker + id;
    forall j: nat
      ensures !MatchesAt(s, WatchMarker, j)
    {
      NoWatchMatchInShortUrl(p, id, j);
    }
    CaptureIsLeftmostMatch(s, WatchMarker);
  }

  /** The short-link search captures the ID of a short link. */
  lemma ShortUrlCaptured(p: string, id: string)
    requires IsUrlPrefix(p) && IsVideoId(id)
    ensures Capture(p + ShortMarker + id, ShortMarker) == Some(id)
  {
    var s := p + ShortMarker + id;
    assert s == p + (ShortMarker + id);
    var i := |p|;
    assert s[i..i + |ShortMarker|] == ShortMarker;
    assert s[i + |ShortMarker|] == id[0];
    forall j: nat | j < i
      ensures !MatchesAt(s, ShortMarker, j)
    {
      NoMatchInPrefix(p, ShortMarker + id, ShortMarker, j);
    }
    LeftmostMatchCaptured(s, ShortMarker, i);
    RestOfLineIsId(p + ShortMarker, id);
  }

  /** A short link, with or without scheme and "www.", yields the same ID as the watch URL. */
  lemma ShortUrlExtracted(p: string, id: string)
    requires IsUrlPrefix(p) && IsVideoId(id)
    ensures Extract(p + ShortMarker + id) == Some(id)
  {
    ShortUrlHasNoWatchLink(p, id);
    ShortUrlCaptured(p, id);
  }
}
