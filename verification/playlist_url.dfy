/** Extraction of the playlist id from the URL the user pastes, as done by
    `playlistUrl.match(/playlist\/([a-zA-Z0-9]+)/)` followed by `match[1]`
    (src/app/page.tsx, lines 296-302). Without the `g` flag the regular
    expression reports its leftmost match, and the `+` is greedy. */
module PlaylistUrl {
  import opened Wrappers

  const PlaylistPrefix: string := "playlist/"

  /** The character class `[a-zA-Z0-9]`. */
  predicate IsAlnum(c: char) {
    ('a' <= c <= 'z') || ('A' <= c <= 'Z') || ('0' <= c <= '9')
  }

  /** The regular expression matches starting at index `i`: the literal
      "playlist/" is there and is followed by at least one alphanumeric. */
  predicate MatchesAt(url: string, i: int) {
    && 0 <= i
    && i + |PlaylistPrefix| < |url|
    && url[i..i + |PlaylistPrefix|] == PlaylistPrefix
    && IsAlnum(url[i + |PlaylistPrefix|])
  }

  /** `i` is the leftmost match, which is the one `String.match` reports. */
  ghost predicate IsLeftmostMatch(url: string, i: int) {
    MatchesAt(url, i) && forall k :: 0 <= k < i ==> !MatchesAt(url, k)
  }

  /** `id` is the maximal alphanumeric run of `url` that starts at `j`: what
      the greedy group `([a-zA-Z0-9]+)` captures there. */
  ghost predicate IsMaximalRunAt(url: string, j: int, id: string) {
    && 0 <= j && j + |id| <= |url|
    && url[j..j + |id|] == id
    && (forall k :: 0 <= k < |id| ==> IsAlnum(id[k]))
    && (j + |id| == |url| || !IsAlnum(url[j + |id|]))
  }

  /** The leftmost match at or after `from`, scanning left to right. */
  function FirstMatchFrom(url: string, from: nat): (r: Option<nat>)
    ensures r.Some? ==> from <= r.value && MatchesAt(url, r.value)
    ensures r.Some? ==> forall k :: from <= k < r.value ==> !MatchesAt(url, k)
    ensures r.None? ==> forall k :: from <= k ==> !MatchesAt(url, k)
    decreases |url| - from
  {
    if from + |PlaylistPrefix| >= |url| then None
    else if MatchesAt(url, from) then Some(from)
    else FirstMatchFrom(url, from + 1)
  }

  /** The longest prefix of `s` made of alphanumerics. */
  function AlnumPrefix(s: string): (r: string)
    ensures |r| <= |s| && r == s[..|r|]
    ensures forall k :: 0 <= k < |r| ==> IsAlnum(r[k])
    ensures |r| < |s| ==> !IsAlnum(s[|r|])
    decreases |s|
  {
    if |s| > 0 && IsAlnum(s[0]) then [s[0]] + AlnumPrefix(s[1..]) else []
  }

  /** The captured playlist id, or None when the URL does not match (the
      page then alerts and stops). A returned id is non-empty, alphanumeric,
      and is the maximal run right after the leftmost "playlist/" that is
      followed by an alphanumeric. */
  function ExtractPlaylistId(url: string): (r: Option<string>)
    ensures r.None? <==> forall i :: !MatchesAt(url, i)
    ensures r.Some? ==> |r.value| > 0
    ensures r.Some? ==> exists i :: IsLeftmostMatch(url, i)
                                  && IsMaximalRunAt(url, i + |PlaylistPrefix|, r.value)
  {
    match FirstMatchFrom(url, 0)
    case None => None
    case Some(i) =>
      var j := i + |PlaylistPrefix|;
      var id := AlnumPrefix(url[j..]);
      assert url[j..j + |id|] == id;
      assert IsLeftmostMatch(url, i);
      assert IsMaximalRunAt(url, j, id);
      Some(id)
  }

  /** The captured id is determined by the URL: any leftmost match and
      maximal run there is exactly what extraction returns. */
  lemma ExtractPlaylistIdUnique(url: string, i: int, id: string)
    requires IsLeftmostMatch(url, i)
    requires IsMaximalRunAt(url, i + |PlaylistPrefix|, id)
    ensures ExtractPlaylistId(url) == Some(id)
  {
    var j := i + |PlaylistPrefix|;
    assert FirstMatchFrom(url, 0) == Some(i);
    assert url[j..][..|id|] == id;
    MaximalRunIsAlnumPrefix(url[j..], id);
  }

  /** A maximal alphanumeric prefix is the one `AlnumPrefix` computes. */
  lemma MaximalRunIsAlnumPrefix(s: string, id: string)
    requires |id| <= |s| && id == s[..|id|]
    requires forall k :: 0 <= k < |id| ==> IsAlnum(id[k])
    requires |id| == |s| || !IsAlnum(s[|id|])
    ensures id == AlnumPrefix(s)
  {
  }
}
