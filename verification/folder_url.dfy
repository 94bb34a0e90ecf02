/**
 Extraction of the parent folder id from the user's folder reference, the
 behaviour of `folderUrl.match(/\/folders\/([^\/]+)/)` followed by taking
 capture group 1.

 The regular expression is unanchored: the engine tries each start position
 from left to right and takes the first where the literal `/folders/` is
 followed by at least one character other than `/`; the greedy `[^/]+` then
 captures the longest run of non-`/` characters there. Everything up to the
 next `/` or the end of the string, a `?query` or `#fragment` included, is
 part of the captured id.

 The id is later spliced into the metadata request's path as it is. The
 HTTP client drops a `#fragment` from a request URL and reads a `?` as the
 start of the query, so that request names only `PathPart(id)`; the
 subfolder search and the folder create use the whole captured id.
 */
module FolderUrl {
  import opened Api

  const Marker: string := "/folders/"

  /** The regular expression can match at position `i`. */
  predicate MatchesAt(url: string, i: int) {
    && 0 <= i
    && i + |Marker| < |url|
    && url[i..i + |Marker|] == Marker
    && url[i + |Marker|] != '/'
  }

  /** `i` is the leftmost position where the regular expression matches. */
  predicate IsFirstMatch(url: string, i: int) {
    MatchesAt(url, i) && forall k :: 0 <= k < i ==> !MatchesAt(url, k)
  }

  /** `id` is what the greedy group captures when the match starts at `i`:
      a non-empty run of non-`/` characters right after the marker, ended by
      a `/` or by the end of the string. */
  predicate IsCaptureAt(url: string, i: int, id: string) {
    && 0 <= i
    && i + |Marker| + |id| <= |url|
    && url[i + |Marker|..i + |Marker| + |id|] == id
    && id != []
    && (forall k :: 0 <= k < |id| ==> id[k] != '/')
    && (i + |Marker| + |id| == |url| || url[i + |Marker| + |id|] == '/')
  }

  /** Length of the run of non-`/` characters starting at `j`. */
  function RunLength(url: string, j: nat): (n: nat)
    requires j <= |url|
    ensures j + n <= |url|
    ensures forall k :: j <= k < j + n ==> url[k] != '/'
    ensures j + n == |url| || url[j + n] == '/'
    decreases |url| - j
  {
    if j == |url| || url[j] == '/' then 0 else 1 + RunLength(url, j + 1)
  }

  /** The scan of the regular-expression engine from position `i` on. */
  function FolderIdFrom(url: string, i: nat): (r: Option<string>)
    requires i <= |url|
    ensures r.None? <==> forall k :: i <= k ==> !MatchesAt(url, k)
    ensures r.Some? ==>
      exists k :: i <= k && MatchesAt(url, k) && IsCaptureAt(url, k, r.value)
        && (forall m :: i <= m < k ==> !MatchesAt(url, m))
    decreases |url| - i
  {
    if i + |Marker| >= |url| then None
    else if MatchesAt(url, i) then
      var n := RunLength(url, i + |Marker|);
      var id := url[i + |Marker|..i + |Marker| + n];
      assert IsCaptureAt(url, i, id) by {
        assert id[0] == url[i + |Marker|];
        assert forall k :: 0 <= k < |id| ==> id[k] == url[i + |Marker| + k];
      }
      Some(id)
    else
      var r := FolderIdFrom(url, i + 1);
      assert r.Some? ==>
        exists k :: i <= k && MatchesAt(url, k) && IsCaptureAt(url, k, r.value)
          && (forall m :: i <= m < k ==> !MatchesAt(url, m)) by {
        if r.Some? {
          var k :| i + 1 <= k && MatchesAt(url, k) && IsCaptureAt(url, k, r.value)
            && (forall m :: i + 1 <= m < k ==> !MatchesAt(url, m));
          assert forall m :: i <= m < k ==> !MatchesAt(url, m);
        }
      }
      r
  }

  /** The folder id of `url`, or `None` where the source throws "Invalid
      folder URL". */
  function FolderId(url: string): (r: Option<string>)
    ensures r.None? <==> forall i :: !MatchesAt(url, i)
    ensures r.Some? ==> exists i :: IsFirstMatch(url, i) && IsCaptureAt(url, i, r.value)
  {
    FolderIdFrom(url, 0)
  }

  /** At one start position the greedy capture is unique. */
  lemma {:induction false} CaptureUnique(url: string, i: int, a: string, b: string)
    requires IsCaptureAt(url, i, a) && IsCaptureAt(url, i, b)
    ensures a == b
  {
    var j := i + |Marker|;
    assert a == url[j..j + |a|];
  }

  /** The parser agrees with the regular-expression semantics in both
      directions: `FolderId` returns `id` exactly when `id` is the capture at
      the leftmost match. */
  lemma FolderIdIsLeftmostCapture(url: string, i: int, id: string)
    requires IsFirstMatch(url, i)
    ensures FolderId(url) == Some(id) <==> IsCaptureAt(url, i, id)
  {
    var r := FolderId(url);
    var k :| IsFirstMatch(url, k) && IsCaptureAt(url, k, r.value);
    assert k == i;
    if IsCaptureAt(url, i, id) {
      CaptureUnique(url, i, id, r.value);
    }
  }

  /** A parsed id is never empty and never contains `/`. */
  lemma FolderIdShape(url: string)
    requires FolderId(url).Some?
    ensures FolderId(url).value != []
    ensures forall k :: 0 <= k < |FolderId(url).value| ==> FolderId(url).value[k] != '/'
  {
    var i :| IsFirstMatch(url, i) && IsCaptureAt(url, i, FolderId(url).value);
  }

  const SharingPrefix: string := "https://drive.google.com/drive"

  /** The host and path before `/folders/` in a sharing link hold no match. */
  lemma {:induction false} SharingPrefixNoMatch(id: string)
    ensures forall k :: 0 <= k < |SharingPrefix| ==> !MatchesAt(SharingPrefix + Marker + id, k)
  {
    var url := SharingPrefix + Marker + id;
    forall k | 0 <= k < |SharingPrefix|
      ensures !MatchesAt(url, k)
    {
      assert url[k..k + |Marker|][0] == url[k] && url[k..k + |Marker|][1] == url[k + 1];
      assert url[k] == SharingPrefix[k];
      assert url[k + 1] == (SharingPrefix + "/")[k + 1];
    }
  }

  /** The usual sharing link: the id is everything after `/folders/`, a
      query string included when the id holds no `/`. */
  lemma {:induction false} SharingLink(id: string)
    requires id != [] && forall k :: 0 <= k < |id| ==> id[k] != '/'
    ensures FolderId("https://drive.google.com/drive/folders/" + id) == Some(id)
  {
    var url := SharingPrefix + Marker + id;
    assert url == "https://drive.google.com/drive/folders/" + id;
    var i := |SharingPrefix|;
    assert url[i..i + |Marker|] == Marker;
    assert url[i + |Marker|..] == id;
    assert url[i + |Marker|] == id[0];
    SharingPrefixNoMatch(id);
    assert IsCaptureAt(url, i, id) by {
      assert url[i + |Marker|..i + |Marker| + |id|] == id;
    }
    FolderIdIsLeftmostCapture(url, i, id);
  }

  /** The part of a folder id that a request path built from it names: the
      id up to its first `?` (where the query starts) or `#` (where the
      fragment the client drops starts). */
  function PathPart(id: string): (p: string)
    ensures |p| <= |id| && p == id[..|p|]
    ensures forall k :: 0 <= k < |p| ==> p[k] != '?' && p[k] != '#'
    ensures |p| < |id| ==> id[|p|] == '?' || id[|p|] == '#'
  {
    if id == [] || id[0] == '?' || id[0] == '#' then []
    else [id[0]] + PathPart(id[1..])
  }

  /** An id with no `?` or `#` names itself in a request path; one followed
      by a query or fragment names only the text before it. */
  lemma PathPartStopsAtQuery(id: string, rest: string)
    requires forall k :: 0 <= k < |id| ==> id[k] != '?' && id[k] != '#'
    requires rest == [] || rest[0] == '?' || rest[0] == '#'
    ensures PathPart(id + rest) == id
  {
    var p := PathPart(id + rest);
    assert forall k :: 0 <= k < |id| ==> (id + rest)[k] == id[k];
    assert p == (id + rest)[..|id|] == id;
  }

  /** A sharing link with a query after the id, as in `?usp=sharing`: the
      captured id keeps the query, and its path part is the id alone. */
  lemma SharingLinkWithQuery(id: string, query: string)
    requires id != [] && forall k :: 0 <= k < |id| ==> id[k] != '/' && id[k] != '?' && id[k] != '#'
    requires forall k :: 0 <= k < |query| ==> query[k] != '/'
    ensures FolderId("https://drive.google.com/drive/folders/" + id + "?" + query) == Some(id + "?" + query)
    ensures PathPart(id + "?" + query) == id
  {
    var full := id + "?" + query;
    assert full == id + ("?" + query);
    assert "https://drive.google.com/drive/folders/" + id + "?" + query
        == "https://drive.google.com/drive/folders/" + full;
    forall k | 0 <= k < |full|
      ensures full[k] != '/'
    {
      if k < |id| {
        assert full[k] == id[k];
      } else if k > |id| {
        assert full[k] == query[k - |id| - 1];
      }
    }
    SharingLink(full);
    PathPartStopsAtQuery(id, "?" + query);
  }

  /** A bare folder id, with no `/` in it, is rejected: only references that
      contain the `/folders/` segment parse. */
  lemma BareIdRejected(id: string)
    requires forall k :: 0 <= k < |id| ==> id[k] != '/'
    ensures FolderId(id) == None
  {
    forall i | 0 <= i && i + |Marker| < |id|
      ensures !MatchesAt(id, i)
    {
      assert id[i..i + |Marker|][0] == id[i];
    }
  }
}
