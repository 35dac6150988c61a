/**
 * The string handling of the playlist form (src/components/admin/PlaylistForm.tsx):
 * the playlist id taken from a Spotify or Apple Music URL, the check that
 * rejects a missing or empty id, and the comma-separated tag list.
 */
module PlaylistForm {
  import opened Wrappers
  import opened JsString

  const PlaylistMarker: string := "/playlist/"

  /** The text after the first `/playlist/` up to the next one: `url.split('/playlist/')[1]`. */
  function PlaylistSegment(url: string): string
    requires Includes(url, PlaylistMarker)
  {
    Before(After(url, PlaylistMarker), PlaylistMarker)
  }

  /** `extractPlaylistId(url, platform)`, with `None` for null. */
  function ExtractPlaylistId(url: string, platform: string): (r: Option<string>)
    ensures !Includes(url, PlaylistMarker) ==> r.None?
    ensures platform != "spotify" && platform != "apple" ==> r.None?
    ensures r.Some? ==> '?' !in r.value
  {
    if platform == "spotify" then
      if Includes(url, PlaylistMarker) then
        var parts := Split(url, PlaylistMarker);
        NoQuestionMark(parts[1]);
        Some(Split(parts[1], "?")[0])
      else None
    else if platform == "apple" then
      if Includes(url, PlaylistMarker) then
        var parts := Split(url, PlaylistMarker);
        var idPart := Split(parts[1], "/");
        NoQuestionMark(idPart[|idPart| - 1]);
        Some(Split(idPart[|idPart| - 1], "?")[0])
      else None
    else None
  }

  /** The first `?`-piece of any text has no `?`. */
  lemma NoQuestionMark(s: string)
    ensures '?' !in Split(s, "?")[0]
  {
    SplitFirst(s, "?");
    IncludesChar(Split(s, "?")[0], '?');
  }

  /** For Spotify the id is the playlist segment cut at the first `?`. */
  lemma SpotifyId(url: string)
    requires Includes(url, PlaylistMarker)
    ensures ExtractPlaylistId(url, "spotify") == Some(Before(PlaylistSegment(url), "?"))
  {
    SplitSecond(url, PlaylistMarker);
    SplitFirst(PlaylistSegment(url), "?");
  }

  /** For Apple Music the id is the last `/`-segment of the playlist segment, cut at `?`. */
  lemma AppleId(url: string)
    requires Includes(url, PlaylistMarker)
    ensures ExtractPlaylistId(url, "apple") == Some(Before(AfterLast(PlaylistSegment(url), '/'), "?"))
  {
    var seg := PlaylistSegment(url);
    var parts := Split(url, PlaylistMarker);
    SplitSecond(url, PlaylistMarker);
    assert parts[1] == seg;
    var idPart := Split(seg, "/");
    SplitLast(seg, '/');
    assert idPart[|idPart| - 1] == AfterLast(seg, '/');
    SplitFirst(AfterLast(seg, '/'), "?");
  }

  /** No `/` in `h` is followed by `p`, and `h` does not end in `/`. */
  predicate PlainHost(h: string)
  {
    (forall j :: 0 <= j < |h| - 1 ==> !(h[j] == '/' && h[j + 1] == 'p')) &&
    (h == [] || h[|h| - 1] != '/')
  }

  /** After a plain host, the marker is found right where it is appended. */
  lemma MarkerAfterHost(host: string, rest: string)
    requires PlainHost(host)
    ensures IndexOf(host + PlaylistMarker + rest, PlaylistMarker) == Some(|host|)
    ensures After(host + PlaylistMarker + rest, PlaylistMarker) == rest
  {
    var url := host + PlaylistMarker + rest;
    assert url[|host|..|host| + |PlaylistMarker|] == PlaylistMarker;
    forall j | 0 <= j < |host|
      ensures !OccursAt(url, PlaylistMarker, j)
    {
      var w := url[j..j + |PlaylistMarker|];
      if host[j] != '/' {
        assert w[0] != PlaylistMarker[0];
      } else {
        assert j + 1 < |host| && host[j + 1] != 'p';
        assert w[1] != PlaylistMarker[1];
      }
    }
    assert OccursAt(url, PlaylistMarker, |host|);
    assert IndexOf(url, PlaylistMarker) == Some(|host|);
  }

  /** Text with at most one `/` holds no marker, which has two. */
  lemma NoMarkerWithOneSlash(s: string, k: int)
    requires forall j :: 0 <= j < |s| && j != k ==> s[j] != '/'
    ensures !Includes(s, PlaylistMarker)
  {
    forall j | 0 <= j && j + |PlaylistMarker| <= |s|
      ensures !OccursAt(s, PlaylistMarker, j)
    {
      var w := s[j..j + |PlaylistMarker|];
      if j != k {
        assert w[0] != PlaylistMarker[0];
      } else {
        assert w[9] != PlaylistMarker[9];
      }
    }
  }

  /** A Spotify URL `<host>/playlist/<id>` yields `<id>`. */
  lemma SpotifyUrl(host: string, id: string)
    requires PlainHost(host) && '/' !in id && '?' !in id
    ensures ExtractPlaylistId(host + PlaylistMarker + id, "spotify") == Some(id)
  {
    var url := host + PlaylistMarker + id;
    MarkerAfterHost(host, id);
    NoMarkerWithOneSlash(id, -1);
    IncludesChar(id, '?');
    SpotifyId(url);
  }

  /** After a plain host and the marker, a text with one `/` is the whole playlist segment. */
  lemma SegmentAfterHost(host: string, name: string, id: string)
    requires PlainHost(host) && '/' !in name && '/' !in id
    ensures Includes(host + PlaylistMarker + (name + "/" + id), PlaylistMarker)
    ensures PlaylistSegment(host + PlaylistMarker + (name + "/" + id)) == name + "/" + id
  {
    var rest := name + "/" + id;
    MarkerAfterHost(host, rest);
    NoMarkerWithOneSlash(rest, |name|);
  }

  /** The last `/`-segment of `name/id`, cut at `?`, is `id`. */
  lemma LastSegmentId(name: string, id: string)
    requires '/' !in id && '?' !in id
    ensures Before(AfterLast(name + "/" + id, '/'), "?") == id
  {
    assert name + "/" + id == name + ['/'] + id;
    AfterLastSkips(name, '/', id);
    AfterLastNone(id, '/');
    IncludesChar(id, '?');
  }

  /** An Apple Music URL `<host>/playlist/<name>/<id>` yields `<id>`. */
  lemma AppleUrl(host: string, name: string, id: string)
    requires PlainHost(host) && '/' !in name && '/' !in id && '?' !in id
    ensures ExtractPlaylistId(host + PlaylistMarker + name + "/" + id, "apple") == Some(id)
  {
    var url := host + PlaylistMarker + (name + "/" + id);
    assert host + PlaylistMarker + name + "/" + id == url;
    SegmentAfterHost(host, name, id);
    LastSegmentId(name, id);
    AppleId(url);
  }

  /** The Spotify URL of the format comment at PlaylistForm.tsx:50. */
  lemma SpotifyExample()
    ensures ExtractPlaylistId("https://open.spotify.com" + "/playlist/" + "37i9dQZF1DX0XUsuxWHRQd", "spotify")
         == Some("37i9dQZF1DX0XUsuxWHRQd")
  {
    SpotifyUrl("https://open.spotify.com", "37i9dQZF1DX0XUsuxWHRQd");
  }

  /** The Apple Music URL of the format comment at PlaylistForm.tsx:60. */
  lemma AppleExample()
    ensures ExtractPlaylistId("https://music.apple.com/us" + "/playlist/" + "todays-hits" + "/" +
                              "pl.f4d106fed2bd41149aaacabb233eb5eb", "apple")
         == Some("pl.f4d106fed2bd41149aaacabb233eb5eb")
  {
    AppleUrl("https://music.apple.com/us", "todays-hits", "pl.f4d106fed2bd41149aaacabb233eb5eb");
  }

  /** A URL ending in `/playlist/` yields the empty id. */
  lemma EmptySegment(url: string)
    requires |url| >= |PlaylistMarker| && url[|url| - |PlaylistMarker|..] == PlaylistMarker
    requires !Includes(url[..|url| - 1], PlaylistMarker)
    ensures ExtractPlaylistId(url, "spotify") == Some("")
  {
    var k := |url| - |PlaylistMarker|;
    assert OccursAt(url, PlaylistMarker, k);
    forall j | 0 <= j < k
      ensures !OccursAt(url, PlaylistMarker, j)
    {
      if OccursAt(url, PlaylistMarker, j) {
        assert url[..|url| - 1][j..j + |PlaylistMarker|] == url[j..j + |PlaylistMarker|];
        assert OccursAt(url[..|url| - 1], PlaylistMarker, j);
      }
    }
    assert IndexOf(url, PlaylistMarker) == Some(k);
    SpotifyId(url);
    assert After(url, PlaylistMarker) == "";
  }

  const ExtractError: string := "Could not extract playlist ID from URL. Please check the format."

  /** The submit check: a null or empty id is rejected as falsy. */
  function CheckPlaylistId(extracted: Option<string>): (r: Result<string, string>)
    ensures r.Success? <==> extracted.Some? && extracted.value != ""
    ensures r.Success? ==> r.value == extracted.value
    ensures r.Failure? ==> r.error == ExtractError
  {
    if extracted.None? || extracted.value == "" then Failure(ExtractError) else Success(extracted.value)
  }

  /**
   * `formData.tags ? formData.tags.split(',').map(tag => tag.trim()) : []`:
   * no tags for the empty string, otherwise one trimmed entry per piece.
   */
  function ParseTags(tags: string): (r: seq<string>)
    ensures tags == "" ==> r == []
    ensures tags != "" ==> |r| == CountChar(tags, ',') + 1
    ensures tags != "" ==> |r| == |Split(tags, ",")| &&
                           forall k :: 0 <= k < |r| ==> r[k] == Trim(Split(tags, ",")[k])
  {
    if tags == "" then []
    else
      SplitCharCount(tags, ',');
      var parts := Split(tags, ",");
      seq(|parts|, k requires 0 <= k < |parts| => Trim(parts[k]))
  }
}
