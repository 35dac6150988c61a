/**
 * The pure parts of src/utils/githubDirectService.ts: the image filename
 * slug, the image path and URL, the content file path, the commit
 * messages and the filter on the directory listing. The fetches, the
 * base64 encoding and the commits themselves are not modelled.
 */
module GitHubService {
  import opened Wrappers
  import opened JsString
  import opened JsArray

  /** The characters `[a-z0-9.]` the slug keeps. */
  predicate Allowed(c: char)
  {
    'a' <= c <= 'z' || '0' <= c <= '9' || c == '.'
  }

  /** The text from the first allowed character on. */
  function SkipDisallowed(s: string): (r: string)
    ensures |r| <= |s| && r == s[|s| - |r|..]
    ensures r == [] || Allowed(r[0])
    ensures forall i :: 0 <= i < |s| - |r| ==> !Allowed(s[i])
  {
    if s == [] || Allowed(s[0]) then s else SkipDisallowed(s[1..])
  }

  /** `.replace(/[^a-z0-9.]+/g, '-')`: each maximal run of other characters becomes one `-`. */
  function ReplaceRuns(s: string): (r: string)
    ensures forall i :: 0 <= i < |r| ==> Allowed(r[i]) || r[i] == '-'
    ensures NoDoubleDash(r)
    ensures s != [] && Allowed(s[0]) ==> r != [] && r[0] == s[0]
    ensures r == [] <==> s == []
    decreases |s|
  {
    if s == [] then []
    else if Allowed(s[0]) then [s[0]] + ReplaceRuns(s[1..])
    else "-" + ReplaceRuns(SkipDisallowed(s[1..]))
  }

  /** Skipping ahead in a text that holds an allowed character (at `i`) stops inside it. */
  lemma {:induction false} SkipWithin(s: string, t: string, i: nat)
    requires i < |s| && Allowed(s[i])
    ensures SkipDisallowed(s + t) == SkipDisallowed(s) + t
    decreases |s|
  {
    if !Allowed(s[0]) {
      assert (s + t)[1..] == s[1..] + t;
      assert s[1..][i - 1] == s[i];
      SkipWithin(s[1..], t, i - 1);
    } else {
      assert (s + t)[0] == s[0];
    }
  }

  /** After a disallowed first character of `a`, the skip stops inside `a` when `a` ends allowed. */
  lemma SkipPastRun(a: string) returns (k: string)
    requires a != [] && !Allowed(a[0]) && Allowed(a[|a| - 1])
    ensures k == SkipDisallowed(a[1..])
    ensures |k| < |a| && k != [] && Allowed(k[|k| - 1])
  {
    var a' := a[1..];
    assert |a| >= 2;
    var last := |a'| - 1;
    assert a'[last] == a[|a| - 1];
    k := SkipDisallowed(a');
    assert k[|k| - 1] == a'[last];
  }

  /** Skipping a run of disallowed characters that ends before an allowed one. */
  lemma {:induction false} SkipRun(d: string, t: string)
    requires forall i :: 0 <= i < |d| ==> !Allowed(d[i])
    requires t == [] || Allowed(t[0])
    ensures SkipDisallowed(d + t) == t
    decreases |d|
  {
    if d != [] {
      assert (d + t)[1..] == d[1..] + t;
      SkipRun(d[1..], t);
    } else {
      assert d + t == t;
    }
  }

  /** A leading run of disallowed characters becomes one `-`. */
  lemma UnfoldRun(d: string, b: string)
    requires d != [] && forall i :: 0 <= i < |d| ==> !Allowed(d[i])
    requires b == [] || Allowed(b[0])
    ensures ReplaceRuns(d + b) == "-" + ReplaceRuns(b)
  {
    assert (d + b)[1..] == d[1..] + b;
    SkipRun(d[1..], b);
  }

  /** A leading allowed character is copied. */
  lemma UnfoldAllowed(a: string, rest: string)
    requires a != [] && Allowed(a[0])
    ensures ReplaceRuns(a + rest) == [a[0]] + ReplaceRuns(a[1..] + rest)
  {
    assert (a + rest)[1..] == a[1..] + rest;
  }

  /** A leading disallowed run inside `a` is skipped without reaching `rest`. */
  lemma UnfoldSkip(a: string, rest: string)
    requires a != [] && !Allowed(a[0]) && Allowed(a[|a| - 1])
    ensures ReplaceRuns(a + rest) == "-" + ReplaceRuns(SkipDisallowed(a[1..]) + rest)
  {
    assert (a + rest)[1..] == a[1..] + rest;
    SkipWithin(a[1..], rest, |a| - 2);
  }

  /**
   * The replacement is local: a maximal run `d` of disallowed characters
   * between `a` and `b` becomes exactly one `-` between their replacements.
   */
  lemma {:induction false} ReplaceRunsSplit(a: string, d: string, b: string)
    requires a == [] || Allowed(a[|a| - 1])
    requires d != [] && forall i :: 0 <= i < |d| ==> !Allowed(d[i])
    requires b == [] || Allowed(b[0])
    ensures ReplaceRuns(a + d + b) == ReplaceRuns(a) + "-" + ReplaceRuns(b)
    decreases |a|
  {
    Assoc(a, d, b);
    if a == [] {
      EmptyLeft(d + b);
      EmptyLeft("-");
      UnfoldRun(d, b);
    } else if Allowed(a[0]) {
      UnfoldAllowed(a, d + b);
      ReplaceRunsSplit(a[1..], d, b);
      Assoc(a[1..], d, b);
      var head, tr, dash, br := [a[0]], ReplaceRuns(a[1..]), "-", ReplaceRuns(b);
      assert ReplaceRuns(a) == head + tr;
      Assoc(head, tr + dash, br);
      Assoc(head, tr, dash);
    } else {
      var k := SkipPastRun(a);
      UnfoldSkip(a, d + b);
      ReplaceRunsSplit(k, d, b);
      var dash, kr, br := "-", ReplaceRuns(k), ReplaceRuns(b);
      assert ReplaceRuns(a) == dash + kr;
      Assoc(k, d, b);
      Assoc(dash, kr + dash, br);
      Assoc(dash, kr, dash);
    }
  }

  /** Concatenation regrouped. */
  lemma Assoc(x: string, y: string, z: string)
    ensures x + y + z == x + (y + z)
  {
  }

  /** The empty text is a left unit. */
  lemma EmptyLeft(x: string)
    ensures [] + x == x
  {
  }

  /** `.replace(/-+/g, '-')`: each run of `-` becomes one. */
  function CollapseDashes(s: string): (r: string)
    ensures |r| <= |s|
    ensures s != [] ==> r != [] && r[0] == s[0]
    ensures NoDoubleDash(r)
  {
    if |s| >= 2 && s[0] == '-' && s[1] == '-' then CollapseDashes(s[1..])
    else if s == [] then []
    else [s[0]] + CollapseDashes(s[1..])
  }

  /** No two neighbouring characters are both `-`. */
  predicate NoDoubleDash(s: string)
  {
    forall i :: 0 <= i < |s| - 1 ==> !(s[i] == '-' && s[i + 1] == '-')
  }

  /** Collapsing leaves a text without doubled dashes unchanged. */
  lemma {:induction false} CollapseNoop(s: string)
    requires NoDoubleDash(s)
    ensures CollapseDashes(s) == s
  {
    if s != [] {
      CollapseNoop(s[1..]);
      assert s == [s[0]] + s[1..];
    }
  }

  /**
   * `.replace(/^-|-$/g, '')`: one leading and one trailing `-` go, and
   * nothing else; a lone `-` is both and goes once.
   */
  function StripDashes(s: string): (r: string)
    ensures |r| <= |s|
    ensures forall i :: 0 <= i < |r| ==> r[i] in s
    ensures var front := if s != [] && s[0] == '-' then 1 else 0;
            var back := if |s| > front && s[|s| - 1] == '-' then 1 else 0;
            r == s[front..|s| - back]
  {
    var t := if s != [] && s[0] == '-' then s[1..] else s;
    if t != [] && t[|t| - 1] == '-' then t[..|t| - 1] else t
  }

  /**
   * The slug of an image filename, as `uploadImage` computes it: only
   * `[a-z0-9.-]` (with ASCII lower-casing), no doubled `-`, no `-` at
   * either end, and every `[a-z0-9.]` character of the lower-cased name
   * kept in order.
   */
  function Slug(name: string): (r: string)
    ensures IsSlug(r)
    ensures KeepAllowed(r) == KeepAllowed(ToLower(name))
  {
    var runs := ReplaceRuns(ToLower(name));
    CollapseNoop(runs);
    StripEdges(runs);
    ReplaceRunsKeeps(ToLower(name));
    StripKeeps(runs);
    StripDashes(CollapseDashes(runs))
  }

  /** The collapsing step of the slug pipeline never changes anything. */
  lemma CollapseStepIsNoop(name: string)
    ensures Slug(name) == StripDashes(ReplaceRuns(ToLower(name)))
  {
    CollapseNoop(ReplaceRuns(ToLower(name)));
  }

  /** The characters a slug may contain. */
  predicate SlugChar(c: char)
  {
    Allowed(c) || c == '-'
  }

  /** Stripping text with no doubled dash leaves no dash at either end. */
  lemma StripEdges(s: string)
    requires NoDoubleDash(s)
    ensures var r := StripDashes(s);
            (r == [] || (r[0] != '-' && r[|r| - 1] != '-')) && NoDoubleDash(r)
  {
    var t := if s != [] && s[0] == '-' then s[1..] else s;
    assert NoDoubleDash(t);
    assert t != [] && |s| > |t| ==> t[0] != '-' by {
      if t != [] && |s| > |t| {
        assert s[0] == '-' && s[1] == t[0];
      }
    }
    if t != [] && t[|t| - 1] == '-' && |t| >= 2 {
      assert t[|t| - 2] != '-';
    }
  }

  /** A text that already has the slug's shape. */
  predicate IsSlug(s: string)
  {
    (forall i :: 0 <= i < |s| ==> SlugChar(s[i])) && NoDoubleDash(s) &&
    (s == [] || (s[0] != '-' && s[|s| - 1] != '-'))
  }

  /** Lower-casing keeps slug characters. */
  lemma ToLowerSlug(s: string)
    requires forall i :: 0 <= i < |s| ==> SlugChar(s[i])
    ensures ToLower(s) == s
  {
  }

  /** Replacing runs keeps a text of slug characters without doubled dashes. */
  lemma {:induction false} ReplaceRunsNoop(s: string)
    requires forall i :: 0 <= i < |s| ==> SlugChar(s[i])
    requires NoDoubleDash(s)
    requires s == [] || s[0] != '-'
    ensures ReplaceRuns(s) == s
    decreases |s|
  {
    if s != [] {
      if Allowed(s[0]) {
        if |s| >= 2 && s[1] == '-' {
          ReplaceRunsDash(s[1..]);
        } else {
          ReplaceRunsNoop(s[1..]);
        }
      }
    }
  }

  /** A lone dash followed by an allowed character stays as it is. */
  lemma {:induction false} ReplaceRunsDash(s: string)
    requires forall i :: 0 <= i < |s| ==> SlugChar(s[i])
    requires NoDoubleDash(s)
    requires s != [] && s[0] == '-'
    ensures ReplaceRuns(s) == s
    decreases |s|
  {
    var rest := s[1..];
    assert rest == [] || Allowed(rest[0]);
    assert SkipDisallowed(rest) == rest;
    ReplaceRunsNoop(rest);
  }

  /** Slugging is idempotent. */
  lemma SlugIdempotent(name: string)
    ensures Slug(Slug(name)) == Slug(name)
  {
    var r := Slug(name);
    ToLowerSlug(r);
    ReplaceRunsNoop(r);
    CollapseNoop(r);
  }

  /** The allowed characters of a text, in order. */
  function KeepAllowed(s: string): (r: string)
    ensures forall i :: 0 <= i < |r| ==> Allowed(r[i])
  {
    if s == [] then [] else if Allowed(s[0]) then [s[0]] + KeepAllowed(s[1..]) else KeepAllowed(s[1..])
  }

  lemma {:induction false} KeepAllowedAppend(a: string, b: string)
    ensures KeepAllowed(a + b) == KeepAllowed(a) + KeepAllowed(b)
  {
    if a != [] {
      assert (a + b)[1..] == a[1..] + b;
      KeepAllowedAppend(a[1..], b);
    } else {
      assert a + b == b;
    }
  }

  lemma {:induction false} KeepAllowedSkip(s: string)
    ensures KeepAllowed(SkipDisallowed(s)) == KeepAllowed(s)
  {
    if s != [] && !Allowed(s[0]) {
      KeepAllowedSkip(s[1..]);
    }
  }

  lemma {:induction false} ReplaceRunsKeeps(s: string)
    ensures KeepAllowed(ReplaceRuns(s)) == KeepAllowed(s)
    decreases |s|
  {
    if s != [] {
      if Allowed(s[0]) {
        ReplaceRunsKeeps(s[1..]);
        KeepAllowedAppend([s[0]], ReplaceRuns(s[1..]));
      } else {
        ReplaceRunsKeeps(SkipDisallowed(s[1..]));
        KeepAllowedSkip(s[1..]);
        KeepAllowedAppend("-", ReplaceRuns(SkipDisallowed(s[1..])));
      }
    }
  }

  lemma StripKeeps(s: string)
    ensures KeepAllowed(StripDashes(s)) == KeepAllowed(s)
  {
    var t := if s != [] && s[0] == '-' then s[1..] else s;
    if s != [] && s[0] == '-' {
      KeepAllowedAppend("-", t);
      assert s == "-" + t;
    }
    if t != [] && t[|t| - 1] == '-' {
      KeepAllowedAppend(t[..|t| - 1], "-");
      assert t == t[..|t| - 1] + "-";
    }
  }

  /** What `uploadImage` computes before it commits: the repository path, the message and the URL. */
  datatype UploadPlan = UploadPlan(path: string, message: string, url: string)

  /** The public prefix the image path has in front of the image URL. */
  lemma PublicPrefix(albumId: string, filename: string)
    ensures "public/assets/photos/" + albumId + "/" + filename
            == "public" + ("/assets/photos/" + albumId + "/" + filename)
  {
    var pre: string := "public";
    var dir: string := "/assets/photos/";
    assert |pre + dir| == 21;
    assert forall i :: 0 <= i < 21 ==> (pre + dir)[i] == "public/assets/photos/"[i];
    assert pre + dir == "public/assets/photos/";
  }

  /**
   * `uploadImage` up to the commit: the image is stored under `public`
   * at the path its URL names, and both name the slugged filename.
   */
  function ImageUpload(albumId: string, fileName: string): (p: UploadPlan)
    ensures p.path == "public" + p.url
    ensures p.url == "/assets/photos/" + albumId + "/" + Slug(fileName)
    ensures p.message == "Upload image: " + Slug(fileName) + " to album " + albumId
  {
    var filename := Slug(fileName);
    PublicPrefix(albumId, filename);
    UploadPlan("public/assets/photos/" + albumId + "/" + filename,
               "Upload image: " + filename + " to album " + albumId,
               "/assets/photos/" + albumId + "/" + filename)
  }

  /** What `createContent` computes before it commits. */
  datatype ContentPlan = ContentPlan(id: string, path: string, message: string, success: string)

  /** `type.slice(0, -1)`: all but the last character. */
  function DropLast(s: string): (r: string)
    ensures |s| > 0 ==> s == r + [s[|s| - 1]]
    ensures |s| == 0 ==> r == ""
  {
    if s == "" then "" else s[..|s| - 1]
  }

  /**
   * `createContent`: an empty id becomes the decimal timestamp `now`; the
   * file is `src/content/<type>/<id>.json`; the messages name the singular
   * type and the title, or the id when the title is empty.
   */
  function CreateContent(kind: string, id: string, title: string, now: nat): (p: ContentPlan)
    ensures p.id != "" && (id != "" ==> p.id == id) && (id == "" ==> p.id == NatToString(now))
    ensures p.path == "src/content/" + kind + "/" + p.id + ".json"
    ensures p.message == "Add new " + DropLast(kind) + ": " + (if title != "" then title else p.id)
    ensures p.success == "Successfully created " + DropLast(kind) + ": " + (if title != "" then title else p.id)
  {
    var effectiveId := if id == "" then NatToString(now) else id;
    var filename := effectiveId + ".json";
    var named := if title != "" then title else effectiveId;
    ContentPlan(effectiveId, "src/content/" + kind + "/" + filename,
                "Add new " + DropLast(kind) + ": " + named,
                "Successfully created " + DropLast(kind) + ": " + named)
  }

  /** An entry of a GitHub directory listing. */
  datatype RepoFile = RepoFile(name: string, fileType: string)

  /** The listing response: `ok`, the HTTP status and the parsed entries. */
  datatype ListingResponse = ListingResponse(ok: bool, status: nat, files: seq<RepoFile>)

  predicate EndsWith(s: string, suffix: string)
  {
    |suffix| <= |s| && s[|s| - |suffix|..] == suffix
  }

  function IsJsonFile(f: RepoFile): bool
  {
    EndsWith(f.name, ".json") && f.fileType == "file"
  }

  /**
   * `getContentList` up to the per-file fetches: a 404 is an empty list,
   * any other failure an error naming the status, and otherwise exactly the
   * `.json` entries of type `file`, in listing order.
   */
  function ContentListing(resp: ListingResponse): (r: Result<seq<RepoFile>, string>)
    ensures !resp.ok && resp.status == 404 ==> r == Success([])
    ensures !resp.ok && resp.status != 404 ==> r == Failure("GitHub API error: " + NatToString(resp.status))
    ensures resp.ok ==> r.Success? && IsSubsequence(r.value, resp.files)
    ensures resp.ok ==> forall k :: 0 <= k < |r.value| ==> IsJsonFile(r.value[k])
    ensures resp.ok ==> forall x :: multiset(r.value)[x] == if IsJsonFile(x) then multiset(resp.files)[x] else 0
  {
    if !resp.ok then
      if resp.status == 404 then Success([])
      else Failure("GitHub API error: " + NatToString(resp.status))
    else
      FilterCounts(resp.files, IsJsonFile);
      FilterSubsequence(resp.files, IsJsonFile);
      Success(Filter(resp.files, IsJsonFile))
  }
}
