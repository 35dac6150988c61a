/**
 * The pure logic of src/components/admin/PhotoForm.tsx: the `handleChange`
 * update of the (possibly nested) form object addressed by a dotted input
 * name, the filename and title suggestion after an upload, and the order
 * of the submit checks.
 */
module PhotoForm {
  import opened Wrappers
  import opened JsString

  /** A form value: a text field or an object of further fields. */
  datatype FormValue = Text(s: string) | Obj(fields: map<string, FormValue>)

  type Form = map<string, FormValue>

  /** Two numbers with the same decimal text are equal: the text denotes its number. */
  lemma NatToStringInjective(a: nat, b: nat)
    requires NatToString(a) == NatToString(b)
    ensures a == b
  {
  }

  lemma NatToStringDistinct(i: nat, n: nat)
    requires i != n
    ensures NatToString(i) != NatToString(n)
  {
    if NatToString(i) == NatToString(n) {
      NatToStringInjective(i, n);
    }
  }

  /**
   * The fields `{...v}` copies out of a field value: an object's own
   * fields, one field per character (keyed by its index) for a text, and
   * none for a missing field.
   */
  function Spread(v: Option<FormValue>): (r: map<string, FormValue>)
    ensures v.Some? && v.value.Obj? ==> r == v.value.fields
    ensures v.None? ==> r == map[]
    ensures v.Some? && v.value.Text? ==>
              forall i: nat :: i < |v.value.s| ==> NatToString(i) in r && r[NatToString(i)] == Text([v.value.s[i]])
  {
    match v
    case None => map[]
    case Some(Obj(f)) => f
    case Some(Text(s)) => CharFields(s)
  }

  /** `{...s}` for a text: field `i` (in decimal) holds character `i`. */
  function CharFields(s: string): (r: map<string, FormValue>)
    ensures forall i: nat :: i < |s| ==> NatToString(i) in r && r[NatToString(i)] == Text([s[i]])
    ensures forall k :: k in r ==> exists i: nat :: i < |s| && k == NatToString(i)
  {
    if s == [] then map[]
    else
      var n := |s| - 1;
      var prev := CharFields(s[..n]);
      var r := prev[NatToString(n) := Text([s[n]])];
      assert forall i: nat :: i < |s| ==> NatToString(i) in r && r[NatToString(i)] == Text([s[i]]) by {
        forall i: nat | i < |s|
          ensures NatToString(i) in r && r[NatToString(i)] == Text([s[i]])
        {
          if i < n {
            NatToStringDistinct(i, n);
            assert s[..n][i] == s[i];
          }
        }
      }
      r
  }

  function Lookup(form: Form, key: string): Option<FormValue>
  {
    if key in form then Some(form[key]) else None
  }

  /**
   * `handleChange`. A name without a dot sets that top-level field. A
   * dotted name is split at its dots, and only the first two pieces are
   * used: the second piece never contains a dot, so the deeper
   * branch never runs (`NestedBranchUnreachable`).
   */
  function HandleChange(form: Form, name: string, value: string): (r: Form)
    ensures !Includes(name, ".") ==> r == form[name := Text(value)]
    ensures Includes(name, ".") ==>
              var parent := Before(name, ".");
              var child := Before(After(name, "."), ".");
              r == form[parent := Obj(Spread(Lookup(form, parent))[child := Text(value)])]
    ensures r.Keys == form.Keys + {Before(name, ".")}
  {
    if Includes(name, ".") then
      var parts := Split(name, ".");
      var parent, child := parts[0], parts[1];
      SplitFirst(name, ".");
      SplitSecond(name, ".");
      form[parent := Obj(Spread(Lookup(form, parent))[child := Text(value)])]
    else
      form[name := Text(value)]
  }

  /** The second piece of a split at `.` never contains `.`. */
  lemma NestedBranchUnreachable(name: string)
    requires Includes(name, ".")
    ensures !Includes(Split(name, ".")[1], ".")
  {
    SplitSecond(name, ".");
  }

  /** All fields but the one a change names keep their values. */
  lemma ChangeKeepsOthers(form: Form, name: string, value: string, k: string)
    requires k in form && k != Before(name, ".")
    ensures k in HandleChange(form, name, value) && HandleChange(form, name, value)[k] == form[k]
  {
    if !Includes(name, ".") {
      assert Before(name, ".") == name;
    }
  }

  /** The first `c` of `p + [c] + q` is the one after `p` when `p` has none. */
  lemma FirstOccurrence(p: string, c: char, q: string)
    requires c !in p
    ensures IndexOf(p + [c] + q, [c]) == Some(|p|)
  {
    var s := p + [c] + q;
    assert OccursAt(s, [c], |p|) by { assert s[|p|..|p| + 1] == [c]; }
    forall j | 0 <= j < |p|
      ensures !OccursAt(s, [c], j)
    {
      assert s[j] == p[j] && s[j..j + 1][0] == s[j];
    }
  }

  /**
   * A three-piece name `p.c.rest` replaces the whole field `p.c` by the
   * text, rather than setting `rest` inside it.
   */
  lemma ThreePieceName(form: Form, p: string, c: string, rest: string, value: string)
    requires '.' !in p && '.' !in c
    ensures HandleChange(form, p + "." + c + "." + rest, value)
            == form[p := Obj(Spread(Lookup(form, p))[c := Text(value)])]
  {
    var name := p + "." + c + "." + rest;
    var tail := c + "." + rest;
    assert name == p + ['.'] + tail;
    FirstOccurrence(p, '.', tail);
    assert Includes(name, ".");
    assert Before(name, ".") == p;
    assert After(name, ".") == tail;
    FirstOccurrence(c, '.', rest);
    assert tail == c + ['.'] + rest;
    assert Before(tail, ".") == c;
  }

  /**
   * The camera-settings inputs (`metadata.settings.aperture` and its
   * siblings) replace the whole `metadata.settings` object by the typed
   * text, so the other settings are lost and submit reads `undefined` from
   * a string.
   */
  lemma SettingsApertureReplacesSettings(form: Form, value: string)
    ensures var r := HandleChange(form, "metadata" + "." + "settings" + "." + "aperture", value);
            "metadata" in r && r["metadata"].Obj? && "settings" in r["metadata"].fields &&
            r["metadata"].fields["settings"] == Text(value)
  {
    ThreePieceName(form, "metadata", "settings", "aperture", value);
  }

  /** The field `key` of an optional value, read as `(v as any)[key]`. */
  function FieldOf(v: Option<FormValue>, key: string): Option<FormValue>
  {
    Lookup(Spread(v), key)
  }

  /**
   * `handleChange` as its nested branch evidently intends: a name
   * `parent.nested.child…` sets `child` inside `nested` inside `parent`,
   * keeping every sibling at both levels. Names with at most one dot
   * behave as written.
   */
  function HandleChangeNested(form: Form, name: string, value: string): (r: Form)
    ensures !Includes(name, ".") || !Includes(After(name, "."), ".") ==> r == HandleChange(form, name, value)
    ensures r.Keys == form.Keys + {Before(name, ".")}
    ensures forall k :: k in form && k != Before(name, ".") ==> r[k] == form[k]
    ensures Includes(name, ".") && Includes(After(name, "."), ".") ==>
              var parent := Before(name, ".");
              var rest := After(name, ".");
              var nested := Before(rest, ".");
              var child := Before(After(rest, "."), ".");
              var outer := Spread(Lookup(form, parent));
              var inner := Spread(FieldOf(Lookup(form, parent), nested));
              r[parent].Obj? &&
              r[parent].fields.Keys == outer.Keys + {nested} &&
              (forall k :: k in outer && k != nested ==> r[parent].fields[k] == outer[k]) &&
              r[parent].fields[nested].Obj? &&
              r[parent].fields[nested].fields.Keys == inner.Keys + {child} &&
              r[parent].fields[nested].fields[child] == Text(value) &&
              (forall k :: k in inner && k != child ==> r[parent].fields[nested].fields[k] == inner[k])
  {
    if Includes(name, ".") && Includes(After(name, "."), ".") then
      var parent := Before(name, ".");
      var rest := After(name, ".");
      var nested := Before(rest, ".");
      var child := Before(After(rest, "."), ".");
      var outer := Spread(Lookup(form, parent));
      var inner := Spread(FieldOf(Lookup(form, parent), nested));
      form[parent := Obj(outer[nested := Obj(inner[child := Text(value)])])]
    else
      HandleChange(form, name, value)
  }

  /** With the intended update, a name `p.c.leaf` sets `leaf` inside `c` inside `p`, keeping the siblings. */
  lemma NestedNameKeepsSiblings(form: Form, p: string, c: string, leaf: string, value: string)
    requires '.' !in p && '.' !in c && '.' !in leaf
    ensures var r := HandleChangeNested(form, p + "." + c + "." + leaf, value);
            p in r && r[p].Obj? && c in r[p].fields && r[p].fields[c].Obj? &&
            r[p].fields[c].fields == Spread(FieldOf(Lookup(form, p), c))[leaf := Text(value)]
  {
    var name := p + "." + c + "." + leaf;
    var tail := c + "." + leaf;
    assert name == p + ['.'] + tail;
    FirstOccurrence(p, '.', tail);
    assert Before(name, ".") == p;
    assert After(name, ".") == tail;
    assert tail == c + ['.'] + leaf;
    FirstOccurrence(c, '.', leaf);
    assert Before(tail, ".") == c;
    assert After(tail, ".") == leaf;
    IncludesChar(leaf, '.');
    var r := HandleChangeNested(form, name, value);
    var inner := Spread(FieldOf(Lookup(form, p), c));
    assert r[p].fields[c].fields == inner[leaf := Text(value)];
  }

  /**
   * With the intended update, `metadata.settings.aperture` sets the
   * aperture and keeps the other camera settings.
   */
  lemma SettingsApertureKeepsSettings(form: Form, value: string, settings: map<string, FormValue>)
    requires "metadata" in form && form["metadata"].Obj?
    requires "settings" in form["metadata"].fields && form["metadata"].fields["settings"] == Obj(settings)
    ensures var r := HandleChangeNested(form, "metadata" + "." + "settings" + "." + "aperture", value);
            "metadata" in r && r["metadata"].Obj? && "settings" in r["metadata"].fields &&
            r["metadata"].fields["settings"] == Obj(settings["aperture" := Text(value)])
  {
    NestedNameKeepsSiblings(form, "metadata", "settings", "aperture", value);
  }

  const DefaultFilename: string := "uploaded-image"

  lemma DefaultHasNoSlash()
    ensures '/' !in DefaultFilename
  {
    assert forall i :: 0 <= i < |DefaultFilename| ==> DefaultFilename[i] != '/';
  }

  /**
   * `url.split('/').pop() || 'uploaded-image'`: the text after the last
   * `/` (`LastPieceIsAfterLastSlash`), or the default when that is empty.
   */
  function FilenameFromUrl(url: string): (r: string)
    ensures r != ""
    ensures '/' !in r
    ensures AfterLast(url, '/') != "" ==> r == AfterLast(url, '/') && r == url[|url| - |r|..]
    ensures AfterLast(url, '/') == "" ==> r == DefaultFilename
  {
    DefaultHasNoSlash();
    var last := AfterLast(url, '/');
    if last != "" then last else DefaultFilename
  }

  /** The last piece of `url.split('/')` is the text after the last `/`. */
  lemma LastPieceIsAfterLastSlash(url: string)
    ensures var parts := Split(url, "/");
            FilenameFromUrl(url) == if parts[|parts| - 1] != "" then parts[|parts| - 1] else DefaultFilename
  {
    SplitLast(url, '/');
  }

  /** The characters `\w` matches. */
  predicate IsWord(c: char)
  {
    'a' <= c <= 'z' || 'A' <= c <= 'Z' || '0' <= c <= '9' || c == '_'
  }

  /** Position `i` of `s` starts a word: `\b\w` matches there. */
  predicate WordStart(s: string, i: int)
    requires 0 <= i < |s|
  {
    IsWord(s[i]) && (i == 0 || !IsWord(s[i - 1]))
  }

  /** `.replace(/\b\w/g, l => l.toUpperCase())`. */
  function CapitalizeWords(s: string): (r: string)
    ensures |r| == |s|
    ensures forall i :: 0 <= i < |s| ==> LowerChar(r[i]) == LowerChar(s[i])
    ensures forall i :: 0 <= i < |s| ==> IsWord(r[i]) == IsWord(s[i])
    ensures forall i :: 0 <= i < |s| && WordStart(s, i) ==> !('a' <= r[i] <= 'z')
    ensures forall i :: 0 <= i < |s| && !WordStart(s, i) ==> r[i] == s[i]
  {
    seq(|s|, i requires 0 <= i < |s| => if WordStart(s, i) then UpperChar(s[i]) else s[i])
  }

  /** Capitalising twice is capitalising once. */
  lemma CapitalizeIdempotent(s: string)
    ensures CapitalizeWords(CapitalizeWords(s)) == CapitalizeWords(s)
  {
    var r := CapitalizeWords(s);
    var rr := CapitalizeWords(r);
    forall i | 0 <= i < |s|
      ensures rr[i] == r[i]
    {
      assert WordStart(r, i) == WordStart(s, i);
    }
  }

  /** The stem of a filename, the text before its first `.`, with `-` and `_` turned into spaces. */
  function SpacedStem(filename: string): (r: string)
    ensures |r| == |Before(filename, ".")|
    ensures forall i :: 0 <= i < |r| ==>
              r[i] == (var c := Before(filename, ".")[i]; if c == '-' || c == '_' then ' ' else c)
  {
    SplitFirst(filename, ".");
    ReplaceChar(ReplaceChar(Split(filename, ".")[0], '-', ' '), '_', ' ')
  }

  /**
   * The title suggested for an uploaded file: the stem with spaces for
   * `-` and `_`, and each word's first character upper-cased.
   */
  function SuggestTitle(filename: string): (r: string)
    ensures '-' !in r && '_' !in r && '.' !in r
    ensures |r| == |Before(filename, ".")|
    ensures var spaced := SpacedStem(filename);
            forall i :: 0 <= i < |r| && WordStart(spaced, i) ==>
              !('a' <= r[i] <= 'z') && LowerChar(r[i]) == LowerChar(spaced[i])
    ensures var spaced := SpacedStem(filename);
            forall i :: 0 <= i < |r| && !WordStart(spaced, i) ==> r[i] == spaced[i]
  {
    var stem := Before(filename, ".");
    IncludesChar(stem, '.');
    var spaced := SpacedStem(filename);
    var r := CapitalizeWords(spaced);
    assert forall i :: 0 <= i < |r| ==> r[i] != '-' && r[i] != '_' && r[i] != '.' by {
      forall i | 0 <= i < |r|
        ensures r[i] != '-' && r[i] != '_' && r[i] != '.'
      {
        assert LowerChar(r[i]) == LowerChar(spaced[i]);
      }
    }
    r
  }

  /** JavaScript truthiness of an optional form value. */
  predicate Truthy(v: Option<FormValue>)
  {
    v.Some? && (v.value.Text? ==> v.value.s != "")
  }

  /**
   * `handleImageUploadSuccess`: the success message names the file, and
   * the title is set to the suggestion only when it is empty.
   */
  function ImageUploaded(form: Form, url: string): (r: (Form, string))
    ensures r.1 == "Image \"" + FilenameFromUrl(url) + "\" uploaded successfully"
    ensures Truthy(Lookup(form, "title")) ==> r.0 == form
    ensures !Truthy(Lookup(form, "title")) ==> r.0 == form["title" := Text(SuggestTitle(FilenameFromUrl(url)))]
  {
    var filename := FilenameFromUrl(url);
    var message := "Image \"" + filename + "\" uploaded successfully";
    if !Truthy(Lookup(form, "title")) then
      (form["title" := Text(SuggestTitle(filename))], message)
    else
      (form, message)
  }

  /**
   * `handleSubmit`'s checks: without an uploaded image it reports that
   * first, then a missing album; only when both are present does it go
   * on to create the photo.
   */
  function SubmitError(imageUrl: Option<string>, form: Form): (r: Option<string>)
    ensures (imageUrl.None? || imageUrl.value == "") ==> r == Some("Please upload an image first")
    ensures imageUrl.Some? && imageUrl.value != "" && !Truthy(Lookup(form, "albumId")) ==>
              r == Some("Please select an album")
    ensures r.None? <==> imageUrl.Some? && imageUrl.value != "" && Truthy(Lookup(form, "albumId"))
  {
    if imageUrl.None? || imageUrl.value == "" then Some("Please upload an image first")
    else if !Truthy(Lookup(form, "albumId")) then Some("Please select an album")
    else None
  }
}
