/** The "Download All" logic of the result gallery (components/ResultGallery.tsx:35-54):
    which generated images go into the archive, under which names, with which payload, and
    whether the button is shown at all. The archive is the name-to-payload table a JSZip
    object keeps; compressing it and handing the blob to the browser is outside the model. */
module Gallery {
  import opened Support

  /** A generated image; `angle` is the display string of its view angle, such as "Front View". */
  datatype GenerationResult = GenerationResult(
    angle: string,
    imageUrl: Option<string>,
    loading: bool,
    error: Option<string>)

  // ---------------------------------------------------------------- the file name

  /** The characters JavaScript's `\s` matches. */
  predicate IsSpace(c: char) {
    || c == ' ' || c == '\t' || c == '\n' || c == '\r' || c == '\U{000B}' || c == '\U{000C}'
    || c == '\U{00A0}' || c == '\U{1680}' || ('\U{2000}' <= c <= '\U{200A}')
    || c == '\U{2028}' || c == '\U{2029}' || c == '\U{202F}' || c == '\U{205F}'
    || c == '\U{3000}' || c == '\U{FEFF}'
  }

  predicate NoSpace(s: string) {
    forall k :: 0 <= k < |s| ==> !IsSpace(s[k])
  }

  /** The dash replacement, scanning left to right; `inRun` says whether the character
      before s was whitespace, so that a run which already produced its dash produces no
      second one. */
  function Dashes(s: string, inRun: bool): string {
    if s == [] then [] else Lead(s[0], inRun) + Dashes(s[1..], IsSpace(s[0]))
  }

  /** The output for one character: whitespace opens a run with a dash or continues one
      silently; any other character is copied. */
  function Lead(c: char, inRun: bool): (r: string)
    ensures IsSpace(c) ==> r == (if inRun then [] else "-")
    ensures !IsSpace(c) ==> r == [c]
  {
    if !IsSpace(c) then [c] else if inRun then [] else "-"
  }

  /** `replace(/\s+/g, '-')`: every maximal run of whitespace becomes one dash. */
  function DashRuns(s: string): (r: string)
    ensures NoSpace(r)
  {
    DashesClean(s, false);
    Dashes(s, false)
  }

  /** The dash replacement leaves no whitespace. */
  lemma {:induction false} DashesClean(s: string, inRun: bool)
    ensures NoSpace(Dashes(s, inRun))
  {
    if s != [] {
      DashesClean(s[1..], IsSpace(s[0]));
      var h, r := Lead(s[0], inRun), Dashes(s[1..], IsSpace(s[0]));
      forall k | 0 <= k < |h + r|
        ensures !IsSpace((h + r)[k])
      {
        if k >= |h| {
          assert (h + r)[k] == r[k - |h|];
        }
      }
    }
  }

  /** Whether the scan is inside a whitespace run after reading s. */
  function EndsInRun(s: string, inRun: bool): bool {
    if s == [] then inRun else IsSpace(s[|s| - 1])
  }

  /** `toLowerCase` on one character (ASCII letters only). */
  function LowerChar(c: char): (d: char)
    ensures !('A' <= d <= 'Z')
    ensures IsSpace(d) <==> IsSpace(c)
  {
    if 'A' <= c <= 'Z' then (c as int + 32) as char else c
  }

  function ToLower(s: string): (r: string)
    ensures |r| == |s|
    ensures forall k :: 0 <= k < |s| ==> r[k] == LowerChar(s[k])
  {
    Map(s, LowerChar)
  }

  /** The file-name slug of an angle label. */
  function Slug(s: string): (r: string)
    ensures NoSpace(r)
    ensures forall k :: 0 <= k < |r| ==> !('A' <= r[k] <= 'Z')
  {
    ToLower(DashRuns(s))
  }

  /** The archive name of an image taken from `angle`. */
  function EntryName(angle: string): string {
    "try-on-" + Slug(angle) + ".png"
  }

  /** Text without whitespace passes the dash replacement unchanged. */
  lemma {:induction false} DashesNoSpace(s: string, inRun: bool)
    requires NoSpace(s)
    ensures Dashes(s, inRun) == s
  {
    if s != [] {
      DashesNoSpace(s[1..], false);
      assert s == [s[0]] + s[1..];
    }
  }

  /** The replacement works piece by piece: the second piece is scanned in the state the
      first one left. */
  lemma {:induction false} DashesAppend(a: string, b: string, inRun: bool)
    ensures Dashes(a + b, inRun) == Dashes(a, inRun) + Dashes(b, EndsInRun(a, inRun))
  {
    if a == [] {
      assert a + b == b;
    } else {
      var c, t := a[0], a[1..];
      var e := IsSpace(c);
      assert a == [c] + t;
      assert a + b == [c] + (t + b);
      calc {
        Dashes(a + b, inRun);
        == { DashesCons(c, t + b, inRun); }
        Lead(c, inRun) + Dashes(t + b, e);
        == { DashesAppend(t, b, e); }
        Lead(c, inRun) + (Dashes(t, e) + Dashes(b, EndsInRun(t, e)));
        == { AppendAssoc(Lead(c, inRun), Dashes(t, e), Dashes(b, EndsInRun(t, e))); }
        (Lead(c, inRun) + Dashes(t, e)) + Dashes(b, EndsInRun(t, e));
        == { DashesCons(c, t, inRun); EndsInRunCons(c, t, inRun); }
        Dashes(a, inRun) + Dashes(b, EndsInRun(a, inRun));
      }
    }
  }

  lemma DashesCons(c: char, t: string, inRun: bool)
    ensures Dashes([c] + t, inRun) == Lead(c, inRun) + Dashes(t, IsSpace(c))
  {
    assert ([c] + t)[0] == c && ([c] + t)[1..] == t;
  }

  lemma EndsInRunCons(c: char, t: string, inRun: bool)
    ensures EndsInRun([c] + t, inRun) == EndsInRun(t, IsSpace(c))
  {
    if t != [] {
      assert ([c] + t)[|t|] == t[|t| - 1];
    }
  }

  /** A run of whitespace yields one dash, or nothing when the run was already open. */
  lemma {:induction false} DashesRun(w: string, inRun: bool)
    requires w != [] && forall k :: 0 <= k < |w| ==> IsSpace(w[k])
    ensures Dashes(w, inRun) == if inRun then [] else "-"
  {
    if |w| > 1 {
      DashesRun(w[1..], true);
    }
  }

  /** Text that does not end in whitespace is replaced independently of what follows. */
  lemma DashRunsAppend(a: string, b: string)
    requires a == [] || !IsSpace(a[|a| - 1])
    ensures DashRuns(a + b) == DashRuns(a) + DashRuns(b)
  {
    DashesAppend(a, b, false);
  }

  /** A non-empty run of whitespace followed by text that does not start with whitespace
      becomes exactly one dash. */
  lemma DashRunsRun(w: string, b: string)
    requires w != [] && forall k :: 0 <= k < |w| ==> IsSpace(w[k])
    requires b == [] || !IsSpace(b[0])
    ensures DashRuns(w + b) == "-" + DashRuns(b)
  {
    DashesAppend(w, b, false);
    DashesRun(w, false);
    assert IsSpace(w[|w| - 1]);
    if b != [] {
      assert b == [b[0]] + b[1..];
    }
  }

  /** A slug is its own slug. */
  lemma SlugIdempotent(s: string)
    ensures Slug(Slug(s)) == Slug(s)
  {
    var r := Slug(s);
    DashesNoSpace(r, false);
    assert ToLower(r) == r;
  }

  // ---------------------------------------------------------------- the payload

  /** The text before the first comma: element 0 of `split(',')`. */
  function UntilComma(s: string): (r: string)
    ensures |r| <= |s| && ',' !in r && r == s[..|r|]
    ensures |r| < |s| ==> s[|r|] == ','
  {
    if s == [] || s[0] == ',' then [] else [s[0]] + UntilComma(s[1..])
  }

  /** Element 1 of `split(',')`: the text between the first and the second comma, absent
      when the URL has no comma (JavaScript then yields `undefined`). */
  function Base64Payload(url: string): (r: Option<string>)
    ensures r.None? <==> ',' !in url
    ensures r.Some? ==> ',' !in r.value
  {
    var head := UntilComma(url);
    if |head| == |url| then
      assert url == head;
      None
    else
      Some(UntilComma(url[|head| + 1..]))
  }

  /** For a data URL `data:image/png;base64,<payload>` the payload comes back unchanged,
      whatever follows a further comma. */
  lemma PayloadRoundTrip(header: string, payload: string, rest: Option<string>)
    requires ',' !in header && ',' !in payload
    ensures Base64Payload(header + "," + payload + (if rest.Some? then "," + rest.value else ""))
         == Some(payload)
  {
    var tail := if rest.Some? then "," + rest.value else "";
    var after := "," + (payload + tail);
    var url := header + after;
    assert header + "," + payload + tail == url;
    assert UntilComma(url) == header by {
      UntilCommaPrefix(header, after);
    }
    assert url[|header| + 1..] == payload + tail by {
      assert after[1..] == payload + tail;
    }
    assert UntilComma(payload + tail) == payload by {
      UntilCommaPrefix(payload, tail);
    }
  }

  lemma {:induction false} UntilCommaPrefix(a: string, b: string)
    requires ',' !in a && (b == [] || b[0] == ',')
    ensures UntilComma(a + b) == a
  {
    if a == [] {
      assert a + b == b;
    } else {
      assert (a + b)[1..] == a[1..] + b;
      UntilCommaPrefix(a[1..], b);
    }
  }

  // ---------------------------------------------------------------- the archive

  /** `if (res.imageUrl)`: present and not empty. */
  predicate HasImage(r: GenerationResult) {
    r.imageUrl.Some? && r.imageUrl.value != ""
  }

  /** The archive table after `zip.file` for each result with an image, in list order:
      a later entry under the same name replaces an earlier one. */
  function ZipOf(results: seq<GenerationResult>): map<string, Option<string>>
  {
    if results == [] then map[]
    else
      var r := results[|results| - 1];
      var z := ZipOf(results[..|results| - 1]);
      if HasImage(r) then z[EntryName(r.angle) := Base64Payload(r.imageUrl.value)] else z
  }

  /** A name is in the archive exactly when some result with an image has that angle's name. */
  lemma {:induction false} ZipNames(results: seq<GenerationResult>, name: string)
    ensures name in ZipOf(results) <==>
      exists k :: 0 <= k < |results| && HasImage(results[k]) && EntryName(results[k].angle) == name
  {
    if results != [] {
      var n := |results| - 1;
      var init := results[..n];
      var r := results[n];
      ZipNames(init, name);
      assert forall k :: 0 <= k < n ==> init[k] == results[k];
      if exists k :: 0 <= k < |results| && HasImage(results[k]) && EntryName(results[k].angle) == name {
        var k :| 0 <= k < |results| && HasImage(results[k]) && EntryName(results[k].angle) == name;
        if k < n {
          assert HasImage(init[k]) && EntryName(init[k].angle) == name;
        }
      }
    }
  }

  /** Under each name the archive holds the payload of the last result with an image and that name. */
  lemma {:induction false} ZipPayload(results: seq<GenerationResult>, k: int)
    requires 0 <= k < |results| && HasImage(results[k])
    requires forall j :: k < j < |results| && HasImage(results[j]) ==>
      EntryName(results[j].angle) != EntryName(results[k].angle)
    ensures EntryName(results[k].angle) in ZipOf(results)
    ensures ZipOf(results)[EntryName(results[k].angle)] == Base64Payload(results[k].imageUrl.value)
  {
    if k < |results| - 1 {
      var init := results[..|results| - 1];
      assert init[k] == results[k];
      ZipPayload(init, k);
    }
  }

  /** Whether the forEach pass sets `hasContent`. */
  predicate AnyImage(results: seq<GenerationResult>) {
    exists k :: 0 <= k < |results| && HasImage(results[k])
  }

  /** `handleDownloadAll`: fill the archive table in one pass and produce it only when some
      entry was added. */
  method HandleDownloadAll(results: seq<GenerationResult>) returns (archive: Option<map<string, Option<string>>>)
    ensures archive.Some? <==> AnyImage(results)
    ensures archive.Some? ==> archive.value == ZipOf(results)
  {
    var zip: map<string, Option<string>> := map[];
    var hasContent := false;
    var i := 0;
    while i < |results|
      invariant 0 <= i <= |results|
      invariant zip == ZipOf(results[..i])
      invariant hasContent <==> AnyImage(results[..i])
    {
      var res := results[i];
      assert results[..i + 1][..i] == results[..i];
      assert results[..i + 1][i] == res;
      if res.imageUrl.Some? && res.imageUrl.value != "" {
        hasContent := true;
        var base64Data := Base64Payload(res.imageUrl.value);
        zip := zip[EntryName(res.angle) := base64Data];
      }
      assert AnyImage(results[..i + 1]) <==> AnyImage(results[..i]) || HasImage(res) by {
        assert forall j :: 0 <= j < i ==> results[..i + 1][j] == results[..i][j];
      }
      i := i + 1;
    }
    assert results[..i] == results;
    if hasContent {
      archive := Some(zip);
    } else {
      archive := None;
    }
  }

  /** `results.some(r => r.imageUrl !== null)`: whether the button is shown. */
  function HasAnyResult(results: seq<GenerationResult>): (b: bool)
    ensures b <==> exists k :: 0 <= k < |results| && results[k].imageUrl.Some?
  {
    if results == [] then false
    else results[0].imageUrl.Some? || HasAnyResult(results[1..])
  }

  /** Whenever the archive is produced the button was shown, but not conversely: a result whose
      image URL is the empty string shows the button, and pressing it produces no archive. */
  lemma ButtonAndArchive(results: seq<GenerationResult>)
    ensures AnyImage(results) ==> HasAnyResult(results)
    ensures var only := [GenerationResult("Front View", Some(""), false, None)];
      HasAnyResult(only) && !AnyImage(only)
  {
    var only := [GenerationResult("Front View", Some(""), false, None)];
    assert only[0].imageUrl.Some?;
    assert !HasImage(only[0]);
  }
}
