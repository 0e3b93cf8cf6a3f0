/**
 * File upload in the webview: the stored name of each uploaded file (a time stamp, `_`, the
 * original name, with the first run of characters outside `[A-Za-z0-9_.-]` replaced by a
 * single `_`), the one `upload` message per batch, and the markup inserted for each URL the
 * extension reports back.
 *
 * The base64 encoding of a file and the formatted time stamp are parameters.
 */
module Upload {
  import opened Wrappers
  import opened Text
  import opened Protocol

  /** The characters of `\w`, `-`, `_` and `.`, which the name pattern leaves alone. */
  predicate Allowed(c: char) {
    ('A' <= c <= 'Z') || ('a' <= c <= 'z') || ('0' <= c <= '9') || c == '_' || c == '-' || c == '.'
  }

  predicate AllAllowed(s: string) {
    forall i :: 0 <= i < |s| ==> Allowed(s[i])
  }

  /** The first position from `from` on that holds a character the pattern matches, or `|s|`. */
  function FirstDisallowed(s: string, from: nat): (i: nat)
    requires from <= |s|
    decreases |s| - from
    ensures from <= i <= |s|
    ensures forall k :: from <= k < i ==> Allowed(s[k])
    ensures i < |s| ==> !Allowed(s[i])
  {
    if from == |s| || !Allowed(s[from]) then from else FirstDisallowed(s, from + 1)
  }

  /** Where the run of matched characters that starts at `from` ends. */
  function RunEnd(s: string, from: nat): (j: nat)
    requires from <= |s|
    decreases |s| - from
    ensures from <= j <= |s|
    ensures forall k :: from <= k < j ==> !Allowed(s[k])
    ensures j < |s| ==> Allowed(s[j])
  {
    if from == |s| || Allowed(s[from]) then from else RunEnd(s, from + 1)
  }

  /**
   * `name.replace(/[^\w-_.]+/, '_')`. There is no `g` flag, so only the leftmost match is
   * replaced: the first maximal run of other characters becomes one `_`.
   */
  function Sanitize(name: string): (r: string)
    ensures AllAllowed(name) ==> r == name
    ensures !AllAllowed(name) ==>
              var i := FirstDisallowed(name, 0);
              var j := RunEnd(name, i);
              i < j && r == name[..i] + "_" + name[j..]
  {
    var i := FirstDisallowed(name, 0);
    if i == |name| then name else name[..i] + "_" + name[RunEnd(name, i)..]
  }

  /**
   * Only the first run is replaced: characters outside the set that come after an allowed
   * character following that run stay in the name.
   */
  lemma SanitizeKeepsLaterRuns()
    ensures Sanitize("my photo 1.png") == "my_photo 1.png"
  {
    var s := "my photo 1.png";
    assert FirstDisallowed(s, 0) == 2 by {
      assert Allowed(s[0]) && Allowed(s[1]) && !Allowed(s[2]);
    }
    assert RunEnd(s, 2) == 3 by {
      assert Allowed(s[3]);
    }
    assert s[..2] + "_" + s[3..] == "my_photo 1.png";
  }

  /**
   * The text before the first disallowed character is kept, one `_` stands for the whole first
   * run, and the name gets shorter or keeps its length.
   */
  lemma SanitizeShape(name: string)
    ensures |Sanitize(name)| <= |name|
    ensures var i := FirstDisallowed(name, 0);
            Sanitize(name)[..i] == name[..i] && AllAllowed(name[..i])
    ensures forall c :: c in Sanitize(name) && !Allowed(c) ==> c in name
  {
    var i := FirstDisallowed(name, 0);
    assert AllAllowed(name[..i]) by {
      forall k | 0 <= k < i ensures Allowed(name[..i][k]) {
        assert name[..i][k] == name[k];
      }
    }
    if i < |name| {
      var j := RunEnd(name, i);
      var r := Sanitize(name);
      assert r == name[..i] + "_" + name[j..];
      assert r[..i] == name[..i];
      forall c | c in r && !Allowed(c) ensures c in name {
        var k :| 0 <= k < |r| && r[k] == c;
        assert k > i;
        assert name[j + (k - i - 1)] == c;
      }
    }
  }

  /** The uploaded name of a file: the time stamp, `_`, the file's name, then sanitised. */
  function UploadName(stamp: string, fileName: string): string {
    Sanitize(stamp + "_" + fileName)
  }

  /**
   * The time stamp (`yyyyMMdd_HHmmss`: digits and `_`) is never touched: sanitising the full
   * name is sanitising the file's own name behind it.
   */
  lemma UploadNameKeepsStamp(stamp: string, fileName: string)
    requires AllAllowed(stamp)
    ensures UploadName(stamp, fileName) == stamp + "_" + Sanitize(fileName)
    ensures AllAllowed(fileName) ==> UploadName(stamp, fileName) == stamp + "_" + fileName
  {
    var p := stamp + "_";
    assert AllAllowed(p) by {
      assert forall k :: 0 <= k < |stamp| ==> p[k] == stamp[k];
    }
    AllowedPrefixKept(p, fileName);
  }

  /** Sanitising behind a prefix of allowed characters leaves the prefix alone. */
  lemma AllowedPrefixKept(p: string, t: string)
    requires AllAllowed(p)
    ensures Sanitize(p + t) == p + Sanitize(t)
  {
    var i0 := FirstDisallowed(t, 0);
    var j0 := if i0 < |t| then RunEnd(t, i0) else i0;
    PrefixShift(p, t);
    SanitizeAt(p + t, |p| + i0, |p| + j0);
    SanitizeAt(t, i0, j0);
    if i0 < |t| {
      SplicePrefix(p, t, i0, j0);
    }
  }

  /** An allowed prefix moves the first disallowed character and the end of its run along. */
  lemma PrefixShift(p: string, t: string)
    requires AllAllowed(p)
    ensures FirstDisallowed(p + t, 0) == |p| + FirstDisallowed(t, 0)
    ensures FirstDisallowed(t, 0) < |t| ==> RunEnd(p + t, |p| + FirstDisallowed(t, 0)) == |p| + RunEnd(t, FirstDisallowed(t, 0))
  {
    FirstDisallowedShift(p, t, 0);
    if FirstDisallowed(t, 0) < |t| {
      RunEndShift(p, t, FirstDisallowed(t, 0));
    }
  }

  /** Splicing `_` into `p + t` behind `p` is splicing it into `t`. */
  lemma SplicePrefix(p: string, t: string, i: nat, j: nat)
    requires i <= j <= |t|
    ensures (p + t)[..|p| + i] + "_" + (p + t)[|p| + j..] == p + (t[..i] + "_" + t[j..])
  {
    assert (p + t)[..|p| + i] == p + t[..i];
    assert (p + t)[|p| + j..] == t[j..];
  }

  /** `Sanitize` given where the first disallowed character is and where its run ends. */
  lemma SanitizeAt(name: string, i: nat, j: nat)
    requires i == FirstDisallowed(name, 0)
    requires j == if i < |name| then RunEnd(name, i) else i
    ensures i <= j <= |name|
    ensures Sanitize(name) == if i == |name| then name else name[..i] + "_" + name[j..]
  {
  }

  lemma {:induction false} FirstDisallowedShift(p: string, t: string, from: nat)
    requires AllAllowed(p) && from <= |t|
    ensures FirstDisallowed(p + t, |p| + from) == |p| + FirstDisallowed(t, from)
    decreases |t| - from
  {
    assert forall k :: 0 <= k < |t| ==> (p + t)[|p| + k] == t[k];
    if from < |t| && Allowed(t[from]) {
      FirstDisallowedShift(p, t, from + 1);
    }
  }

  lemma {:induction false} RunEndShift(p: string, t: string, from: nat)
    requires from <= |t|
    ensures RunEnd(p + t, |p| + from) == |p| + RunEnd(t, from)
    decreases |t| - from
  {
    assert forall k :: 0 <= k < |t| ==> (p + t)[|p| + k] == t[k];
    if from < |t| && !Allowed(t[from]) {
      RunEndShift(p, t, from + 1);
    }
  }

  /** A file picked for upload, with its name. */
  datatype PickedFile = PickedFile(name: string, id: nat)

  /**
   * The upload handler: every file's base64 content and its uploaded name, in input order, in
   * one `upload` message. If any encoding fails, the error is caught and nothing is sent.
   * `stamps[k]` is the time stamp formatted for the k-th file.
   */
  function UploadMessage(files: seq<PickedFile>, stamps: seq<string>, toBase64: PickedFile -> Option<string>): (m: Option<ToHost>)
    requires |stamps| == |files|
    ensures m.Some? <==> forall k :: 0 <= k < |files| ==> toBase64(files[k]).Some?
    ensures m.Some? ==> m.value.Upload? && |m.value.files| == |files|
    ensures m.Some? ==> forall k :: 0 <= k < |files| ==>
              m.value.files[k] == UploadFile(UploadName(stamps[k], files[k].name), toBase64(files[k]).value)
  {
    if files == [] then Some(Upload([]))
    else
      match toBase64(files[0])
      case None => None
      case Some(b) =>
        match UploadMessage(files[1..], stamps[1..], toBase64)
        case None => None
        case Some(rest) => Some(Upload([UploadFile(UploadName(stamps[0], files[0].name), b)] + rest.files))
  }

  /** The block inserted for an uploaded `.wav` file. */
  function AudioMarkup(url: string): string {
    "\n\n<audio controls=\"controls\" src=\"" + url + "\"></audio>\n\n"
  }

  function ImageMarkup(url: string): string {
    "\n\n![](" + url + ")\n\n"
  }

  /** A link whose text is the URL's last `/`-separated piece. */
  function LinkMarkup(url: string): string {
    "\n\n[" + LastSegment(url, {'/'}) + "](" + url + ")\n\n"
  }

  /**
   * What `handleUploadedFiles` inserts for one URL: audio for `.wav`; otherwise an image when
   * the URL loads as one and a link when it does not.
   */
  function Markup(url: string, loadsAsImage: bool): (m: string)
    ensures EndsWith(url, ".wav") ==> m == AudioMarkup(url)
    ensures !EndsWith(url, ".wav") && loadsAsImage ==> m == ImageMarkup(url)
    ensures !EndsWith(url, ".wav") && !loadsAsImage ==> m == LinkMarkup(url)
  {
    if EndsWith(url, ".wav") then AudioMarkup(url)
    else if loadsAsImage then ImageMarkup(url) else LinkMarkup(url)
  }

  /** The link text is the file name: the part of the URL after its last `/`, free of `/`. */
  lemma LinkTextIsFileName(url: string)
    ensures var name := LastSegment(url, {'/'});
            EndsWith(url, name) && '/' !in name
            && (|name| < |url| ==> url[|url| - |name| - 1] == '/')
            && LinkMarkup(url) == "\n\n[" + name + "](" + url + ")\n\n"
  {
    LastSegmentIsSuffix(url, {'/'});
  }

  /** The markups of a batch, in order. */
  function Markups(urls: seq<string>, loadsAsImage: string -> bool): (r: seq<string>)
    ensures |r| == |urls|
    ensures forall k :: 0 <= k < |urls| ==> r[k] == Markup(urls[k], loadsAsImage(urls[k]))
  {
    if urls == [] then [] else [Markup(urls[0], loadsAsImage(urls[0]))] + Markups(urls[1..], loadsAsImage)
  }
}
