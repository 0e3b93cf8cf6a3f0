/**
 * Small helpers of the extension host: the http(s) URL test, the substitution of the
 * `${…}` placeholders in the image folder setting, the resource roots handed to the webview,
 * and the theme name.
 *
 * Node's `path` functions and the file-system checks are parameters (`PathOps`), since
 * their results depend on the platform and on the disk.
 */
module HostUtils {
  import opened Wrappers
  import opened Text
  import LiteralMatch

  /** The parts of Node's `path` module and of `fs` that the host uses. */
  datatype PathOps = PathOps(
    dirname: string -> string,
    basename: string -> string,
    /** `path.basename(p, path.extname(p))`. */
    basenameNoExt: string -> string,
    /** Two-argument `path.resolve`; more arguments resolve left to right. */
    resolve: (string, string) -> string,
    /** Two-argument `path.join`. */
    join: (string, string) -> string,
    relative: (string, string) -> string,
    isAbsolute: string -> bool,
    /** `fs.existsSync`. */
    existsSync: string -> bool)

  /** `s` starts with `p` when ASCII letters are compared without case. */
  predicate StartsWithFold(s: string, p: string) {
    |p| <= |s| && forall i :: 0 <= i < |p| ==> LiteralMatch.CharEq(p[i], s[i], true)
  }

  /**
   * `/^https?:\/\//i.test(url)`, read as the regular expression does: `http` at the start,
   * then an optional `s`, then `://`, every letter compared without case.
   */
  predicate IsHttpUrl(url: string) {
    StartsWithFold(url, "http")
    && (StartsWithFold(url[4..], "://")
        || (|url| > 4 && LiteralMatch.CharEq('s', url[4], true) && StartsWithFold(url[5..], "://")))
  }

  /** A URL is an http(s) URL exactly when it starts with `http://` or `https://`, ignoring case. */
  lemma IsHttpUrlIff(url: string)
    ensures IsHttpUrl(url) <==> StartsWithFold(url, "http://") || StartsWithFold(url, "https://")
  {
    if StartsWithFold(url, "http://") {
      assert forall i :: 0 <= i < 3 ==> url[4..][i] == url[4 + i];
    }
    if StartsWithFold(url, "https://") {
      assert forall i :: 0 <= i < 3 ==> url[5..][i] == url[5 + i];
    }
    if IsHttpUrl(url) {
      if StartsWithFold(url[4..], "://") {
        assert forall i :: 4 <= i < 7 ==> url[i] == url[4..][i - 4];
        assert StartsWithFold(url, "http://");
      } else {
        assert forall i :: 5 <= i < 8 ==> url[i] == url[5..][i - 5];
        assert StartsWithFold(url, "https://");
      }
    }
  }

  /** The placeholders of the image folder setting, with their values, in the order they are replaced. */
  function Placeholders(projectRoot: Option<string>, fsPath: string, paths: PathOps): seq<(string, string)> {
    [("${projectRoot}", projectRoot.GetOr("")),
     ("${file}", fsPath),
     ("${fileBasenameNoExtension}", paths.basenameNoExt(fsPath)),
     ("${dir}", paths.dirname(fsPath))]
  }

  /** A chain of `.replace(placeholder, value)` calls, applied left to right. */
  function SubstituteEach(s: string, pairs: seq<(string, string)>): string
    decreases |pairs|
  {
    if pairs == [] then s else SubstituteEach(ReplaceFirst(s, pairs[0].0, pairs[0].1), pairs[1..])
  }

  /**
   * The image folder setting with its placeholders substituted; `projectRoot` is the fsPath of
   * the document's workspace folder, if it has one.
   */
  function ProcessedFolder(imageSaveFolder: string, projectRoot: Option<string>, fsPath: string, paths: PathOps): string {
    SubstituteEach(imageSaveFolder, Placeholders(projectRoot, fsPath, paths))
  }

  /** `getAssetsFolder`: the processed folder, resolved against the document's directory. */
  function GetAssetsFolder(imageSaveFolder: string, projectRoot: Option<string>, fsPath: string, paths: PathOps): string {
    paths.resolve(paths.dirname(fsPath), ProcessedFolder(imageSaveFolder, projectRoot, fsPath, paths))
  }

  /** A string in which none of the placeholders occurs passes through the chain unchanged. */
  lemma {:induction false} SubstituteEachPlain(s: string, pairs: seq<(string, string)>)
    requires forall i, k: nat :: 0 <= i < |pairs| ==> !OccursAt(s, pairs[i].0, k)
    ensures SubstituteEach(s, pairs) == s
  {
    if pairs != [] {
      assert IndexOfFrom(s, pairs[0].0, 0).None?;
      assert forall i, k: nat :: 0 <= i < |pairs[1..]| ==> !OccursAt(s, pairs[1..][i].0, k) by {
        forall i, k: nat | 0 <= i < |pairs[1..]| ensures !OccursAt(s, pairs[1..][i].0, k) {
          assert pairs[1..][i] == pairs[i + 1];
        }
      }
      SubstituteEachPlain(s, pairs[1..]);
    }
  }

  /** A folder setting without placeholders is only resolved against the document's directory. */
  lemma PlainFolderUnchanged(imageSaveFolder: string, projectRoot: Option<string>, fsPath: string, paths: PathOps)
    requires forall i, k: nat :: 0 <= i < 4 ==> !OccursAt(imageSaveFolder, Placeholders(projectRoot, fsPath, paths)[i].0, k)
    ensures ProcessedFolder(imageSaveFolder, projectRoot, fsPath, paths) == imageSaveFolder
    ensures GetAssetsFolder(imageSaveFolder, projectRoot, fsPath, paths) == paths.resolve(paths.dirname(fsPath), imageSaveFolder)
  {
    SubstituteEachPlain(imageSaveFolder, Placeholders(projectRoot, fsPath, paths));
  }

  /** Each step of the chain swaps only the first occurrence of its placeholder for a dollar-free value. */
  lemma SubstituteFirstStep(s: string, pairs: seq<(string, string)>, p: nat)
    requires pairs != [] && FirstOccurrence(s, pairs[0].0, p) && '$' !in pairs[0].1
    ensures SubstituteEach(s, pairs) == SubstituteEach(s[..p] + pairs[0].1 + s[p + |pairs[0].0|..], pairs[1..])
  {
    var pattern, value := pairs[0].0, pairs[0].1;
    var t := s[..p] + value + s[p + |pattern|..];
    assert ReplaceFirst(s, pattern, value) == t by {
      ReplaceFirstAt(s, pattern, value, p);
    }
  }

  /**
   * The first step replaces only the first `${projectRoot}`, by the workspace folder's path or,
   * without a workspace folder, by the empty string; the other placeholders follow in order.
   */
  lemma ProjectRootFirstOnly(imageSaveFolder: string, projectRoot: Option<string>, fsPath: string, paths: PathOps, p: nat)
    requires FirstOccurrence(imageSaveFolder, "${projectRoot}", p)
    requires '$' !in projectRoot.GetOr("")
    ensures ProcessedFolder(imageSaveFolder, projectRoot, fsPath, paths)
              == SubstituteEach(imageSaveFolder[..p] + projectRoot.GetOr("") + imageSaveFolder[p + 14..],
                                [("${file}", fsPath),
                                 ("${fileBasenameNoExtension}", paths.basenameNoExt(fsPath)),
                                 ("${dir}", paths.dirname(fsPath))])
  {
    var ps := Placeholders(projectRoot, fsPath, paths);
    SubstituteFirstStep(imageSaveFolder, ps, p);
  }

  /** `vscode.Uri.file(...)` of a resource root, kept as its path. */
  datatype WebviewOptions = WebviewOptions(
    enableScripts: bool, localResourceRoots: seq<string>, retainContextWhenHidden: bool, enableCommandUris: bool)

  /** The root of drive letter `k` (0 for A): `String.fromCharCode(65 + k) + ':/'`. */
  function DriveRoot(k: nat): string
    requires k < 26
  {
    [(65 + k) as char] + ":/"
  }

  /**
   * `getWebviewOptions`: scripts and command URIs enabled, the context kept when hidden, and
   * the resource roots `/` followed by the 26 drive roots from A:/ to Z:/.
   */
  method GetWebviewOptions() returns (o: WebviewOptions)
    ensures o.enableScripts && o.retainContextWhenHidden && o.enableCommandUris
    ensures |o.localResourceRoots| == 27 && o.localResourceRoots[0] == "/"
    ensures forall k :: 0 <= k < 26 ==> o.localResourceRoots[k + 1] == DriveRoot(k)
    ensures o.localResourceRoots[1] == "A:/" && o.localResourceRoots[26] == "Z:/"
  {
    var folders: seq<string> := [];
    for i := 65 to 91
      invariant |folders| == i - 65
      invariant forall k :: 0 <= k < |folders| ==> folders[k] == DriveRoot(k)
    {
      folders := folders + [[i as char] + ":/"];
    }
    o := WebviewOptions(true, ["/"] + folders, true, true);
  }

  /** `vscode.ColorThemeKind`. */
  datatype ColorThemeKind = Light | Dark | HighContrast | HighContrastLight

  /** `getCurrentTheme`. */
  function GetCurrentTheme(kind: ColorThemeKind): (t: string)
    ensures t == "dark" <==> kind == Dark
    ensures t == "dark" || t == "light"
  {
    if kind == Dark then "dark" else "light"
  }
}
